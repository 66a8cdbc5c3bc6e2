/** The level-up dialog: the rank, level and XP it announces. */
module LevelUpModal {
  import opened Types
  import opened Constants
  import FieldJournal
  import App

  /** What the dialog shows. */
  datatype Announcement = Announcement(rank: Rank, level: int, xp: int)

  /**
   * The dialog's content: the rank found by the same reversed-table search the journal uses,
   * and the level and XP exactly as passed in.
   */
  function Announce(level: int, xp: int): (r: Announcement)
    ensures r.level == level && r.xp == xp
    ensures r.rank == FieldJournal.CurrentRank(xp)
    ensures r.rank in Ranks
    ensures xp >= 0 ==> r.rank.minXp <= xp
    ensures xp < 0 ==> r.rank == Ranks[0]
  {
    FieldJournal.RankOfIsLastReached(Ranks, xp);
    FieldJournal.RankLadder(xp);
    Announcement(FieldJournal.RankOf(Ranks, xp), level, xp)
  }

  /** The announced rank never goes down as XP grows. */
  lemma AnnouncedRankMonotone(level1: int, xp1: int, level2: int, xp2: int)
    requires xp1 <= xp2
    ensures Announce(level1, xp1).rank.minXp <= Announce(level2, xp2).rank.minXp
  {
    RanksAreAscending();
    FieldJournal.RankMonotone(Ranks, xp1, xp2);
  }

  /** After an XP award that opens the dialog, the announced rank is at least the rank before the award. */
  lemma LevelUpNeverDemotes(p: UserProfile, amount: nat)
    requires App.AddXp(p, amount).1
    ensures var q := App.AddXp(p, amount).0;
      Announce(q.level, q.xp).rank.minXp >= FieldJournal.CurrentRank(p.xp).minXp
  {
    AnnouncedRankMonotone(p.level, p.xp, App.AddXp(p, amount).0.level, p.xp + amount);
  }
}
