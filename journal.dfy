/**
 * The Field Journal: the researcher's rank and progress towards the next one, the profile editor,
 * the researcher id and the badge cards.
 */
module FieldJournal {
  import opened Wrappers
  import opened Seqs
  import opened Strings
  import opened Types
  import opened Constants
  import App

  // ------------------------------------------------------------------
  // Ranks

  /** Thresholds strictly increase along the table. */
  predicate Ascending(table: seq<Rank>) {
    forall i, j :: 0 <= i < j < |table| ==> table[i].minXp < table[j].minXp
  }

  /** The rank shown for an XP total: searching the reversed table for a reached threshold, else the first rank. */
  function RankOf(table: seq<Rank>, xp: int): Rank
    requires |table| > 0
  {
    Find(Reverse(table), (q: Rank) => xp >= q.minXp).GetOr(table[0])
  }

  /** The search over the reversed table picks the last entry whose threshold is reached. */
  lemma RankOfIsLastReached(table: seq<Rank>, xp: int)
    requires |table| > 0
    ensures (exists k :: 0 <= k < |table| && table[k].minXp <= xp) ==>
      exists k :: 0 <= k < |table| && RankOf(table, xp) == table[k] && table[k].minXp <= xp
        && forall j :: k < j < |table| ==> table[j].minXp > xp
    ensures (forall k :: 0 <= k < |table| ==> table[k].minXp > xp) ==> RankOf(table, xp) == table[0]
  {
    var rev := Reverse(table);
    var p := (q: Rank) => xp >= q.minXp;
    ReverseLength(table);
    match FindIndex(rev, p)
    case Some(i) =>
      var k := |table| - 1 - i;
      ReverseAt(table, i);
      forall j | k < j < |table|
        ensures table[j].minXp > xp
      {
        ReverseAt(table, |table| - 1 - j);
        assert !p(rev[|table| - 1 - j]);
      }
      assert RankOf(table, xp) == table[k];
    case None =>
      forall k | 0 <= k < |table|
        ensures table[k].minXp > xp
      {
        ReverseAt(table, |table| - 1 - k);
        assert !p(rev[|table| - 1 - k]);
      }
  }

  /** The rank's position in the (ascending) table: the number of thresholds reached, less one, or 0. */
  lemma RankIndex(table: seq<Rank>, xp: int) returns (k: nat)
    requires |table| > 0 && Ascending(table)
    ensures k < |table| && RankOf(table, xp) == table[k]
    ensures forall j :: 0 <= j < |table| ==> (table[j].minXp <= xp <==> j <= k) || (k == 0 && table[0].minXp > xp)
  {
    RankOfIsLastReached(table, xp);
    if exists j :: 0 <= j < |table| && table[j].minXp <= xp {
      k :| 0 <= k < |table| && RankOf(table, xp) == table[k] && table[k].minXp <= xp
        && forall j :: k < j < |table| ==> table[j].minXp > xp;
    } else {
      k := 0;
    }
  }

  /** Over an ascending table, more XP never shows a lower rank. */
  lemma RankMonotone(table: seq<Rank>, xp1: int, xp2: int)
    requires |table| > 0 && Ascending(table) && xp1 <= xp2
    ensures RankOf(table, xp1).minXp <= RankOf(table, xp2).minXp
  {
    var k1 := RankIndex(table, xp1);
    var k2 := RankIndex(table, xp2);
    if k1 > 0 || table[0].minXp <= xp1 {
      assert table[k1].minXp <= xp1;
      assert k1 <= k2;
    }
  }

  function CurrentRank(xp: int): Rank { RankOf(Ranks, xp) }

  /** The next rank: the first one whose threshold is above the XP. */
  function NextRank(xp: int): (r: Option<Rank>)
    ensures r.Some? ==> r.value in Ranks && r.value.minXp > xp
    ensures r.None? <==> forall k :: 0 <= k < |Ranks| ==> Ranks[k].minXp <= xp
  {
    Find(Ranks, (q: Rank) => q.minXp > xp)
  }

  /** The top rank is reached at 2500 XP; below that a next rank exists and lies beyond the current one. */
  lemma RankLadder(xp: int)
    ensures NextRank(xp).None? <==> xp >= 2500
    ensures xp >= 0 ==> CurrentRank(xp).minXp <= xp
    ensures xp >= 0 && NextRank(xp).Some? ==> CurrentRank(xp).minXp < NextRank(xp).value.minXp
    ensures xp < 0 ==> CurrentRank(xp) == Ranks[0] && NextRank(xp) == Some(Ranks[0])
  {
    RanksAreAscending();
    RankOfIsLastReached(Ranks, xp);
    if xp >= 0 {
      assert Ranks[0].minXp <= xp;
    }
    if xp < 2500 {
      assert Ranks[4].minXp > xp;
    }
    assert Ranks[4].minXp == 2500;
  }

  /** The share of the band [lo, hi) covered by `xp`, in percent; `None` for an empty band (division by zero). */
  function BandShare(xp: int, lo: int, hi: int): (r: Option<real>)
    ensures r.None? <==> lo == hi
    ensures lo <= xp < hi ==> r.Some? && 0.0 <= r.value < 100.0
    ensures xp == lo && lo != hi ==> r == Some(0.0)
  {
    if hi == lo then None
    else
      var share := (xp - lo) as real / (hi - lo) as real * 100.0;
      FractionBelowOne(xp - lo, hi - lo);
      Some(share)
  }

  lemma FractionBelowOne(a: int, b: int)
    ensures 0 <= a < b ==> 0.0 <= a as real / b as real * 100.0 < 100.0
  {
    if 0 <= a < b {
      var q := a as real / b as real;
      assert q * b as real == a as real;
      assert q < 1.0;
    }
  }

  /**
   * The progress bar's width in percent: 100 at the top rank, otherwise the share of the current
   * band covered (`None`, a division by zero, when the band is empty).
   */
  function ProgressPercent(xp: int): Option<real> {
    match NextRank(xp)
    case None => Some(100.0)
    case Some(next) => BandShare(xp, CurrentRank(xp).minXp, next.minXp)
  }

  /** For any non-negative XP the bar is well defined: full at the top rank, otherwise in [0, 100). Negative XP divides by zero. */
  lemma ProgressRange(xp: int)
    ensures xp >= 0 <==> ProgressPercent(xp).Some?
    ensures NextRank(xp).None? ==> ProgressPercent(xp) == Some(100.0)
    ensures xp >= 0 && NextRank(xp).Some? ==> 0.0 <= ProgressPercent(xp).value < 100.0
  {
    RankLadder(xp);
  }

  /** The XP still needed for the next rank, when there is one. */
  function XpLeft(xp: int): (r: Option<int>)
    ensures r.Some? <==> NextRank(xp).Some?
    ensures r.Some? ==> r.value > 0 && xp + r.value == NextRank(xp).value.minXp
  {
    match NextRank(xp)
    case None => None
    case Some(next) => Some(next.minXp - xp)
  }

  // ------------------------------------------------------------------
  // Profile editing

  datatype EditForm = EditForm(name: string, bio: string, specialization: string)

  /** The editor opens on the profile's current values. */
  function FormOf(p: UserProfile): EditForm { EditForm(p.name, p.bio, p.specialization) }

  /**
   * Saving: the update callback (if any) receives the profile with the three edited fields
   * replaced; editing ends either way.
   */
  function HandleSave(p: UserProfile, form: EditForm, hasCallback: bool): (r: (Option<UserProfile>, bool))
    ensures !r.1
    ensures r.0.Some? <==> hasCallback
    ensures r.0.Some? ==> var q := r.0.value;
      && q.name == form.name && q.bio == form.bio && q.specialization == form.specialization
      && q == p.(name := q.name, bio := q.bio, specialization := q.specialization)
      && FormOf(q) == form
  {
    (if hasCallback then Some(p.(name := form.name, bio := form.bio, specialization := form.specialization)) else None, false)
  }

  /** Saving an unchanged form hands back the very same profile. */
  lemma SaveUnchangedIsIdentity(p: UserProfile)
    ensures HandleSave(p, FormOf(p), true).0 == Some(p)
  {
  }

  // ------------------------------------------------------------------
  // Id card and badges

  /** The researcher id: the level's digits padded on the left with zeros to four characters. */
  function ResearcherId(level: int): (r: string)
    ensures |r| == if |IntToString(level)| >= 4 then |IntToString(level)| else 4
    ensures EndsWith(r, IntToString(level))
    ensures forall k :: 0 <= k < |r| - |IntToString(level)| ==> r[k] == '0'
  {
    PadStart(IntToString(level), 4, '0')
  }

  /** For a level that is not negative the badge number reads back as the level itself. */
  lemma ResearcherIdValue(level: nat)
    ensures forall k :: 0 <= k < |ResearcherId(level)| ==> IsAsciiDigit(ResearcherId(level)[k])
    ensures DecimalValue(ResearcherId(level)) == level
  {
    var digits := NatToString(level);
    NatToStringValue(level);
    if |digits| < 4 {
      LeadingZerosValue(4 - |digits|, digits);
    }
  }

  /** Short levels are padded with zeros to four digits. */
  lemma ResearcherIdExamples()
    ensures ResearcherId(1) == "0001"
    ensures ResearcherId(42) == "0042"
  {
    assert NatToString(42) == "42" by { assert NatToString(4) == "4"; }
  }

  /** A level of five digits or more is shown as it is. */
  lemma ResearcherIdUnpadded()
    ensures ResearcherId(12345) == "12345"
  {
    assert NatToString(12345) == "12345" by {
      assert NatToString(1) == "1";
      assert NatToString(12) == "12";
      assert NatToString(123) == "123";
      assert NatToString(1234) == "1234";
    }
  }

  /** One card per badge of the table, shown unlocked exactly when the profile holds that id. */
  function BadgeCards(p: UserProfile): (r: seq<bool>)
    ensures |r| == |BadgesList|
    ensures forall k :: 0 <= k < |r| ==> (r[k] <==> exists j :: 0 <= j < |p.badges| && p.badges[j].id == BadgesList[k].id)
  {
    seq(|BadgesList|, k requires 0 <= k < |BadgesList| => App.HasBadge(p, BadgesList[k].id))
  }

  /** The badge counter: badges held over badges in the table. */
  function BadgeCounter(p: UserProfile): (r: (nat, nat))
    ensures r.0 == |p.badges| && r.1 == |BadgesList| == 8
  {
    (|p.badges|, |BadgesList|)
  }

  /** A badge just unlocked shows its card as unlocked, and no other card changes. */
  lemma UnlockShowsCard(p: UserProfile, k: nat, now: int)
    requires k < |BadgesList|
    ensures var after := BadgeCards(App.UnlockBadge(p, BadgesList[k].id, now));
      after[k] && forall j :: 0 <= j < |BadgesList| && j != k ==> after[j] == BadgeCards(p)[j]
  {
    var id := BadgesList[k].id;
    assert App.KnownBadge(id).Some?;
    forall j | 0 <= j < |BadgesList| && j != k
      ensures BadgesList[j].id != id
    {
      DistinctBadgeIds(j, k);
    }
  }

  lemma DistinctBadgeIds(i: nat, j: nat)
    requires i < |BadgesList| && j < |BadgesList| && i != j
    ensures BadgesList[i].id != BadgesList[j].id
  {
    assert forall a, b :: 0 <= a < b < |BadgesList| ==> BadgesList[a].id != BadgesList[b].id;
  }
}
