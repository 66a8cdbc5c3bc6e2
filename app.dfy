/**
 * The application shell's bookkeeping: the researcher profile's gamification (badges, XP and
 * level, the login streak, the XP and badge rules of a send), the chat-session updates of a send
 * (the active chat, the appended turn, the streamed reply, the connection-error note), chat
 * deletion, the gallery extracted from the current chat, and opening the lightbox on an image.
 * Clock readings, generated ids and the reply stream are inputs.
 */
module App {
  import opened Wrappers
  import opened Seqs
  import opened Strings
  import opened Types
  import opened Constants
  import Gemini
  import Markdown

  // ------------------------------------------------------------------
  // Badges

  /** The table entry for a badge id, if the id is known. */
  function KnownBadge(id: string): (r: Option<Badge>)
    ensures r.Some? ==> r.value in BadgesList && r.value.id == id
    ensures r.None? ==> forall k :: 0 <= k < |BadgesList| ==> BadgesList[k].id != id
  {
    Find(BadgesList, (b: Badge) => b.id == id)
  }

  predicate Holds(badges: seq<Badge>, id: string) {
    exists k :: 0 <= k < |badges| && badges[k].id == id
  }

  predicate HasBadge(p: UserProfile, id: string) { Holds(p.badges, id) }

  /**
   * Awards a badge once: a held badge or an unknown id leaves the profile as it is; otherwise the
   * table entry, stamped with `now`, is appended and nothing else changes.
   */
  function UnlockBadge(p: UserProfile, id: string, now: int): (r: UserProfile)
    ensures r == p.(badges := r.badges)
    ensures HasBadge(p, id) || KnownBadge(id).None? ==> r == p
    ensures !HasBadge(p, id) && KnownBadge(id).Some? ==>
      |r.badges| == |p.badges| + 1 && r.badges[..|p.badges|] == p.badges
      && r.badges[|p.badges|] == KnownBadge(id).value.(unlockedAt := Some(now))
    ensures forall other :: HasBadge(r, other) <==> HasBadge(p, other) || (other == id && KnownBadge(id).Some?)
  {
    if Find(p.badges, (b: Badge) => b.id == id).Some? then p
    else match KnownBadge(id)
      case None => p
      case Some(info) =>
        var r := p.(badges := p.badges + [info.(unlockedAt := Some(now))]);
        assert forall other :: HasBadge(r, other) <==> HasBadge(p, other) || other == id by {
          forall other
            ensures HasBadge(r, other) <==> HasBadge(p, other) || other == id
          {
            assert r.badges[|p.badges|].id == id;
            if HasBadge(p, other) {
              var k :| 0 <= k < |p.badges| && p.badges[k].id == other;
              assert r.badges[k] == p.badges[k];
            }
          }
        }
        r
  }

  /** Unlocking the same badge twice is the same as unlocking it once. */
  lemma UnlockIdempotent(p: UserProfile, id: string, t1: int, t2: int)
    ensures UnlockBadge(UnlockBadge(p, id, t1), id, t2) == UnlockBadge(p, id, t1)
  {
  }

  // ------------------------------------------------------------------
  // XP and level

  const XpPerLevel: nat := 300

  /** Level for an XP total: one level per 300 XP, starting at level 1 (`Math.floor(xp / 300) + 1`). */
  function LevelFor(xp: int): int { xp / XpPerLevel + 1 }

  /** Adds XP, recomputes the level, and reports whether the level rose (which opens the level-up dialog). */
  function AddXp(p: UserProfile, amount: int): (r: (UserProfile, bool))
    ensures r.0 == p.(xp := p.xp + amount, level := LevelFor(p.xp + amount))
    ensures r.1 <==> r.0.level > p.level
  {
    var newXp := p.xp + amount;
    var newLevel := newXp / 300 + 1;
    (p.(xp := newXp, level := newLevel), newLevel > p.level)
  }

  /** The level's XP band: level L covers [300(L-1), 300L). */
  lemma LevelBand(xp: int)
    ensures 300 * (LevelFor(xp) - 1) <= xp < 300 * LevelFor(xp)
    ensures xp >= 0 ==> LevelFor(xp) >= 1
  {
  }

  /** More XP never means a lower level. */
  lemma LevelMonotone(a: int, b: int)
    requires a <= b
    ensures LevelFor(a) <= LevelFor(b)
  {
    LevelBand(a);
    LevelBand(b);
  }

  /** For a profile whose level matches its XP, the dialog opens exactly when the new XP reaches the next band. */
  lemma LevelUpIffNextBand(p: UserProfile, amount: int)
    requires p.level == LevelFor(p.xp)
    ensures AddXp(p, amount).1 <==> p.xp + amount >= 300 * p.level
  {
    LevelBand(p.xp);
    LevelBand(p.xp + amount);
  }

  // ------------------------------------------------------------------
  // Login streak

  /** The streak after a gap of `diffDays` whole days since the last login. */
  function NextStreak(streak: int, diffDays: nat): (r: int)
    ensures diffDays == 1 ==> r == streak + 1
    ensures diffDays > 1 ==> r == 1
    ensures diffDays == 0 ==> r == streak
  {
    if diffDays == 1 then streak + 1 else if diffDays > 1 then 1 else streak
  }

  /**
   * The start-up check: on a new day, record it, update the streak and add the 50-XP login bonus
   * (directly, without recomputing the level); a streak of 3 or more earns `streak_3`.
   */
  function Login(p: UserProfile, today: string, diffDays: nat, now: int): (r: UserProfile)
    ensures p.lastLoginDate == today ==> r == p
    ensures p.lastLoginDate != today ==>
      && r.lastLoginDate == today && r.streakDays == NextStreak(p.streakDays, diffDays)
      && r.xp == p.xp + 50 && r.level == p.level && r.observationsCount == p.observationsCount
      && r.name == p.name && r.bio == p.bio && r.specialization == p.specialization && r.avatar == p.avatar
      && (forall id :: HasBadge(r, id) <==> HasBadge(p, id) || (id == "streak_3" && r.streakDays >= 3))
  {
    if p.lastLoginDate == today then p
    else
      var newStreak := NextStreak(p.streakDays, diffDays);
      var q := p.(lastLoginDate := today, streakDays := newStreak, xp := p.xp + 50);
      assert forall id :: HasBadge(q, id) <==> HasBadge(p, id);
      assert KnownBadge("streak_3").Some? by { assert BadgesList[2].id == "streak_3"; }
      if newStreak >= 3 then UnlockBadge(q, "streak_3", now) else q
  }

  /** The daily mission is chosen by the day of the month, cycling through the challenge list. */
  function DailyMission(dayOfMonth: nat): (r: string)
    ensures r in DailyChallenges
    ensures r == DailyChallenges[dayOfMonth % 7]
  {
    DailyChallenges[dayOfMonth % |DailyChallenges|]
  }

  // ------------------------------------------------------------------
  // Gamification of a send

  predicate NightHour(hour: int) { hour >= 22 || hour < 4 }
  predicate EarlyHour(hour: int) { 5 <= hour < 8 }

  /** Unlocks `id` when `c` holds. */
  function UnlockIf(p: UserProfile, c: bool, id: string, now: int): (r: UserProfile)
    ensures r == p.(badges := r.badges)
    ensures forall o :: HasBadge(r, o) <==> HasBadge(p, o) || (c && o == id && KnownBadge(id).Some?)
  {
    if c then UnlockBadge(p, id, now) else p
  }

  function XpForSend(attachmentCount: nat): int { if attachmentCount > 0 then 60 else 10 }

  /** The badges earned by the words of a send and the hour it is sent. */
  predicate MomentBadge(id: string, text: string, hour: int) {
    var lower := ToLower(text);
    || (id == "publisher" && Contains(lower, "report"))
    || (id == "bioblitz" && Contains(lower, "bio-blitz"))
    || (id == "night_owl" && NightHour(hour))
    || (id == "early_bird" && EarlyHour(hour))
  }

  /** The first stage of a send: the text and hour badges, in the order they are checked. */
  function MomentBadges(p: UserProfile, text: string, hour: int, now: int): (r: UserProfile)
    ensures r == p.(badges := r.badges)
    ensures forall id :: HasBadge(r, id) <==> HasBadge(p, id) || MomentBadge(id, text, hour)
  {
    AllSendBadgesKnown();
    var lower := ToLower(text);
    var q1 := UnlockIf(p, Contains(lower, "report"), "publisher", now);
    var q2 := UnlockIf(q1, Contains(lower, "bio-blitz"), "bioblitz", now);
    var q3 := UnlockIf(q2, NightHour(hour), "night_owl", now);
    UnlockIf(q3, EarlyHour(hour), "early_bird", now)
  }

  /** The photo-count badges, evaluated on the count this send produced. */
  predicate CountBadge(id: string, attachmentCount: nat, newCount: int) {
    || (id == "shutterbug" && attachmentCount > 0 && newCount >= 10)
    || (id == "taxonomist" && attachmentCount > 0 && newCount >= 5)
  }

  function CountBadges(p: UserProfile, attachmentCount: nat, newCount: int, now: int): (r: UserProfile)
    ensures r == p.(badges := r.badges)
    ensures forall id :: HasBadge(r, id) <==> HasBadge(p, id) || CountBadge(id, attachmentCount, newCount)
  {
    AllSendBadgesKnown();
    var q := UnlockIf(p, attachmentCount > 0 && newCount >= 10, "shutterbug", now);
    UnlockIf(q, attachmentCount > 0 && newCount >= 5, "taxonomist", now)
  }

  /** Uploads add to the observation count and earn `novice_observer`. */
  function RecordUploads(p: UserProfile, attachmentCount: nat, now: int): (r: UserProfile)
    ensures attachmentCount == 0 ==> r == p
    ensures r == p.(badges := r.badges, observationsCount := r.observationsCount)
    ensures r.observationsCount == p.observationsCount + attachmentCount
    ensures forall id :: HasBadge(r, id) <==> HasBadge(p, id) || (id == "novice_observer" && attachmentCount > 0)
  {
    AllSendBadgesKnown();
    if attachmentCount > 0 then UnlockBadge(p.(observationsCount := p.observationsCount + attachmentCount), "novice_observer", now)
    else p
  }

  /** Every badge a send can earn, and whether it raises the level. */
  predicate EarnedAtSend(id: string, text: string, hour: int, attachmentCount: nat, newCount: int) {
    MomentBadge(id, text, hour) || (id == "novice_observer" && attachmentCount > 0) || CountBadge(id, attachmentCount, newCount)
  }

  /**
   * The gamification of a send, in the order its updates apply: text and hour badges, the
   * observation count and `novice_observer`, the XP award, then the deferred photo-count badges.
   * A system-initiated send awards nothing.
   */
  function Gamify(p: UserProfile, text: string, attachmentCount: nat, hour: int, isSystemInit: bool, now: int)
      : (r: (UserProfile, bool))
    ensures isSystemInit ==> r == (p, false)
    ensures !isSystemInit ==>
      && r.0.observationsCount == p.observationsCount + attachmentCount
      && r.0.xp == p.xp + XpForSend(attachmentCount)
      && r.0.level == LevelFor(r.0.xp)
      && (r.1 <==> LevelFor(r.0.xp) > p.level)
      && r.0 == p.(badges := r.0.badges, observationsCount := r.0.observationsCount, xp := r.0.xp, level := r.0.level)
  {
    if isSystemInit then (p, false)
    else
      var q1 := MomentBadges(p, text, hour, now);
      var q2 := RecordUploads(q1, attachmentCount, now);
      var gained := AddXp(q2, XpForSend(attachmentCount));
      (CountBadges(gained.0, attachmentCount, q2.observationsCount, now), gained.1)
  }

  /** The badges a send leaves: exactly those held before and those the send earns. */
  lemma GamifyBadges(p: UserProfile, text: string, attachmentCount: nat, hour: int, now: int)
    ensures var r := Gamify(p, text, attachmentCount, hour, false, now).0;
      forall id :: HasBadge(r, id) <==>
        HasBadge(p, id) || EarnedAtSend(id, text, hour, attachmentCount, p.observationsCount + attachmentCount)
  {
    var q1 := MomentBadges(p, text, hour, now);
    var q2 := RecordUploads(q1, attachmentCount, now);
    var gained := AddXp(q2, XpForSend(attachmentCount));
    assert forall id :: HasBadge(gained.0, id) <==> HasBadge(q2, id);
  }

  lemma AllSendBadgesKnown()
    ensures KnownBadge("publisher").Some? && KnownBadge("bioblitz").Some? && KnownBadge("night_owl").Some?
    ensures KnownBadge("early_bird").Some? && KnownBadge("novice_observer").Some?
    ensures KnownBadge("shutterbug").Some? && KnownBadge("taxonomist").Some?
  {
    assert BadgesList[0].id == "novice_observer";
    assert BadgesList[1].id == "taxonomist";
    assert BadgesList[3].id == "publisher";
    assert BadgesList[4].id == "bioblitz";
    assert BadgesList[5].id == "night_owl";
    assert BadgesList[6].id == "early_bird";
    assert BadgesList[7].id == "shutterbug";
  }

  // ------------------------------------------------------------------
  // Sessions during a send

  const CommunityChatTitle: string := "Community Bench Analysis"
  const SystemInitDisplay: string := "Initializing Expedition Protocols..."
  const ConnectionErrorNote: string := "*[Connection Error]*"
  const ContextOpening: string :=
    "[SYSTEM CONTEXT: The user is currently looking at the Community Bench. Here are the visible posts: "

  function FindSession(sessions: seq<ChatSession>, id: string): (r: Option<ChatSession>)
    ensures r.Some? ==> r.value in sessions && r.value.id == id
    ensures r.None? ==> forall k :: 0 <= k < |sessions| ==> sessions[k].id != id
  {
    Find(sessions, (s: ChatSession) => s.id == id)
  }

  /**
   * Without a current chat, a send first opens a new one at the front of the list. Chat ids are
   * generated and never empty, so "no current chat" is `None` here (the empty id, which the
   * handler's `!activeId` would also treat as absent, does not arise).
   */
  function EnsureActiveChat(sessions: seq<ChatSession>, current: Option<string>, newId: string, now: int)
      : (r: (seq<ChatSession>, string))
    ensures current.Some? ==> r == (sessions, current.value)
    ensures current.None? ==> r.1 == newId && r.0 == [ChatSession(newId, CommunityChatTitle, None, [], now)] + sessions
  {
    if current.Some? then (sessions, current.value)
    else ([ChatSession(newId, CommunityChatTitle, None, [], now)] + sessions, newId)
  }

  /** The user's message as stored: a system-initiated send shows a fixed placeholder instead of its prompt. */
  function UserMessage(id: string, text: string, atts: seq<Attachment>, isSystemInit: bool, now: int): Message {
    Message(id, User, if isSystemInit then SystemInitDisplay else text, Some(atts), now, None, None)
  }

  /** The empty model message the stream will fill. */
  function BotPlaceholder(id: string, now: int): Message {
    Message(id, Model, "", None, now + 1, None, None)
  }

  const QuestionLabel: string := "User Question: "

  /** The community context is attached in the community view or when the text mentions the community or a post. */
  predicate WantsCommunityContext(text: string, view: ViewMode) {
    view == Community || Contains(ToLower(text), "community") || Contains(ToLower(text), "post")
  }

  /** The question wrapped in the community context; `context` stands for the visible posts' summary. */
  function WithContext(context: string, text: string): (r: string)
    ensures StartsWith(r, ContextOpening) && EndsWith(r, QuestionLabel + text)
  {
    var head := ContextOpening + (context + "]\n\n");
    ConcatAffixes(ContextOpening, context + "]\n\n");
    StartsWithExtend(head, ContextOpening, QuestionLabel + text);
    ConcatAffixes(head, QuestionLabel + text);
    head + (QuestionLabel + text)
  }

  /** The text sent to the model: as typed, or wrapped in the community context. A system prompt goes as it is. */
  function TextToSend(text: string, isSystemInit: bool, view: ViewMode, context: string): (r: string)
    ensures isSystemInit || !WantsCommunityContext(text, view) ==> r == text
    ensures !isSystemInit && WantsCommunityContext(text, view) ==> r == WithContext(context, text)
  {
    if !isSystemInit && WantsCommunityContext(text, view) then WithContext(context, text) else text
  }

  /** Applies `f` to the session with id `id` and keeps every other session. */
  function MapSession(sessions: seq<ChatSession>, id: string, f: ChatSession -> ChatSession): (r: seq<ChatSession>)
    ensures |r| == |sessions|
    ensures forall k :: 0 <= k < |r| ==> r[k] == if sessions[k].id == id then f(sessions[k]) else sessions[k]
  {
    seq(|sessions|, k requires 0 <= k < |sessions| => if sessions[k].id == id then f(sessions[k]) else sessions[k])
  }

  /** Appends exactly the user message and the model placeholder to the active chat and stamps it. */
  function AppendTurn(sessions: seq<ChatSession>, activeId: string, user: Message, bot: Message, now: int)
      : (r: seq<ChatSession>)
    ensures |r| == |sessions|
    ensures forall k :: 0 <= k < |r| && sessions[k].id != activeId ==> r[k] == sessions[k]
    ensures forall k :: 0 <= k < |r| && sessions[k].id == activeId ==>
      r[k].messages == sessions[k].messages + [user, bot] && r[k].updatedAt == now
      && r[k].id == sessions[k].id && r[k].title == sessions[k].title && r[k].missionType == sessions[k].missionType
  {
    MapSession(sessions, activeId, (s: ChatSession) => s.(messages := s.messages + [user, bot], updatedAt := now))
  }

  /** Applies `f` to the message with id `id` and keeps every other message. */
  function MapMessage(messages: seq<Message>, id: string, f: Message -> Message): (r: seq<Message>)
    ensures |r| == |messages|
    ensures forall k :: 0 <= k < |r| ==> r[k] == if messages[k].id == id then f(messages[k]) else messages[k]
  {
    seq(|messages|, k requires 0 <= k < |messages| => if messages[k].id == id then f(messages[k]) else messages[k])
  }

  /** One stream update: the model message takes the display text, metadata and suggestions. */
  function ApplyUpdate(sessions: seq<ChatSession>, activeId: string, botId: string, u: Gemini.Update): seq<ChatSession> {
    MapSession(sessions, activeId, (s: ChatSession) =>
      s.(messages := MapMessage(s.messages, botId, (m: Message) =>
        m.(text := u.displayText, groundingMetadata := u.metadata, suggestions := u.suggestions))))
  }

  function ApplyUpdates(sessions: seq<ChatSession>, activeId: string, botId: string, updates: seq<Gemini.Update>)
      : seq<ChatSession>
    decreases |updates|
  {
    if updates == [] then sessions
    else ApplyUpdates(ApplyUpdate(sessions, activeId, botId, updates[0]), activeId, botId, updates[1..])
  }

  /** Only the model message's reply fields change; later updates overwrite earlier ones. */
  lemma ApplyUpdateOverwrites(sessions: seq<ChatSession>, activeId: string, botId: string, u1: Gemini.Update, u2: Gemini.Update)
    ensures ApplyUpdate(ApplyUpdate(sessions, activeId, botId, u1), activeId, botId, u2)
         == ApplyUpdate(sessions, activeId, botId, u2)
  {
    var once := ApplyUpdate(sessions, activeId, botId, u1);
    var twice := ApplyUpdate(once, activeId, botId, u2);
    var direct := ApplyUpdate(sessions, activeId, botId, u2);
    forall k | 0 <= k < |sessions|
      ensures twice[k] == direct[k]
    {
      if sessions[k].id == activeId {
        var ms := sessions[k].messages;
        assert twice[k].messages == direct[k].messages by {
          forall j | 0 <= j < |ms|
            ensures twice[k].messages[j] == direct[k].messages[j]
          {
          }
        }
      }
    }
  }

  /** A stream leaves the model message as its last update made it. */
  lemma {:induction false} ApplyUpdatesLastWins(sessions: seq<ChatSession>, activeId: string, botId: string,
                                                updates: seq<Gemini.Update>)
    requires updates != []
    ensures ApplyUpdates(sessions, activeId, botId, updates)
         == ApplyUpdate(sessions, activeId, botId, updates[|updates| - 1])
    decreases |updates|
  {
    if |updates| > 1 {
      var once := ApplyUpdate(sessions, activeId, botId, updates[0]);
      ApplyUpdatesLastWins(once, activeId, botId, updates[1..]);
      ApplyUpdateOverwrites(sessions, activeId, botId, updates[0], updates[|updates| - 1]);
    }
  }

  /** The model message's text after a failed call: the connection-error note, after a blank line when text exists. */
  function WithConnectionError(text: string): (r: string)
    ensures text == "" ==> r == ConnectionErrorNote
    ensures text != "" ==> r == text + "\n\n" + ConnectionErrorNote
    ensures StartsWith(r, text) && EndsWith(r, ConnectionErrorNote)
  {
    var r := text + (if text != "" then "\n\n" else "") + ConnectionErrorNote;
    assert r[..|text|] == text;
    assert r[|r| - |ConnectionErrorNote|..] == ConnectionErrorNote;
    r
  }

  function MarkConnectionError(sessions: seq<ChatSession>, activeId: string, botId: string, now: int): seq<ChatSession> {
    MapSession(sessions, activeId, (s: ChatSession) =>
      s.(messages := MapMessage(s.messages, botId, (m: Message) => m.(text := WithConnectionError(m.text))), updatedAt := now))
  }

  /**
   * The chats once the call is over: the outcome's updates applied in order, then, when the call
   * threw (a missing key, or a stream broken off), the connection-error note on the model message.
   */
  function Settle(appended: seq<ChatSession>, activeId: string, botId: string, outcome: Gemini.SendOutcome, now: int)
      : seq<ChatSession>
  {
    match outcome
    case MissingKey(_) => MarkConnectionError(appended, activeId, botId, now)
    case Streamed(_, _, updates) => ApplyUpdates(appended, activeId, botId, updates)
    case Failed(_, _, updates) => MarkConnectionError(ApplyUpdates(appended, activeId, botId, updates), activeId, botId, now)
  }

  /** A model message keeps its place and id through a stream and shows the last update's text, if any. */
  lemma {:induction false} ApplyUpdatesBotText(sessions: seq<ChatSession>, activeId: string, botId: string,
                                              updates: seq<Gemini.Update>, k: nat, i: nat)
    requires k < |sessions| && sessions[k].id == activeId
    requires i < |sessions[k].messages| && sessions[k].messages[i].id == botId
    ensures var r := ApplyUpdates(sessions, activeId, botId, updates);
      && |r| == |sessions| && r[k].id == activeId && |r[k].messages| == |sessions[k].messages|
      && r[k].messages[i].id == botId
      && r[k].messages[i].text == if updates == [] then sessions[k].messages[i].text else updates[|updates| - 1].displayText
  {
    if updates != [] {
      ApplyUpdatesLastWins(sessions, activeId, botId, updates);
    }
  }

  /** The connection-error note goes on the model message's text, and the active chat is stamped. */
  lemma MarkBotText(sessions: seq<ChatSession>, activeId: string, botId: string, now: int, k: nat, i: nat)
    requires k < |sessions| && sessions[k].id == activeId
    requires i < |sessions[k].messages| && sessions[k].messages[i].id == botId
    ensures var r := MarkConnectionError(sessions, activeId, botId, now);
      && |r| == |sessions| && r[k].updatedAt == now && |r[k].messages| == |sessions[k].messages|
      && r[k].messages[i].text == WithConnectionError(sessions[k].messages[i].text)
  {
  }

  /**
   * A stream broken off after `chunks`: the placeholder shows the display text received so far,
   * then the connection-error note, and the chat is stamped.
   */
  lemma FailedReplyText(sessions: seq<ChatSession>, activeId: string, user: Message, botId: string, now: int,
                        request: seq<Gemini.Content>, chunks: seq<Gemini.Chunk>, k: nat)
    requires k < |sessions| && sessions[k].id == activeId
    ensures var appended := AppendTurn(sessions, activeId, user, BotPlaceholder(botId, now), now);
      var r := Settle(appended, activeId, botId, Gemini.Failed(request, Gemini.FullText(chunks), Gemini.Updates(chunks)), now);
      var i := |sessions[k].messages| + 1;
      && k < |r| && i < |r[k].messages| && r[k].updatedAt == now
      && r[k].messages[i].text == WithConnectionError(Gemini.DisplayText(Gemini.FullText(chunks)))
  {
    var appended := AppendTurn(sessions, activeId, user, BotPlaceholder(botId, now), now);
    var i := |sessions[k].messages| + 1;
    var updates := Gemini.Updates(chunks);
    assert appended[k].messages[i] == BotPlaceholder(botId, now);
    ApplyUpdatesBotText(appended, activeId, botId, updates, k, i);
    var streamed := ApplyUpdates(appended, activeId, botId, updates);
    MarkBotText(streamed, activeId, botId, now, k, i);
    Gemini.LastUpdateShowsText(chunks);
    assert streamed[k].messages[i].text == Gemini.DisplayText(Gemini.FullText(chunks)) by {
      if updates == [] {
        assert !Contains("", Gemini.Delimiter);
      }
    }
  }

  /** A missing key leaves the empty placeholder showing only the connection-error note, and stamps the chat. */
  lemma MissingKeyReplyText(sessions: seq<ChatSession>, activeId: string, user: Message, botId: string, now: int, k: nat)
    requires k < |sessions| && sessions[k].id == activeId
    ensures var appended := AppendTurn(sessions, activeId, user, BotPlaceholder(botId, now), now);
      var r := Settle(appended, activeId, botId, Gemini.MissingKey(Gemini.MissingKeyError), now);
      var i := |sessions[k].messages| + 1;
      && k < |r| && i < |r[k].messages| && r[k].updatedAt == now
      && r[k].messages[i].text == ConnectionErrorNote
  {
    var appended := AppendTurn(sessions, activeId, user, BotPlaceholder(botId, now), now);
    assert appended[k].messages[|sessions[k].messages| + 1] == BotPlaceholder(botId, now);
  }

  /** The history sent with a turn: the active chat's messages as they were before the send, or none. */
  function HistoryFor(sessions: seq<ChatSession>, activeId: string): seq<Message> {
    match FindSession(sessions, activeId)
    case Some(s) => s.messages
    case None => []
  }

  // ------------------------------------------------------------------
  // Deleting a chat

  /**
   * Removes the chat; if it was the current one, the first remaining chat (or none) becomes current
   * and loading stops. Otherwise the current chat stays.
   */
  function DeleteChat(sessions: seq<ChatSession>, current: Option<string>, id: string)
      : (r: (seq<ChatSession>, Option<string>, bool))
    ensures r.0 == Filter(sessions, (s: ChatSession) => s.id != id)
    ensures forall k :: 0 <= k < |r.0| ==> r.0[k].id != id
    ensures current == Some(id) ==> r.1 == (if r.0 == [] then None else Some(r.0[0].id)) && r.2
    ensures current != Some(id) ==> r.1 == current && !r.2
  {
    var remaining := Filter(sessions, (s: ChatSession) => s.id != id);
    assert forall k :: 0 <= k < |remaining| ==> remaining[k].id != id by {
      forall k | 0 <= k < |remaining| ensures remaining[k].id != id {
        assert remaining[k] in remaining;
      }
    }
    if current == Some(id) then (remaining, if |remaining| > 0 then Some(remaining[0].id) else None, true)
    else (remaining, current, false)
  }

  /** Deletion keeps the other chats in their order and drops every chat with that id. */
  lemma DeleteKeepsOrder(sessions: seq<ChatSession>, current: Option<string>, id: string)
    ensures IsSubsequence(DeleteChat(sessions, current, id).0, sessions)
    ensures forall s :: s in sessions && s.id != id ==> s in DeleteChat(sessions, current, id).0
  {
    FilterIsSubsequence(sessions, (s: ChatSession) => s.id != id);
  }

  // ------------------------------------------------------------------
  // The gallery

  /** The data URL of an attachment (`data:<mime>;base64,<data>`, section 3 of RFC 2397). */
  function DataUrl(mimeType: string, data: string): string {
    "data:" + mimeType + ";base64," + data
  }

  /**
   * The `exec` loop of a global pattern, for any pattern: `find(p)` is what one `exec` call with
   * `lastIndex = p` returns, and each search resumes where the previous match ended. The link
   * patterns never match the empty string, so a match always ends past where its search began and
   * within the text; a result outside that range ends the scan.
   */
  function Scan(find: nat -> Option<Markdown.LinkMatch>, n: nat, from: nat): seq<Markdown.LinkMatch>
    decreases n + 1 - from
  {
    match find(from)
    case None => []
    case Some(m) => if from < m.end <= n then [m] + Scan(find, n, m.end) else []
  }

  /** A search that advances moves its match to the front of the scan. */
  lemma ScanStep(find: nat -> Option<Markdown.LinkMatch>, n: nat, from: nat, m: Markdown.LinkMatch)
    requires find(from) == Some(m) && from < m.end <= n
    ensures Scan(find, n, from) == [m] + Scan(find, n, m.end)
  {
  }

  /** Every scanned match is what some search at or after the start returned. */
  lemma {:induction false} ScanFound(find: nat -> Option<Markdown.LinkMatch>, n: nat, from: nat, k: nat)
    requires k < |Scan(find, n, from)|
    ensures exists q :: from <= q && find(q) == Some(Scan(find, n, from)[k])
    decreases k
  {
    var m := find(from).value;
    if k == 0 {
      assert find(from) == Some(Scan(find, n, from)[0]);
    } else {
      ScanStep(find, n, from, m);
      ScanFound(find, n, m.end, k - 1);
      var q :| m.end <= q && find(q) == Some(Scan(find, n, m.end)[k - 1]);
      assert Scan(find, n, from)[k] == Scan(find, n, m.end)[k - 1];
    }
  }

  /** Each scanned match after the first is what the search from the end of its predecessor returned. */
  lemma {:induction false} ScanNext(find: nat -> Option<Markdown.LinkMatch>, n: nat, from: nat, k: nat)
    requires k + 1 < |Scan(find, n, from)|
    ensures find(Scan(find, n, from)[k].end) == Some(Scan(find, n, from)[k + 1])
    decreases k
  {
    var m := find(from).value;
    ScanStep(find, n, from, m);
    var rest := Scan(find, n, m.end);
    assert Scan(find, n, from)[k + 1] == rest[k];
    if k > 0 {
      assert Scan(find, n, from)[k] == rest[k - 1];
      ScanNext(find, n, m.end, k - 1);
    }
  }

  /** After the last scanned match, the next search returns no advancing match. */
  lemma {:induction false} ScanLast(find: nat -> Option<Markdown.LinkMatch>, n: nat, from: nat)
    requires |Scan(find, n, from)| > 0
    ensures var e := Scan(find, n, from)[|Scan(find, n, from)| - 1].end;
      find(e).None? || !(e < find(e).value.end <= n)
    decreases n + 1 - from
  {
    var m := find(from).value;
    ScanStep(find, n, from, m);
    var rest := Scan(find, n, m.end);
    if rest == [] {
      assert Scan(find, n, from)[|Scan(find, n, from)| - 1] == m;
    } else {
      assert Scan(find, n, from)[|Scan(find, n, from)| - 1] == rest[|rest| - 1];
      ScanLast(find, n, m.end);
    }
  }

  /** One `exec` call of the link pattern: the leftmost match from the given position. */
  function Finder(s: string, bang: bool): nat -> Option<Markdown.LinkMatch> {
    (q: nat) => Markdown.FirstMatchFrom(s, q, bang)
  }

  /** Successive `exec` matches of the link pattern over `s`, from `from` on. */
  function Matches(s: string, from: nat, bang: bool): seq<Markdown.LinkMatch> {
    Scan(Finder(s, bang), |s|, from)
  }

  /** Each scanned match is a match at its start, found at or after where the scan began. */
  lemma MatchesAreMatches(s: string, from: nat, bang: bool, k: nat)
    requires k < |Matches(s, from, bang)|
    ensures from <= Matches(s, from, bang)[k].start
    ensures Markdown.MatchAt(s, Matches(s, from, bang)[k].start, bang) == Some(Matches(s, from, bang)[k])
  {
    ScanFound(Finder(s, bang), |s|, from, k);
    var q :| from <= q && Finder(s, bang)(q) == Some(Matches(s, from, bang)[k]);
    assert Markdown.FirstMatchFrom(s, q, bang) == Some(Matches(s, from, bang)[k]);
  }

  /** The first scanned match is the leftmost one. */
  lemma MatchesFirstIsLeftmost(s: string, from: nat, bang: bool, q: nat)
    requires |Matches(s, from, bang)| > 0 && from <= q < Matches(s, from, bang)[0].start
    ensures Markdown.MatchAt(s, q, bang).None?
  {
    var m := Matches(s, from, bang)[0];
    assert Markdown.FirstMatchFrom(s, from, bang) == Some(m);
    Markdown.NoMatchInAt(s, from, m.start, bang, q);
  }

  /** Between two scanned matches, and after the last one, no match starts. */
  lemma MatchesLeaveNoGap(s: string, from: nat, bang: bool, k: nat, q: nat)
    requires k < |Matches(s, from, bang)| && Matches(s, from, bang)[k].end <= q
    requires k + 1 < |Matches(s, from, bang)| ==> q < Matches(s, from, bang)[k + 1].start
    requires k + 1 == |Matches(s, from, bang)| ==> q <= |s|
    ensures Markdown.MatchAt(s, q, bang).None?
  {
    if k + 1 < |Matches(s, from, bang)| {
      NoGapBetween(s, from, bang, k, q);
    } else {
      NoGapAfter(s, from, bang, q);
    }
  }

  lemma NoGapBetween(s: string, from: nat, bang: bool, k: nat, q: nat)
    requires k + 1 < |Matches(s, from, bang)|
    requires Matches(s, from, bang)[k].end <= q < Matches(s, from, bang)[k + 1].start
    ensures Markdown.MatchAt(s, q, bang).None?
  {
    var ms := Matches(s, from, bang);
    ScanNext(Finder(s, bang), |s|, from, k);
    assert Markdown.FirstMatchFrom(s, ms[k].end, bang) == Some(ms[k + 1]);
    Markdown.NoMatchInAt(s, ms[k].end, ms[k + 1].start, bang, q);
  }

  lemma NoGapAfter(s: string, from: nat, bang: bool, q: nat)
    requires |Matches(s, from, bang)| > 0
    requires Matches(s, from, bang)[|Matches(s, from, bang)| - 1].end <= q <= |s|
    ensures Markdown.MatchAt(s, q, bang).None?
  {
    var ms := Matches(s, from, bang);
    var e := ms[|ms| - 1].end;
    ScanLast(Finder(s, bang), |s|, from);
    FinderAdvances(s, e, bang);
    assert Markdown.FirstMatchFrom(s, e, bang).None?;
    Markdown.NoMatchFrom(s, e, bang, q);
  }

  /** A link match found from `e` ends past `e` and within the text. */
  lemma FinderAdvances(s: string, e: nat, bang: bool)
    ensures Finder(s, bang)(e) == Markdown.FirstMatchFrom(s, e, bang)
    ensures Finder(s, bang)(e).Some? ==> e < Finder(s, bang)(e).value.end <= |s|
  {
  }

  /** Successive scanned matches do not overlap. */
  lemma MatchesOrdered(s: string, from: nat, bang: bool, k: nat)
    requires k + 1 < |Matches(s, from, bang)|
    ensures Matches(s, from, bang)[k].end <= Matches(s, from, bang)[k + 1].start
  {
    var ms := Matches(s, from, bang);
    ScanNext(Finder(s, bang), |s|, from, k);
    assert Markdown.FirstMatchFrom(s, ms[k].end, bang) == Some(ms[k + 1]);
  }

  /** No match at all: no position from `from` on starts one. */
  lemma MatchesNone(s: string, from: nat, bang: bool)
    requires Matches(s, from, bang) == []
    ensures forall q :: from <= q <= |s| ==> Markdown.MatchAt(s, q, bang).None?
  {
    assert Finder(s, bang)(from) == Markdown.FirstMatchFrom(s, from, bang);
    forall q | from <= q <= |s|
      ensures Markdown.MatchAt(s, q, bang).None?
    {
      Markdown.NoMatchInAt(s, from, |s| + 1, bang, q);
    }
  }

  lemma MatchesStep(s: string, from: nat, bang: bool, m: Markdown.LinkMatch)
    requires Markdown.FirstMatchFrom(s, from, bang) == Some(m)
    ensures Matches(s, from, bang) == [m] + Matches(s, m.end, bang)
    ensures from < m.end <= |s|
  {
    assert Finder(s, bang)(from) == Some(m);
    ScanStep(Finder(s, bang), |s|, from, m);
  }

  lemma MatchesDone(s: string, from: nat, bang: bool)
    requires Markdown.FirstMatchFrom(s, from, bang).None?
    ensures Matches(s, from, bang) == []
  {
    assert Finder(s, bang)(from).None?;
  }

  function AttachmentItems(msg: Message): (r: seq<GalleryItem>)
    ensures |r| == |Gemini.AttachmentsOf(msg)|
    ensures forall k :: 0 <= k < |r| ==>
      var att := Gemini.AttachmentsOf(msg)[k];
      && r[k].src == DataUrl(att.mimeType, att.data) && r[k].alt == "User Upload" && r[k].isUser
      && r[k].sourceMessageId == msg.id && r[k].timestamp == msg.timestamp
  {
    var atts := Gemini.AttachmentsOf(msg);
    seq(|atts|, k requires 0 <= k < |atts| =>
      GalleryItem(DataUrl(atts[k].mimeType, atts[k].data), "User Upload", msg.id, msg.timestamp, true))
  }

  function ImageItem(msg: Message, m: Markdown.LinkMatch): GalleryItem {
    GalleryItem(m.url, if m.text == "" then "Scientific Illustration" else m.text, msg.id, msg.timestamp, false)
  }

  function LinkItem(msg: Message, m: Markdown.LinkMatch): GalleryItem {
    GalleryItem(m.url, if m.text == "" then "Image" else m.text, msg.id, msg.timestamp, false)
  }

  /** One item per image match: its URL, its alt text or "Scientific Illustration", marked as not uploaded. */
  function ImageItems(msg: Message, ms: seq<Markdown.LinkMatch>): (r: seq<GalleryItem>)
    ensures |r| == |ms|
    ensures forall k :: 0 <= k < |ms| ==>
      && r[k].src == ms[k].url && !r[k].isUser
      && r[k].alt == (if ms[k].text == "" then "Scientific Illustration" else ms[k].text)
      && r[k].sourceMessageId == msg.id && r[k].timestamp == msg.timestamp
  {
    seq(|ms|, k requires 0 <= k < |ms| => ImageItem(msg, ms[k]))
  }

  /** Link matches whose URL has an image extension, in order. */
  function LinkItems(msg: Message, ms: seq<Markdown.LinkMatch>): (r: seq<GalleryItem>)
    ensures |r| <= |ms|
    ensures forall k :: 0 <= k < |r| ==>
      && Markdown.HasImageExtension(r[k].src) && !r[k].isUser && r[k].alt != ""
      && r[k].sourceMessageId == msg.id && r[k].timestamp == msg.timestamp
    decreases |ms|
  {
    if ms == [] then []
    else (if Markdown.HasImageExtension(ms[0].url) then [LinkItem(msg, ms[0])] else []) + LinkItems(msg, ms[1..])
  }

  /** Every link item is made from one of the link matches. */
  lemma {:induction false} LinkItemsFromMatches(msg: Message, ms: seq<Markdown.LinkMatch>)
    ensures forall k :: 0 <= k < |LinkItems(msg, ms)| ==> exists j :: 0 <= j < |ms| && LinkItems(msg, ms)[k] == LinkItem(msg, ms[j])
    decreases |ms|
  {
    if ms != [] {
      var head := if Markdown.HasImageExtension(ms[0].url) then [LinkItem(msg, ms[0])] else [];
      var rest := LinkItems(msg, ms[1..]);
      LinkItemsFromMatches(msg, ms[1..]);
      assert LinkItems(msg, ms) == head + rest;
      forall k | 0 <= k < |LinkItems(msg, ms)|
        ensures exists j :: 0 <= j < |ms| && LinkItems(msg, ms)[k] == LinkItem(msg, ms[j])
      {
        if k < |head| {
          assert LinkItems(msg, ms)[k] == LinkItem(msg, ms[0]);
        } else {
          assert LinkItems(msg, ms)[k] == rest[k - |head|];
          var j :| 0 <= j < |ms[1..]| && rest[k - |head|] == LinkItem(msg, ms[1..][j]);
          assert ms[1..][j] == ms[j + 1];
        }
      }
    } else {
      assert LinkItems(msg, ms) == [];
    }
  }

  /** One message's gallery items: its uploads, then (for a non-empty model reply) its images, then its image links. */
  function MessageItems(msg: Message): seq<GalleryItem> {
    AttachmentItems(msg)
    + if msg.role == Model && msg.text != "" then
        ImageItems(msg, Matches(msg.text, 0, true)) + LinkItems(msg, Matches(msg.text, 0, false))
      else []
  }

  function GalleryOf(messages: seq<Message>): seq<GalleryItem> {
    FlatMap(messages, MessageItems)
  }

  function GalleryItems(chat: Option<ChatSession>): seq<GalleryItem> {
    if chat.Some? then GalleryOf(chat.value.messages) else []
  }

  /** The gallery follows message order: the items of a longer history extend those of its prefix. */
  lemma GalleryAppend(ms1: seq<Message>, ms2: seq<Message>)
    ensures GalleryOf(ms1 + ms2) == GalleryOf(ms1) + GalleryOf(ms2)
  {
    FlatMapAppend(ms1, ms2, MessageItems);
  }

  /** One more message adds its own items at the end of the gallery. */
  lemma GalleryStep(messages: seq<Message>, i: nat)
    requires i < |messages|
    ensures GalleryOf(messages[..i + 1]) == GalleryOf(messages[..i]) + MessageItems(messages[i])
  {
    assert messages[..i + 1] == messages[..i] + [messages[i]];
    GalleryAppend(messages[..i], [messages[i]]);
    FlatMapSingleton(messages[i], MessageItems);
  }

  /** A user's uploads appear as data URLs, in upload order; user text never adds items. */
  lemma UserMessageItems(msg: Message)
    requires msg.role == User
    ensures |MessageItems(msg)| == |Gemini.AttachmentsOf(msg)|
    ensures forall k :: 0 <= k < |MessageItems(msg)| ==>
      MessageItems(msg)[k].src == DataUrl(Gemini.AttachmentsOf(msg)[k].mimeType, Gemini.AttachmentsOf(msg)[k].data)
      && MessageItems(msg)[k].isUser
  {
  }

  /** A non-empty reply's items: its uploads, then one per image match, then the links to images. */
  lemma ReplyLayout(msg: Message)
    requires msg.role == Model && msg.text != ""
    ensures MessageItems(msg) ==
      AttachmentItems(msg) + ImageItems(msg, Matches(msg.text, 0, true)) + LinkItems(msg, Matches(msg.text, 0, false))
  {
  }

  /**
   * The image items of a reply: one per image match, each a real match of the image pattern, with
   * its URL and its alt text or "Scientific Illustration", not counted as an upload.
   */
  lemma ReplyImageItems(msg: Message, k: nat)
    requires msg.role == Model && msg.text != "" && k < |Matches(msg.text, 0, true)|
    ensures var image, item := Matches(msg.text, 0, true)[k], MessageItems(msg)[|AttachmentItems(msg)| + k];
      && Markdown.MatchAt(msg.text, image.start, true) == Some(image)
      && item.src == image.url && !item.isUser
      && item.alt == (if image.text == "" then "Scientific Illustration" else image.text)
  {
    var ups, im := AttachmentItems(msg), ImageItems(msg, Matches(msg.text, 0, true));
    var links := LinkItems(msg, Matches(msg.text, 0, false));
    ReplyLayout(msg);
    assert (ups + im + links)[|ups| + k] == im[k];
    MatchesAreMatches(msg.text, 0, true, k);
  }

  /** The items after a reply's image items are links to images, each with its text or "Image", not uploads. */
  lemma ReplyLinkItems(msg: Message, k: nat)
    requires msg.role == Model && msg.text != ""
    requires |AttachmentItems(msg)| + |Matches(msg.text, 0, true)| <= k < |MessageItems(msg)|
    ensures var item := MessageItems(msg)[k];
      Markdown.HasImageExtension(item.src) && !item.isUser && item.alt != ""
  {
    var ups, im := AttachmentItems(msg), ImageItems(msg, Matches(msg.text, 0, true));
    var links := LinkItems(msg, Matches(msg.text, 0, false));
    ReplyLayout(msg);
    assert (ups + im + links)[k] == links[k - |ups| - |im|];
  }

  /** The gallery-building code: per message, push uploads, then scan images, then scan image links. */
  method AllGalleryItems(chat: Option<ChatSession>) returns (items: seq<GalleryItem>)
    ensures items == GalleryItems(chat)
  {
    if chat.None? {
      return [];
    }
    var messages := chat.value.messages;
    items := [];
    var i := 0;
    while i < |messages|
      invariant 0 <= i <= |messages|
      invariant items == GalleryOf(messages[..i])
    {
      var more := ItemsOfMessage(messages[i]);
      GalleryStep(messages, i);
      items := items + more;
      i := i + 1;
    }
    assert messages[..i] == messages;
  }

  /** The body of the per-message loop. */
  method ItemsOfMessage(msg: Message) returns (items: seq<GalleryItem>)
    ensures items == MessageItems(msg)
  {
    items := UploadItems(msg);
    if msg.role == Model && msg.text != "" {
      var images := ScanImages(msg);
      var links := ScanImageLinks(msg);
      items := items + (images + links);
    } else {
      items := items + [];
    }
  }

  /** The uploads of a message as data-URL items. */
  method UploadItems(msg: Message) returns (items: seq<GalleryItem>)
    ensures items == AttachmentItems(msg)
  {
    items := [];
    if msg.attachments.Some? {
      var atts := msg.attachments.value;
      var k := 0;
      while k < |atts|
        invariant 0 <= k <= |atts|
        invariant items == AttachmentItems(msg)[..k]
      {
        items := items + [GalleryItem(DataUrl(atts[k].mimeType, atts[k].data), "User Upload", msg.id, msg.timestamp, true)];
        k := k + 1;
      }
    }
  }

  /** The `exec` loop of a global pattern: search again from where the last match ended, until none is left. */
  method ExecAll(s: string, bang: bool) returns (found: seq<Markdown.LinkMatch>)
    ensures found == Matches(s, 0, bang)
  {
    found := [];
    var lastIndex := 0;
    while true
      invariant lastIndex <= |s| + 1
      invariant found + Matches(s, lastIndex, bang) == Matches(s, 0, bang)
      decreases |s| + 1 - lastIndex
    {
      var m := Markdown.FirstMatchFrom(s, lastIndex, bang);
      if m.None? {
        ExecDone(s, lastIndex, bang, found);
        break;
      }
      ExecStep(s, lastIndex, bang, m.value, found);
      found := found + [m.value];
      lastIndex := m.value.end;
    }
  }

  /** One `exec` call that finds a match: the match moves from the rest of the scan to what was found. */
  lemma ExecStep(s: string, from: nat, bang: bool, m: Markdown.LinkMatch, found: seq<Markdown.LinkMatch>)
    requires Markdown.FirstMatchFrom(s, from, bang) == Some(m)
    requires found + Matches(s, from, bang) == Matches(s, 0, bang)
    ensures (found + [m]) + Matches(s, m.end, bang) == Matches(s, 0, bang)
    ensures from < m.end <= |s|
  {
    MatchesStep(s, from, bang, m);
    assert found + ([m] + Matches(s, m.end, bang)) == (found + [m]) + Matches(s, m.end, bang);
  }

  /** The `exec` call that finds nothing ends the scan with every match found. */
  lemma ExecDone(s: string, from: nat, bang: bool, found: seq<Markdown.LinkMatch>)
    requires Markdown.FirstMatchFrom(s, from, bang).None?
    requires found + Matches(s, from, bang) == Matches(s, 0, bang)
    ensures found == Matches(s, 0, bang)
  {
    MatchesDone(s, from, bang);
    assert found + [] == found;
  }

  /** The images of a reply, in order. */
  method ScanImages(msg: Message) returns (items: seq<GalleryItem>)
    ensures items == ImageItems(msg, Matches(msg.text, 0, true))
  {
    var found := ExecAll(msg.text, true);
    items := CollectImages(msg, found);
  }

  /** The image items of the given matches, one per match. */
  method CollectImages(msg: Message, found: seq<Markdown.LinkMatch>) returns (items: seq<GalleryItem>)
    ensures items == ImageItems(msg, found)
  {
    items := [];
    var k := 0;
    while k < |found|
      invariant 0 <= k <= |found|
      invariant items == ImageItems(msg, found[..k])
    {
      assert ImageItems(msg, found[..k + 1]) == ImageItems(msg, found[..k]) + [ImageItem(msg, found[k])];
      items := items + [ImageItem(msg, found[k])];
      k := k + 1;
    }
    assert found[..k] == found;
  }

  /** The image links of a reply, in order. */
  method ScanImageLinks(msg: Message) returns (items: seq<GalleryItem>)
    ensures items == LinkItems(msg, Matches(msg.text, 0, false))
  {
    var found := ExecAll(msg.text, false);
    items := CollectImageLinks(msg, found);
  }

  /** The link items of the given matches: one for each match whose URL has an image extension. */
  method CollectImageLinks(msg: Message, found: seq<Markdown.LinkMatch>) returns (items: seq<GalleryItem>)
    ensures items == LinkItems(msg, found)
  {
    items := [];
    var k := 0;
    while k < |found|
      invariant 0 <= k <= |found|
      invariant items == LinkItems(msg, found[..k])
    {
      assert found[..k + 1] == found[..k] + [found[k]];
      LinkItemsAppend(msg, found[..k], found[k]);
      if Markdown.HasImageExtension(found[k].url) {
        items := items + [LinkItem(msg, found[k])];
      }
      k := k + 1;
    }
    assert found[..k] == found;
  }

  lemma {:induction false} LinkItemsAppend(msg: Message, ms: seq<Markdown.LinkMatch>, m: Markdown.LinkMatch)
    ensures LinkItems(msg, ms + [m]) == LinkItems(msg, ms) + (if Markdown.HasImageExtension(m.url) then [LinkItem(msg, m)] else [])
    decreases |ms|
  {
    if ms != [] {
      LinkItemsAppend(msg, ms[1..], m);
      assert (ms + [m])[1..] == ms[1..] + [m];
    } else {
      assert LinkItems(msg, []) == [];
      assert [m][1..] == [];
    }
  }

  /** Opening an image: the lightbox moves to the first gallery item with that source; an unknown source changes nothing. */
  function HandleImageClick(items: seq<GalleryItem>, src: string, lightbox: int): (r: int)
    ensures (exists k :: 0 <= k < |items| && items[k].src == src) ==>
      0 <= r < |items| && items[r].src == src && forall j :: 0 <= j < r ==> items[j].src != src
    ensures (forall k :: 0 <= k < |items| ==> items[k].src != src) ==> r == lightbox
  {
    match FindIndex(items, (it: GalleryItem) => it.src == src)
    case Some(k) => k
    case None => lightbox
  }

  /** The `for await` loop of a send: each streamed update is applied as it arrives. */
  method StreamReply(sessions: seq<ChatSession>, activeId: string, botId: string, updates: seq<Gemini.Update>)
      returns (r: seq<ChatSession>)
    ensures r == ApplyUpdates(sessions, activeId, botId, updates)
  {
    r := sessions;
    var k := 0;
    while k < |updates|
      invariant 0 <= k <= |updates|
      invariant ApplyUpdates(sessions, activeId, botId, updates) == ApplyUpdates(r, activeId, botId, updates[k..])
    {
      assert updates[k..][1..] == updates[k + 1..];
      r := ApplyUpdate(r, activeId, botId, updates[k]);
      k := k + 1;
    }
  }

  /**
   * One exchange in the active chat: append the user message and the placeholder, call the model
   * with the earlier history, apply the streamed updates, and note the connection error when the
   * call threw.
   */
  method ExchangeTurn(sessions: seq<ChatSession>, activeId: string, user: Message, bot: Message, now: int,
                      history: seq<Message>, toSend: string, atts: seq<Attachment>, hasKey: bool,
                      chunks: seq<Gemini.Chunk>, broken: bool)
      returns (after: seq<ChatSession>, outcome: Gemini.SendOutcome)
    ensures !hasKey ==> outcome == Gemini.MissingKey(Gemini.MissingKeyError)
    ensures hasKey && !broken ==> outcome == Gemini.Streamed(Gemini.RequestContents(history, toSend, atts),
                                                            Gemini.FullText(chunks), Gemini.Updates(chunks))
    ensures hasKey && broken ==> outcome == Gemini.Failed(Gemini.RequestContents(history, toSend, atts),
                                                         Gemini.FullText(chunks), Gemini.Updates(chunks))
    ensures after == Settle(AppendTurn(sessions, activeId, user, bot, now), activeId, bot.id, outcome, now)
  {
    after := AppendTurn(sessions, activeId, user, bot, now);
    outcome := Gemini.SendMessage(hasKey, history, toSend, atts, chunks, broken);
    if !outcome.MissingKey? {
      after := StreamReply(after, activeId, bot.id, outcome.updates);
    }
    if !outcome.Streamed? {
      after := MarkConnectionError(after, activeId, bot.id, now);
    }
  }

  // ------------------------------------------------------------------
  // The application state and the send handler

  /** The shell state the handlers update. */
  class AppState {
    var sessions: seq<ChatSession>
    var currentChatId: Option<string>
    var profile: UserProfile
    var viewMode: ViewMode
    var isLoading: bool
    var showLevelUp: bool
    var lightboxIndex: int

    constructor(sessions: seq<ChatSession>, profile: UserProfile)
      ensures this.sessions == sessions && this.profile == profile
      ensures currentChatId == None && viewMode == Chat && !isLoading && !showLevelUp && lightboxIndex == -1
    {
      this.sessions := sessions;
      this.profile := profile;
      currentChatId := None;
      viewMode := Chat;
      isLoading := false;
      showLevelUp := false;
      lightboxIndex := -1;
    }

    /**
     * A send, step by step: open a chat if none is current, switch to the chat view, apply the
     * gamification, append the turn, apply each streamed update, and note the connection error when
     * the call threw (a missing key, or a broken stream); loading ends either way. Ids, the clock,
     * the stream and whether it breaks are inputs.
     */
    method HandleSendMessage(text: string, atts: seq<Attachment>, isSystemInit: bool,
                             hour: int, now: int, newChatId: string, userId: string, botId: string,
                             context: string, hasKey: bool, chunks: seq<Gemini.Chunk>, broken: bool)
        returns (outcome: Gemini.SendOutcome)
      modifies this
      ensures var active := EnsureActiveChat(old(sessions), old(currentChatId), newChatId, now);
        var withChat := active.0;
        var activeId := active.1;
        && currentChatId == Some(activeId)
        && var request := Gemini.RequestContents(HistoryFor(old(sessions), activeId),
                                                 TextToSend(text, isSystemInit, old(viewMode), context), atts);
        && outcome == (if !hasKey then Gemini.MissingKey(Gemini.MissingKeyError)
           else if broken then Gemini.Failed(request, Gemini.FullText(chunks), Gemini.Updates(chunks))
           else Gemini.Streamed(request, Gemini.FullText(chunks), Gemini.Updates(chunks)))
        && sessions == Settle(AppendTurn(withChat, activeId, UserMessage(userId, text, atts, isSystemInit, now),
                                         BotPlaceholder(botId, now), now), activeId, botId, outcome, now)
      ensures var gained := Gamify(old(profile), text, |atts|, hour, isSystemInit, now);
        profile == gained.0 && showLevelUp == (old(showLevelUp) || gained.1)
      ensures viewMode == Chat && !isLoading && lightboxIndex == old(lightboxIndex)
    {
      var before := sessions;
      var active := EnsureActiveChat(sessions, currentChatId, newChatId, now);
      var withChat, activeId := active.0, active.1;
      sessions := withChat;
      currentChatId := Some(activeId);
      var view := viewMode;
      viewMode := Chat;

      AwardSend(text, |atts|, hour, isSystemInit, now);

      outcome := SendTurn(activeId, UserMessage(userId, text, atts, isSystemInit, now), BotPlaceholder(botId, now), now,
                          HistoryFor(before, activeId), TextToSend(text, isSystemInit, view, context), atts, hasKey, chunks, broken);
    }

    /** The call itself: loading is on while the turn is exchanged, and off once it is over. */
    method SendTurn(activeId: string, user: Message, bot: Message, now: int, history: seq<Message>, toSend: string,
                    atts: seq<Attachment>, hasKey: bool, chunks: seq<Gemini.Chunk>, broken: bool)
        returns (outcome: Gemini.SendOutcome)
      modifies this
      ensures !hasKey ==> outcome == Gemini.MissingKey(Gemini.MissingKeyError)
      ensures hasKey && !broken ==> outcome == Gemini.Streamed(Gemini.RequestContents(history, toSend, atts),
                                                              Gemini.FullText(chunks), Gemini.Updates(chunks))
      ensures hasKey && broken ==> outcome == Gemini.Failed(Gemini.RequestContents(history, toSend, atts),
                                                           Gemini.FullText(chunks), Gemini.Updates(chunks))
      ensures sessions == Settle(AppendTurn(old(sessions), activeId, user, bot, now), activeId, bot.id, outcome, now)
      ensures !isLoading
      ensures currentChatId == old(currentChatId) && profile == old(profile) && viewMode == old(viewMode)
      ensures showLevelUp == old(showLevelUp) && lightboxIndex == old(lightboxIndex)
    {
      isLoading := true;
      sessions, outcome := ExchangeTurn(sessions, activeId, user, bot, now, history, toSend, atts, hasKey, chunks, broken);
      isLoading := false;
    }

    /** The gamification of a send; a level-up opens the dialog. */
    method AwardSend(text: string, attachmentCount: nat, hour: int, isSystemInit: bool, now: int)
      modifies this
      ensures profile == Gamify(old(profile), text, attachmentCount, hour, isSystemInit, now).0
      ensures showLevelUp == (old(showLevelUp) || Gamify(old(profile), text, attachmentCount, hour, isSystemInit, now).1)
      ensures sessions == old(sessions) && currentChatId == old(currentChatId) && viewMode == old(viewMode)
      ensures isLoading == old(isLoading) && lightboxIndex == old(lightboxIndex)
    {
      var gained := Gamify(profile, text, attachmentCount, hour, isSystemInit, now);
      profile := gained.0;
      if gained.1 {
        showLevelUp := true;
      }
    }

    /** Deleting from the sidebar. */
    method HandleDeleteChat(id: string)
      modifies this
      ensures (sessions, currentChatId) == (DeleteChat(old(sessions), old(currentChatId), id).0,
                                            DeleteChat(old(sessions), old(currentChatId), id).1)
      ensures isLoading == (if old(currentChatId) == Some(id) then false else old(isLoading))
      ensures profile == old(profile) && viewMode == old(viewMode) && lightboxIndex == old(lightboxIndex)
      ensures showLevelUp == old(showLevelUp)
    {
      var r := DeleteChat(sessions, currentChatId, id);
      sessions := r.0;
      if r.2 {
        currentChatId := r.1;
        isLoading := false;
      }
    }

    /** Clicking an image anywhere opens the lightbox on it. */
    method OnImageClick(src: string)
      modifies this
      ensures lightboxIndex == HandleImageClick(GalleryItems(if currentChatId.Some? then FindSession(sessions, currentChatId.value) else None), src, old(lightboxIndex))
      ensures sessions == old(sessions) && currentChatId == old(currentChatId) && profile == old(profile)
      ensures viewMode == old(viewMode) && isLoading == old(isLoading) && showLevelUp == old(showLevelUp)
    {
      var current := if currentChatId.Some? then FindSession(sessions, currentChatId.value) else None;
      var items := AllGalleryItems(current);
      lightboxIndex := HandleImageClick(items, src, lightboxIndex);
    }
  }
}
