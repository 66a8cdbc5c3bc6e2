/**
 * The sidebar: the navigation buttons, and the list of recent chat sessions, which is sorted in
 * place by recency each time it is drawn.
 */
module Sidebar {
  import opened Wrappers
  import opened Types

  // ------------------------------------------------------------------
  // Sorting the sessions

  /** `s` is ordered newest first: `updatedAt` never increases along it. */
  predicate NewestFirst(s: seq<ChatSession>) {
    forall p, q :: 0 <= p < q < |s| ==> s[p].updatedAt >= s[q].updatedAt
  }

  /** The first `n` sessions are ordered newest first. */
  predicate NewestFirstUpTo(s: seq<ChatSession>, n: int) {
    forall p, q :: 0 <= p < q < n && q < |s| ==> s[p].updatedAt >= s[q].updatedAt
  }

  /**
   * `sessions.sort((a, b) => b.updatedAt - a.updatedAt)`: the caller's array itself is reordered
   * newest first, and holds the same sessions as before.
   */
  method SortByRecency(a: array<ChatSession>)
    modifies a
    ensures NewestFirst(a[..])
    ensures multiset(a[..]) == multiset(old(a[..]))
  {
    var i := 0;
    while i < a.Length
      invariant 0 <= i <= a.Length
      invariant NewestFirstUpTo(a[..], i)
      invariant multiset(a[..]) == multiset(old(a[..]))
    {
      InsertAt(a, i);
      i := i + 1;
    }
  }

  /** One insertion step: the session at `i` moves left past every older one before it. */
  method InsertAt(a: array<ChatSession>, i: int)
    requires 0 <= i < a.Length
    requires NewestFirstUpTo(a[..], i)
    modifies a
    ensures NewestFirstUpTo(a[..], i + 1)
    ensures multiset(a[..]) == multiset(old(a[..]))
  {
    var j := i;
    while j > 0 && a[j - 1].updatedAt < a[j].updatedAt
      invariant 0 <= j <= i
      invariant Inserting(a[..], j, i)
      invariant multiset(a[..]) == multiset(old(a[..]))
    {
      SwapKeepsInserting(a[..], j, i);
      SwapKeepsMultiset(a[..], j);
      a[j - 1], a[j] := a[j], a[j - 1];
      j := j - 1;
    }
    InsertingDone(a[..], j, i);
  }

  /**
   * While the session that started at `i` sits at `j`: the other sessions of the prefix are
   * newest first, and it is newer than every session it has passed.
   */
  predicate Inserting(s: seq<ChatSession>, j: int, i: int)
    requires 0 <= j <= i < |s|
  {
    && (forall p, q :: 0 <= p < q <= i && p != j && q != j ==> s[p].updatedAt >= s[q].updatedAt)
    && (forall q :: j < q <= i ==> s[j].updatedAt > s[q].updatedAt)
  }

  function Swap(s: seq<ChatSession>, j: int): (r: seq<ChatSession>)
    requires 0 < j < |s|
    ensures |r| == |s| && r[j - 1] == s[j] && r[j] == s[j - 1]
    ensures forall k :: 0 <= k < |s| && k != j - 1 && k != j ==> r[k] == s[k]
  {
    s[j - 1 := s[j]][j := s[j - 1]]
  }

  lemma SwapKeepsInserting(s: seq<ChatSession>, j: int, i: int)
    requires 0 < j <= i < |s| && Inserting(s, j, i) && s[j - 1].updatedAt < s[j].updatedAt
    ensures Inserting(Swap(s, j), j - 1, i)
  {
    var t := Swap(s, j);
    forall q | j - 1 < q <= i
      ensures t[j - 1].updatedAt > t[q].updatedAt
    {
      if q > j {
        assert t[q] == s[q];
        assert s[j - 1].updatedAt >= s[q].updatedAt;
      }
    }
  }

  lemma SwapKeepsMultiset(s: seq<ChatSession>, j: int)
    requires 0 < j < |s|
    ensures multiset(Swap(s, j)) == multiset(s)
    ensures s[j - 1 := s[j]][j := s[j - 1]] == Swap(s, j)
  {
  }

  lemma InsertingDone(s: seq<ChatSession>, j: int, i: int)
    requires 0 <= j <= i < |s| && Inserting(s, j, i)
    requires j == 0 || s[j - 1].updatedAt >= s[j].updatedAt
    ensures NewestFirstUpTo(s, i + 1)
  {
    forall p, q | 0 <= p < q < i + 1
      ensures s[p].updatedAt >= s[q].updatedAt
    {
      if q == j && p < j - 1 {
        assert s[p].updatedAt >= s[j - 1].updatedAt;
      }
    }
  }

  // ------------------------------------------------------------------
  // The session list

  /** A session is highlighted exactly when it is the current chat. */
  predicate Highlighted(s: ChatSession, currentChatId: Option<string>) {
    currentChatId == Some(s.id)
  }

  datatype Row = Row(id: string, title: string, highlighted: bool)

  /** The list area: the empty-state message, or one row per session. */
  datatype SessionList = NoFieldLogs | Rows(rows: seq<Row>)

  const EmptyListMessage: string := "No field logs found."

  function RowsOf(s: seq<ChatSession>, currentChatId: Option<string>): (r: seq<Row>)
    ensures |r| == |s|
    ensures forall k :: 0 <= k < |s| ==>
      r[k].id == s[k].id && r[k].title == s[k].title && (r[k].highlighted <==> currentChatId == Some(s[k].id))
  {
    seq(|s|, k requires 0 <= k < |s| => Row(s[k].id, s[k].title, Highlighted(s[k], currentChatId)))
  }

  /** Drawing the list: an empty array shows the empty-state message; otherwise the array is sorted and drawn in its new order. */
  method RenderList(a: array<ChatSession>, currentChatId: Option<string>) returns (r: SessionList)
    modifies a
    ensures a.Length == 0 <==> r == NoFieldLogs
    ensures a.Length > 0 ==>
      && NewestFirst(a[..]) && multiset(a[..]) == multiset(old(a[..]))
      && r == Rows(RowsOf(a[..], currentChatId))
  {
    if a.Length == 0 {
      return NoFieldLogs;
    }
    SortByRecency(a);
    r := Rows(RowsOf(a[..], currentChatId));
  }

  /** With distinct ids, at most one row is highlighted, and exactly one when the current chat is listed. */
  lemma OneHighlight(s: seq<ChatSession>, currentChatId: Option<string>)
    requires forall p, q :: 0 <= p < q < |s| ==> s[p].id != s[q].id
    ensures forall p, q :: 0 <= p < q < |s| ==> !(RowsOf(s, currentChatId)[p].highlighted && RowsOf(s, currentChatId)[q].highlighted)
    ensures (exists k :: 0 <= k < |s| && Some(s[k].id) == currentChatId) ==>
      exists k :: 0 <= k < |s| && RowsOf(s, currentChatId)[k].highlighted
    ensures currentChatId.None? ==> forall k :: 0 <= k < |s| ==> !RowsOf(s, currentChatId)[k].highlighted
  {
    if exists k :: 0 <= k < |s| && Some(s[k].id) == currentChatId {
      var k :| 0 <= k < |s| && Some(s[k].id) == currentChatId;
      assert RowsOf(s, currentChatId)[k].highlighted;
    }
  }

  // ------------------------------------------------------------------
  // Navigation

  /** The three navigation buttons and the view each opens. */
  datatype NavButton = CurrentInvestigation | ProjectLibrary | FieldJournalButton

  function Target(b: NavButton): (v: ViewMode)
    ensures v != Community
  {
    match b
    case CurrentInvestigation => Chat
    case ProjectLibrary => Gallery
    case FieldJournalButton => Journal
  }

  const NarrowWidth: int := 768

  /** A tap in the sidebar closes it on a narrow window (below 768 pixels) and leaves it as it was otherwise. */
  function OpenAfterTap(isOpen: bool, width: int): (r: bool)
    ensures width < NarrowWidth ==> !r
    ensures width >= NarrowWidth ==> r == isOpen
  {
    if width < NarrowWidth then false else isOpen
  }

  /** A navigation button: the view it names becomes current, and the sidebar closes only on a narrow window. */
  function Navigate(b: NavButton, isOpen: bool, width: int): (r: (ViewMode, bool))
    ensures r.0 == Target(b)
    ensures !r.1 <==> width < NarrowWidth || !isOpen
  {
    (Target(b), OpenAfterTap(isOpen, width))
  }

  /** A tap on a session row selects that chat, and closes the sidebar only on a narrow window. */
  function SelectRow(row: Row, isOpen: bool, width: int): (r: (string, bool))
    ensures r.0 == row.id
    ensures !r.1 <==> width < NarrowWidth || !isOpen
  {
    (row.id, OpenAfterTap(isOpen, width))
  }

  /** The three buttons lead to three different views. */
  lemma TargetsDistinct(b1: NavButton, b2: NavButton)
    requires b1 != b2
    ensures Target(b1) != Target(b2)
  {
  }
}
