/**
 * The chat's Markdown renderer, reduced to what it decides: the cursor-driven block parser that
 * classifies the lines of a message (fenced code, rule, table, heading, list item, spacer,
 * paragraph), the table splitter, the inline-token classifier with its `[text](url)` matcher, and
 * the image preview's refusal of wiki HTML pages.
 */
module Markdown {
  import opened Wrappers
  import opened Seqs
  import opened Strings

  // ------------------------------------------------------------------
  // Blocks

  datatype Block =
    | CodeBlock(code: string)
    | Rule
    | Table(rows: seq<string>)
    | Heading(level: nat, text: string)
    | Bullet(text: string)
    | Spacer
    | Paragraph(line: string)

  /** A block and the half-open range of line indices it was built from. */
  datatype Span = Span(block: Block, start: nat, end: nat)

  /** An opening or closing code fence: the trimmed line starts with three backticks. */
  predicate IsFence(line: string) { StartsWith(Trim(line), "```") }

  predicate IsRuleLine(line: string) {
    var t := Trim(line);
    t == "---" || t == "***" || t == "___"
  }

  predicate IsTableRow(line: string) { StartsWith(Trim(line), "|") }

  /** A table starts at a row line whose successor exists and contains `---`. */
  predicate StartsTable(lines: seq<string>, i: nat)
    requires i < |lines|
  {
    IsTableRow(lines[i]) && i + 1 < |lines| && Contains(lines[i + 1], "---")
  }

  /** Number of leading `#` characters of a line. */
  function LeadingHashes(s: string): (n: nat)
    ensures n <= |s|
    ensures forall j :: 0 <= j < n ==> s[j] == '#'
    ensures n < |s| ==> s[n] != '#'
    decreases |s|
  {
    if s != [] && s[0] == '#' then 1 + LeadingHashes(s[1..]) else 0
  }

  /** Number of leading ASCII digits (`\d+`). */
  function LeadingDigits(s: string): (n: nat)
    ensures n <= |s|
    ensures forall j :: 0 <= j < n ==> IsAsciiDigit(s[j])
    ensures n < |s| ==> !IsAsciiDigit(s[n])
    decreases |s|
  {
    if s != [] && IsAsciiDigit(s[0]) then 1 + LeadingDigits(s[1..]) else 0
  }

  /** Length of the prefix before the first line terminator (what `.*` can match). */
  function LineLength(s: string): (n: nat)
    ensures n <= |s|
    ensures forall j :: 0 <= j < n ==> !IsLineTerminator(s[j])
    ensures n < |s| ==> IsLineTerminator(s[n])
    decreases |s|
  {
    if s != [] && !IsLineTerminator(s[0]) then 1 + LineLength(s[1..]) else 0
  }

  /** The length of a numbered-list marker `^\d+\.\s`, if the line starts with one. */
  function NumberedMarker(t: string): (r: Option<nat>)
    ensures r.Some? ==> 3 <= r.value <= |t| && t[r.value - 2] == '.' && IsWhitespace(t[r.value - 1])
    ensures r.Some? ==> forall j :: 0 <= j < r.value - 2 ==> IsAsciiDigit(t[j])
  {
    var d := LeadingDigits(t);
    if d >= 1 && d + 1 < |t| && t[d] == '.' && IsWhitespace(t[d + 1]) then Some(d + 2) else None
  }

  /** A list item: the trimmed line starts with `- `, `* ` or a numbered marker. */
  predicate IsBulletLine(t: string) {
    StartsWith(t, "- ") || StartsWith(t, "* ") || NumberedMarker(t).Some?
  }

  /** The trimmed line with its marker removed (the first of `^[-*]\s` and `^\d+\.\s` that matches). */
  function BulletText(t: string): string {
    if |t| >= 2 && (t[0] == '-' || t[0] == '*') && IsWhitespace(t[1]) then t[2..]
    else match NumberedMarker(t)
      case Some(n) => t[n..]
      case None => t
  }

  /** Heading text: after the `#` run and any whitespace, up to the first line terminator. */
  function HeadingText(line: string): string {
    var h := LeadingHashes(line);
    var rest := line[h..];
    var body := rest[LeadingWhitespace(rest)..];
    body[..LineLength(body)]
  }

  /** Index of the first fence at or after `j`, or the number of lines when there is none. */
  function FenceEnd(lines: seq<string>, j: nat): (e: nat)
    requires j <= |lines|
    ensures j <= e <= |lines|
    ensures forall k :: j <= k < e ==> !IsFence(lines[k])
    ensures e < |lines| ==> IsFence(lines[e])
    decreases |lines| - j
  {
    if j == |lines| || IsFence(lines[j]) then j else FenceEnd(lines, j + 1)
  }

  /** Index of the first line at or after `j` that is not a table row, or the number of lines. */
  function TableEnd(lines: seq<string>, j: nat): (e: nat)
    requires j <= |lines|
    ensures j <= e <= |lines|
    ensures forall k :: j <= k < e ==> IsTableRow(lines[k])
    ensures e < |lines| ==> !IsTableRow(lines[e])
    decreases |lines| - j
  {
    if j == |lines| || !IsTableRow(lines[j]) then j else TableEnd(lines, j + 1)
  }

  /**
   * One turn of the block loop at cursor `i`: the block produced and the next cursor. The tests
   * run in the renderer's order; a code fence without a closing line moves the cursor past the end.
   */
  function Step(lines: seq<string>, i: nat): (r: (Block, nat))
    requires i < |lines|
    ensures i < r.1 <= |lines| + 1
    ensures r.1 == |lines| + 1 ==> r.0.CodeBlock?
  {
    var line := lines[i];
    var trimmed := Trim(line);
    if StartsWith(trimmed, "```") then
      var e := FenceEnd(lines, i + 1);
      (CodeBlock(Join(lines[i + 1..e], '\n')), e + 1)
    else if IsRuleLine(line) then (Rule, i + 1)
    else if StartsTable(lines, i) then
      var e := TableEnd(lines, i);
      (Table(lines[i..e]), e)
    else if StartsWith(line, "#") then (Heading(LeadingHashes(line), HeadingText(line)), i + 1)
    else if IsBulletLine(trimmed) then (Bullet(BulletText(trimmed)), i + 1)
    else if trimmed == "" then (Spacer, i + 1)
    else (Paragraph(line), i + 1)
  }

  function Min(a: nat, b: nat): nat { if a <= b then a else b }

  /** The blocks from cursor `i` on, each with its line range; the ranges tile `[i, |lines|)` in order. */
  function ParseFrom(lines: seq<string>, i: nat): (r: seq<Span>)
    ensures i >= |lines| <==> r == []
    ensures r != [] ==> r[0].start == i && r[|r| - 1].end == |lines|
    ensures forall m :: 0 <= m < |r| ==> r[m].start < r[m].end <= |lines|
    ensures forall m :: 0 <= m < |r| - 1 ==> r[m].end == r[m + 1].start
    decreases |lines| - i
  {
    if i >= |lines| then []
    else
      var (b, next) := Step(lines, i);
      [Span(b, i, Min(next, |lines|))] + ParseFrom(lines, next)
  }

  function Blocks(spans: seq<Span>): (r: seq<Block>)
    ensures |r| == |spans| && forall m :: 0 <= m < |r| ==> r[m] == spans[m].block
  {
    seq(|spans|, m requires 0 <= m < |spans| => spans[m].block)
  }

  /** What a message renders to: nothing for empty content, else the blocks of its `\n`-separated lines. */
  function Render(content: string): seq<Block> {
    if content == "" then [] else Blocks(ParseFrom(Split(content, '\n'), 0))
  }

  // ------------------------------------------------------------------
  // The block loop

  /** The renderer's loop: a cursor over the lines, with inner loops for code and table bodies. */
  method RenderBlocks(content: string) returns (elements: seq<Block>)
    ensures elements == Render(content)
  {
    if content == "" {
      return [];
    }
    var lines := Split(content, '\n');
    elements := RenderLines(lines);
  }

  /** The block loop over the lines of a message. */
  method RenderLines(lines: seq<string>) returns (elements: seq<Block>)
    ensures elements == Blocks(ParseFrom(lines, 0))
  {
    elements := [];
    var i := 0;
    while i < |lines|
      invariant 0 <= i <= |lines| + 1
      invariant Blocks(ParseFrom(lines, 0)) == elements + Blocks(ParseFrom(lines, i))
      decreases |lines| + 1 - i
    {
      var block, next := NextBlock(lines, i);
      RenderStep(lines, i, elements, Blocks(ParseFrom(lines, 0)));
      elements := elements + [block];
      i := next;
    }
    ParseFromPastEnd(lines, i);
  }

  /** One turn of the block loop moves one block from what is left to what is rendered. */
  lemma RenderStep(lines: seq<string>, i: nat, elements: seq<Block>, total: seq<Block>)
    requires i < |lines|
    requires total == elements + Blocks(ParseFrom(lines, i))
    ensures total == (elements + [Step(lines, i).0]) + Blocks(ParseFrom(lines, Step(lines, i).1))
  {
    ParseFromUnfold(lines, i);
    ConcatShift(elements, Step(lines, i).0, Blocks(ParseFrom(lines, Step(lines, i).1)));
  }

  lemma ConcatShift<T>(front: seq<T>, x: T, back: seq<T>)
    ensures front + ([x] + back) == (front + [x]) + back
  {
  }

  /** One pass of the loop body: the tests in order, with the inner loops for code and table bodies. */
  method NextBlock(lines: seq<string>, i: nat) returns (block: Block, next: nat)
    requires i < |lines|
    ensures (block, next) == Step(lines, i)
  {
    var line := lines[i];
    var trimmed := Trim(line);
    if StartsWith(trimmed, "```") {
      var codeLines;
      codeLines, next := CollectCode(lines, i + 1);
      next := next + 1;
      block := CodeBlock(Join(codeLines, '\n'));
    } else if trimmed == "---" || trimmed == "***" || trimmed == "___" {
      block, next := Rule, i + 1;
    } else if StartsWith(trimmed, "|") && i + 1 < |lines| && Contains(lines[i + 1], "---") {
      var tableRows;
      tableRows, next := CollectTable(lines, i);
      block := Table(tableRows);
    } else if StartsWith(line, "#") {
      block, next := Heading(LeadingHashes(line), HeadingText(line)), i + 1;
    } else if IsBulletLine(trimmed) {
      block, next := Bullet(BulletText(trimmed)), i + 1;
    } else if trimmed == "" {
      block, next := Spacer, i + 1;
    } else {
      block, next := Paragraph(line), i + 1;
    }
  }

  /** The code body loop: lines up to (not including) the next fence, and the fence's index. */
  method CollectCode(lines: seq<string>, from: nat) returns (codeLines: seq<string>, i: nat)
    requires from <= |lines|
    ensures i == FenceEnd(lines, from) && codeLines == lines[from..i]
  {
    codeLines := [];
    i := from;
    while i < |lines| && !IsFence(lines[i])
      invariant from <= i <= |lines|
      invariant codeLines == lines[from..i]
      invariant FenceEnd(lines, from) == FenceEnd(lines, i)
    {
      codeLines := codeLines + [lines[i]];
      i := i + 1;
    }
  }

  /** The table loop: the run of row lines starting at `from`, and the index after it. */
  method CollectTable(lines: seq<string>, from: nat) returns (tableRows: seq<string>, i: nat)
    requires from <= |lines|
    ensures i == TableEnd(lines, from) && tableRows == lines[from..i]
  {
    tableRows := [];
    i := from;
    while i < |lines| && IsTableRow(lines[i])
      invariant from <= i <= |lines|
      invariant tableRows == lines[from..i]
      invariant TableEnd(lines, from) == TableEnd(lines, i)
    {
      tableRows := tableRows + [lines[i]];
      i := i + 1;
    }
  }

  lemma ParseFromUnfold(lines: seq<string>, i: nat)
    requires i < |lines|
    ensures Blocks(ParseFrom(lines, i)) == [Step(lines, i).0] + Blocks(ParseFrom(lines, Step(lines, i).1))
  {
    var step := Step(lines, i);
    var span := Span(step.0, i, Min(step.1, |lines|));
    var rest := ParseFrom(lines, step.1);
    assert ParseFrom(lines, i) == [span] + rest;
    BlocksCons(span, rest);
  }

  lemma BlocksCons(span: Span, rest: seq<Span>)
    ensures Blocks([span] + rest) == [span.block] + Blocks(rest)
  {
    assert forall m :: 1 <= m < |rest| + 1 ==> ([span] + rest)[m] == rest[m - 1];
  }

  lemma ParseFromPastEnd(lines: seq<string>, i: nat)
    requires i >= |lines|
    ensures Blocks(ParseFrom(lines, i)) == []
  {
  }

  // ------------------------------------------------------------------
  // Properties of the block parser

  /** Empty content renders nothing; any other content renders at least one block. */
  lemma RenderEmptyIff(content: string)
    ensures Render(content) == [] <==> content == ""
  {
    if content != "" {
      assert |Split(content, '\n')| >= 1;
    }
  }

  /** Spans earlier in the output cover earlier lines: ranges never overlap and keep input order. */
  lemma {:induction false} SpansOrdered(lines: seq<string>, i: nat, m1: nat, m2: nat)
    requires m1 < m2 < |ParseFrom(lines, i)|
    ensures ParseFrom(lines, i)[m1].end <= ParseFrom(lines, i)[m2].start
    decreases m2 - m1
  {
    var r := ParseFrom(lines, i);
    if m1 + 1 < m2 {
      SpansOrdered(lines, i, m1 + 1, m2);
    }
  }

  predicate InSpan(s: Span, j: nat) { s.start <= j < s.end }

  /** Every line from the cursor on belongs to some block. */
  lemma {:induction false} EachLineInSomeBlock(lines: seq<string>, i: nat, j: nat)
    requires i <= j < |lines|
    ensures exists m :: 0 <= m < |ParseFrom(lines, i)| && InSpan(ParseFrom(lines, i)[m], j)
    decreases |lines| - i
  {
    var r := ParseFrom(lines, i);
    var next := Step(lines, i).1;
    if j >= r[0].end {
      EachLineInSomeBlock(lines, next, j);
      var rest := ParseFrom(lines, next);
      assert r[1..] == rest;
      var m :| 0 <= m < |rest| && InSpan(rest[m], j);
      assert r[m + 1] == rest[m];
    } else {
      assert InSpan(r[0], j);
    }
  }

  /** No line belongs to two blocks. */
  lemma EachLineInAtMostOneBlock(lines: seq<string>, i: nat, j: nat, m1: nat, m2: nat)
    requires m1 < |ParseFrom(lines, i)| && m2 < |ParseFrom(lines, i)|
    requires InSpan(ParseFrom(lines, i)[m1], j) && InSpan(ParseFrom(lines, i)[m2], j)
    ensures m1 == m2
  {
    if m1 < m2 {
      SpansOrdered(lines, i, m1, m2);
    } else if m2 < m1 {
      SpansOrdered(lines, i, m2, m1);
    }
  }

  /**
   * A fenced block keeps, verbatim and joined with `\n`, the lines strictly between its opening
   * fence and the next fence; without a closing fence it runs to the end of the input.
   */
  lemma CodeBlockContents(lines: seq<string>, i: nat)
    requires i < |lines| && IsFence(lines[i])
    ensures var e := FenceEnd(lines, i + 1);
      && Step(lines, i) == (CodeBlock(Join(lines[i + 1..e], '\n')), e + 1)
      && (forall k :: i < k < e ==> !IsFence(lines[k]))
      && (e < |lines| ==> IsFence(lines[e]))
      && (e == |lines| ==> ParseFrom(lines, i) == [Span(Step(lines, i).0, i, |lines|)])
  {
  }

  /** `***` (like `---` and `___`) is a rule, never a list item, unless it opens a fence (it cannot). */
  lemma StarRuleIsNotBullet(lines: seq<string>, i: nat)
    requires i < |lines| && Trim(lines[i]) == "***"
    ensures Step(lines, i).0 == Rule
  {
  }

  /** A table starts only at a row line followed by a line containing `---`, and takes the maximal run of rows. */
  lemma TableBlock(lines: seq<string>, i: nat)
    requires i < |lines|
    ensures Step(lines, i).0.Table? <==> !IsFence(lines[i]) && !IsRuleLine(lines[i]) && StartsTable(lines, i)
    ensures Step(lines, i).0.Table? ==>
      var e := Step(lines, i).1;
      && Step(lines, i).0.rows == lines[i..e] && i < e
      && (forall k :: i <= k < e ==> IsTableRow(lines[k]))
      && (e == |lines| || !IsTableRow(lines[e]))
  {
  }

  /** A raw line starting with `#` (and nothing earlier in the chain) is a heading whose level counts its `#` run. */
  lemma HeadingBlock(lines: seq<string>, i: nat)
    requires i < |lines| && StartsWith(lines[i], "#")
    requires !IsFence(lines[i]) && !IsRuleLine(lines[i]) && !StartsTable(lines, i)
    ensures Step(lines, i).0.Heading?
    ensures var h := Step(lines, i).0;
      && h.level >= 1 && lines[i][..h.level] == Repeat('#', h.level)
      && (h.level == |lines[i]| || lines[i][h.level] != '#')
      && (h.text == [] || !IsWhitespace(h.text[0]))
      && (forall k :: 0 <= k < |h.text| ==> !IsLineTerminator(h.text[k]))
  {
    var line := lines[i];
    var h := LeadingHashes(line);
    assert line[0] == '#';
    assert line[..h] == Repeat('#', h);
  }

  /** A line whose trim is empty is a spacer, and only such a line. */
  lemma SpacerIffBlank(lines: seq<string>, i: nat)
    requires i < |lines|
    ensures Step(lines, i).0 == Spacer <==> Trim(lines[i]) == ""
  {
    var line := lines[i];
    TrimEmptyIff(line);
    if Trim(line) == "" && |line| > 0 {
      assert IsWhitespace(line[0]);
    }
  }

  /** List markers `- `, `* ` and `12. ` are removed from the item's text. */
  lemma BulletMarkers(x: string)
    ensures BulletText("- " + x) == x
    ensures BulletText("* " + x) == x
    ensures BulletText("12. " + x) == x
  {
    var t := "12. " + x;
    assert LeadingDigits(t) == 2 by {
      assert t[2..] == ". " + x;
      assert LeadingDigits(t[2..]) == 0;
      assert t[1..][1..] == t[2..];
    }
  }

  /** Anything that reaches the last test is a paragraph of the raw, untrimmed line. */
  lemma ParagraphKeepsRawLine(lines: seq<string>, i: nat)
    requires i < |lines|
    requires !IsFence(lines[i]) && !IsRuleLine(lines[i]) && !StartsTable(lines, i)
    requires !StartsWith(lines[i], "#") && !IsBulletLine(Trim(lines[i])) && Trim(lines[i]) != ""
    ensures Step(lines, i) == (Paragraph(lines[i]), i + 1)
  {
  }

  // ------------------------------------------------------------------
  // Tables

  datatype TableView = TableView(headers: seq<string>, body: seq<seq<string>>)

  function TrimAll(cells: seq<string>): (r: seq<string>)
    ensures |r| == |cells| && forall k :: 0 <= k < |r| ==> r[k] == Trim(cells[k])
  {
    seq(|cells|, k requires 0 <= k < |cells| => Trim(cells[k]))
  }

  /** The cells of a row: its non-blank `|`-separated pieces, each shown trimmed. */
  function Cells(row: string): (r: seq<string>)
    ensures forall k :: 0 <= k < |r| ==> r[k] != "" && '|' !in r[k]
  {
    var pieces := Filter(Split(row, '|'), IsNonBlank);
    var r := TrimAll(pieces);
    assert forall k :: 0 <= k < |r| ==> '|' !in r[k] by {
      forall k | 0 <= k < |r|
        ensures '|' !in r[k]
      {
        assert pieces[k] in pieces;
        TrimProperties(pieces[k]);
      }
    }
    assert forall k :: 0 <= k < |r| ==> r[k] != "" by {
      forall k | 0 <= k < |r| ensures r[k] != "" {
        assert pieces[k] in pieces;
      }
    }
    r
  }

  /** A row written as `|` + cells joined by `|` + `|` gives back exactly those cells, when each is trimmed, non-blank and free of `|`. */
  lemma CellsOfRow(cs: seq<string>)
    requires forall k :: 0 <= k < |cs| ==> Trim(cs[k]) == cs[k] && cs[k] != "" && '|' !in cs[k]
    ensures Cells("|" + Join(cs, '|') + "|") == cs
  {
    var row := "|" + Join(cs, '|') + "|";
    assert Trim("") == "";
    if cs == [] {
      EmptyRowHasNoCells();
    } else {
      SplitOfRow(cs);
      var tail := cs + [""];
      assert Filter([""] + tail, IsNonBlank) == Filter(tail, IsNonBlank) by {
        assert ([""] + tail)[1..] == tail;
      }
      FilterKeepsCells(cs);
      assert TrimAll(cs) == cs;
    }
  }

  /** The row `||` has no cells. */
  lemma EmptyRowHasNoCells()
    ensures Cells("||") == []
  {
    var pieces := ["", "", ""];
    assert Join(pieces, '|') == "||";
    SplitJoin(pieces, '|');
    assert Trim("") == "";
    assert Filter(pieces, IsNonBlank) == Filter(pieces[1..], IsNonBlank) == Filter(pieces[2..], IsNonBlank);
  }

  /** Splitting a bordered row gives an empty piece, the cells, and an empty piece. */
  lemma SplitOfRow(cs: seq<string>)
    requires cs != []
    requires forall k :: 0 <= k < |cs| ==> '|' !in cs[k]
    ensures Split("|" + Join(cs, '|') + "|", '|') == [""] + (cs + [""])
  {
    var pieces := [""] + (cs + [""]);
    assert pieces == [""] + cs + [""];
    JoinBorders(cs, '|');
    assert forall k :: 0 <= k < |pieces| ==> '|' !in pieces[k] by {
      forall k | 0 <= k < |pieces| ensures '|' !in pieces[k] {
        if 0 < k < |pieces| - 1 { assert pieces[k] == cs[k - 1]; }
      }
    }
    SplitJoin(pieces, '|');
  }

  /** Non-blank cells pass the filter and the trailing empty piece does not. */
  lemma {:induction false} FilterKeepsCells(cs: seq<string>)
    requires forall k :: 0 <= k < |cs| ==> cs[k] != "" && Trim(cs[k]) == cs[k]
    ensures Filter(cs + [""], IsNonBlank) == cs
    decreases |cs|
  {
    assert Trim("") == "";
    if cs == [] {
      assert Filter([""], IsNonBlank) == Filter([""][1..], IsNonBlank);
    } else {
      FilterKeepsCells(cs[1..]);
      assert (cs + [""])[1..] == cs[1..] + [""];
      assert IsNonBlank(cs[0]);
    }
  }

  /** Nothing for fewer than two rows; otherwise row 0 gives the headers, row 1 is skipped and the rest are data. */
  function TableRenderer(rows: seq<string>): (r: Option<TableView>)
    ensures r.None? <==> |rows| < 2
    ensures r.Some? ==> r.value.headers == Cells(rows[0]) && |r.value.body| == |rows| - 2
    ensures r.Some? ==> forall k :: 0 <= k < |r.value.body| ==> r.value.body[k] == Cells(rows[k + 2])
  {
    if |rows| < 2 then None
    else Some(TableView(Cells(rows[0]), seq(|rows| - 2, k requires 0 <= k < |rows| - 2 => Cells(rows[k + 2]))))
  }

  // ------------------------------------------------------------------
  // Inline tokens

  /** A `[text](url)` match: its captured groups and the range `[start, end)` it spans. */
  datatype LinkMatch = LinkMatch(text: string, url: string, start: nat, end: nat)

  predicate NoLineTerminator(s: string) { forall k :: 0 <= k < |s| ==> !IsLineTerminator(s[k]) }

  /** First `](` at or after `j`, provided no line terminator comes first (the lazy `.*?` of the text group). */
  function CloseBracket(s: string, j: nat): (q: Option<nat>)
    ensures q.Some? ==> j <= q.value && q.value + 1 < |s| && s[q.value] == ']' && s[q.value + 1] == '('
    ensures q.Some? ==> NoLineTerminator(s[j..q.value])
    decreases |s| - j
  {
    if j + 1 >= |s| then None
    else if s[j] == ']' && s[j + 1] == '(' then Some(j)
    else if IsLineTerminator(s[j]) then None
    else
      var q := CloseBracket(s, j + 1);
      if q.Some? then
        assert s[j..q.value] == [s[j]] + s[j + 1..q.value];
        q
      else None
  }

  /** First `)` at or after `j`, provided no line terminator comes first (the lazy `.*?` of the URL group). */
  function CloseParen(s: string, j: nat): (r: Option<nat>)
    ensures r.Some? ==> j <= r.value < |s| && s[r.value] == ')'
    ensures r.Some? ==> NoLineTerminator(s[j..r.value]) && ')' !in s[j..r.value]
    decreases |s| - j
  {
    if j >= |s| then None
    else if s[j] == ')' then Some(j)
    else if IsLineTerminator(s[j]) then None
    else
      var r := CloseParen(s, j + 1);
      if r.Some? then
        assert s[j..r.value] == [s[j]] + s[j + 1..r.value];
        r
      else None
  }

  /**
   * The pattern `\[(.*?)\]\((.*?)\)` (with a leading `!` when `bang`) tried at position `p`. Taking the
   * first `](` and then the first `)` is exact: when that `)` is missing, a later `](` cannot help,
   * because the line terminator that stopped the URL also bounds the text.
   */
  function MatchAt(s: string, p: nat, bang: bool): (m: Option<LinkMatch>)
    ensures m.Some? ==> m.value.start == p < m.value.end <= |s|
    ensures m.Some? ==> s[p..m.value.end] == (if bang then "![" else "[") + m.value.text + "](" + m.value.url + ")"
    ensures m.Some? ==> NoLineTerminator(m.value.text) && NoLineTerminator(m.value.url) && ')' !in m.value.url
  {
    var open := if bang then "![" else "[";
    if p > |s| || !StartsWith(s[p..], open) then None
    else
      var a := p + |open|;
      match CloseBracket(s, a)
      case None => None
      case Some(q) =>
        match CloseParen(s, q + 2)
        case None => None
        case Some(r) =>
          LinkSlices(s, open, p, q, r);
          Some(LinkMatch(s[a..q], s[q + 2..r], p, r + 1))
  }

  /** The matched stretch splits into the opening, the text, `](`, the URL and `)`. */
  lemma LinkSlices(s: string, open: string, p: nat, q: nat, r: nat)
    requires p <= |s| && StartsWith(s[p..], open)
    requires p + |open| <= q && q + 2 <= r < |s|
    requires s[q] == ']' && s[q + 1] == '(' && s[r] == ')'
    ensures s[p..r + 1] == open + s[p + |open|..q] + "](" + s[q + 2..r] + ")"
  {
    var a := p + |open|;
    assert s[p..a] == s[p..][..|open|];
    assert s[q..q + 2] == "](";
    assert s[r..r + 1] == ")";
    var x, y := s[a..q], s[q + 2..r];
    assert s[p..q] == open + x;
    assert s[p..q + 2] == open + x + "](";
    assert s[p..r] == open + x + "](" + y;
    assert s[p..r + 1] == open + x + "](" + y + ")";
  }

  /** No match of the pattern starts at a position in `[from, to)`. */
  predicate NoMatchIn(s: string, from: nat, to: nat, bang: bool)
    decreases to - from
  {
    from >= to || (MatchAt(s, from, bang).None? && NoMatchIn(s, from + 1, to, bang))
  }

  /** A position inside a match-free range starts no match. */
  lemma {:induction false} NoMatchInAt(s: string, from: nat, to: nat, bang: bool, q: nat)
    requires NoMatchIn(s, from, to, bang) && from <= q < to
    ensures MatchAt(s, q, bang).None?
    decreases q - from
  {
    if q > from {
      NoMatchInAt(s, from + 1, to, bang, q);
    }
  }

  /** When the search from `p` finds nothing, no position from `p` to the end starts a match. */
  lemma NoMatchFrom(s: string, p: nat, bang: bool, q: nat)
    requires FirstMatchFrom(s, p, bang).None? && p <= q <= |s|
    ensures MatchAt(s, q, bang).None?
  {
    NoMatchInAt(s, p, |s| + 1, bang, q);
  }

  /** The leftmost match at or after `p` (what `String.prototype.match` or one `exec` step finds). */
  function FirstMatchFrom(s: string, p: nat, bang: bool): (m: Option<LinkMatch>)
    ensures m.Some? ==> p <= m.value.start && MatchAt(s, m.value.start, bang) == m
    ensures m.Some? ==> NoMatchIn(s, p, m.value.start, bang)
    ensures m.None? ==> NoMatchIn(s, p, |s| + 1, bang)
    decreases |s| + 1 - p
  {
    if p > |s| then None
    else match MatchAt(s, p, bang)
      case Some(m) => Some(m)
      case None => FirstMatchFrom(s, p + 1, bang)
  }

  /** Image extensions the link test recognises. */
  const ImageExtensions: seq<string> := ["jpg", "jpeg", "png", "gif", "webp", "bmp", "svg"]

  /** `.ext` at position `p`, compared case-insensitively, followed by the end of the URL or `?`. */
  predicate ImageExtensionAt(url: string, p: nat, ext: string) {
    var e := p + 1 + |ext|;
    e <= |url| && url[p] == '.' && ToLower(url[p + 1..e]) == ext && (e == |url| || url[e] == '?')
  }

  /** `/\.(jpg|jpeg|png|gif|webp|bmp|svg)($|\?)/i.test(url)`. */
  predicate HasImageExtension(url: string) {
    exists p, k :: 0 <= p < |url| && 0 <= k < |ImageExtensions| && ImageExtensionAt(url, p, ImageExtensions[k])
  }

  datatype Inline =
    | Preview(src: string, alt: string)
    | Link(href: string, text: string)
    | Strong(text: string)
    | Emphasis(text: string)
    | Code(text: string)
    | Text(text: string)

  /** `s.slice(n, -n)`: the middle after dropping `n` characters at each end, or empty when too short. */
  function SliceInner(s: string, n: nat): (r: string)
    ensures 2 * n <= |s| ==> |r| == |s| - 2 * n && r == s[n..|s| - n]
    ensures 2 * n > |s| ==> r == ""
  {
    if 2 * n <= |s| then s[n..|s| - n] else ""
  }

  /** The shape test that guards the match: starts with `open`, contains `](` and ends with `)`. */
  predicate LinkShaped(part: string, open: string) {
    StartsWith(part, open) && Contains(part, "](") && EndsWith(part, ")")
  }

  /** How one token of a line is shown, tried in the renderer's order. */
  function ClassifyToken(part: string): Inline {
    if LinkShaped(part, "![") && FirstMatchFrom(part, 0, true).Some? then
      var m := FirstMatchFrom(part, 0, true).value;
      Preview(m.url, m.text)
    else if LinkShaped(part, "[") && FirstMatchFrom(part, 0, false).Some? then
      var m := FirstMatchFrom(part, 0, false).value;
      if HasImageExtension(m.url) then Preview(m.url, m.text) else Link(m.url, m.text)
    else if StartsWith(part, "**") && EndsWith(part, "**") then Strong(SliceInner(part, 2))
    else if StartsWith(part, "*") && EndsWith(part, "*") then Emphasis(SliceInner(part, 1))
    else if StartsWith(part, "`") && EndsWith(part, "`") then Code(SliceInner(part, 1))
    else Text(part)
  }

  predicate NonEmpty(s: string) { s != "" }

  /** The tokens of a line (as the line's split yields them) with empty ones dropped, each classified. */
  function ParseInline(tokens: seq<string>): (r: seq<Inline>)
    ensures |r| == |Filter(tokens, NonEmpty)|
    ensures forall k :: 0 <= k < |r| ==> r[k] == ClassifyToken(Filter(tokens, NonEmpty)[k])
  {
    var parts := Filter(tokens, NonEmpty);
    seq(|parts|, k requires 0 <= k < |parts| => ClassifyToken(parts[k]))
  }

  /** The matcher applied at the start of `open + text + "](" + url + ")"` finds exactly `text` and `url`. */
  lemma MatchOfLinkSyntax(text: string, url: string, bang: bool)
    requires NoLineTerminator(text) && NoLineTerminator(url)
    requires ']' !in text && ')' !in url
    ensures var s := (if bang then "![" else "[") + text + "](" + url + ")";
      MatchAt(s, 0, bang) == Some(LinkMatch(text, url, 0, |s|))
  {
    var open := if bang then "![" else "[";
    var s := open + text + "](" + url + ")";
    var a := |open|;
    var q := a + |text|;
    assert s[..a] == open;
    assert s[a..q] == text;
    assert s[q] == ']' && s[q + 1] == '(';
    CloseBracketFinds(s, a, q);
    assert s[q + 2..|s| - 1] == url;
    CloseParenFinds(s, q + 2, |s| - 1);
  }

  lemma {:induction false} CloseBracketFinds(s: string, j: nat, q: nat)
    requires j <= q && q + 1 < |s| && s[q] == ']' && s[q + 1] == '('
    requires forall k :: j <= k < q ==> s[k] != ']' && !IsLineTerminator(s[k])
    ensures CloseBracket(s, j) == Some(q)
    decreases q - j
  {
    if j < q {
      CloseBracketFinds(s, j + 1, q);
    }
  }

  lemma {:induction false} CloseParenFinds(s: string, j: nat, r: nat)
    requires j <= r < |s| && s[r] == ')'
    requires forall k :: j <= k < r ==> s[k] != ')' && !IsLineTerminator(s[k])
    ensures CloseParen(s, j) == Some(r)
    decreases r - j
  {
    if j < r {
      CloseParenFinds(s, j + 1, r);
    }
  }

  /** A link token becomes an image preview exactly when its URL has an image extension, else a link. */
  lemma LinkTokenClassified(text: string, url: string)
    requires NoLineTerminator(text) && NoLineTerminator(url)
    requires ']' !in text && ')' !in url
    ensures var part := "[" + text + "](" + url + ")";
      ClassifyToken(part) == if HasImageExtension(url) then Preview(url, text) else Link(url, text)
  {
    var part := "[" + text + "](" + url + ")";
    MatchOfLinkSyntax(text, url, false);
    assert FirstMatchFrom(part, 0, false) == Some(LinkMatch(text, url, 0, |part|));
    assert part[0] == '[';
    assert !LinkShaped(part, "![");
    assert StartsWith(part, "[") && EndsWith(part, ")");
    ContainsAt(part, "](", 1 + |text|);
    assert LinkShaped(part, "[");
  }

  /** An image token `![alt](src)` becomes a preview of `src` with `alt`. */
  lemma ImageTokenClassified(text: string, url: string)
    requires NoLineTerminator(text) && NoLineTerminator(url)
    requires ']' !in text && ')' !in url
    ensures ClassifyToken("![" + text + "](" + url + ")") == Preview(url, text)
  {
    var part := "![" + text + "](" + url + ")";
    MatchOfLinkSyntax(text, url, true);
    assert FirstMatchFrom(part, 0, true) == Some(LinkMatch(text, url, 0, |part|));
    assert StartsWith(part, "![") && EndsWith(part, ")");
    ContainsAt(part, "](", 2 + |text|);
    assert LinkShaped(part, "![");
  }

  /** Emphasis tokens lose their markers: `**x**` is strong `x`, `` `x` `` is code `x`. */
  lemma MarkerTokens(x: string)
    requires x != [] && x[0] != '*' && x[0] != '[' && x[0] != '!'
    ensures ClassifyToken("**" + x + "**") == Strong(x)
    ensures ClassifyToken("`" + x + "`") == Code(x)
  {
    var strong := "**" + x + "**";
    assert StartsWith(strong, "**") && EndsWith(strong, "**");
    assert !LinkShaped(strong, "[") && !LinkShaped(strong, "![");
    assert strong[2..|strong| - 2] == x;
    var code := "`" + x + "`";
    assert StartsWith(code, "`") && EndsWith(code, "`");
    assert !LinkShaped(code, "[") && !LinkShaped(code, "![") && !StartsWith(code, "*");
    assert code[1..|code| - 1] == x;
  }

  /** The extension test is case-insensitive and accepts a query string after the extension. */
  lemma ImageExtensionExamples()
    ensures HasImageExtension("a.PNG")
    ensures HasImageExtension("x/y.jpg?w=2")
    ensures !HasImageExtension("page")
  {
    assert ImageExtensionAt("a.PNG", 1, ImageExtensions[2]) by {
      assert "a.PNG"[2..5] == "PNG";
      assert ToLower("PNG") == "png";
    }
    var u := "x/y.jpg?w=2";
    assert ImageExtensionAt(u, 3, ImageExtensions[0]) by {
      assert u[4..7] == "jpg";
      assert ToLower("jpg") == "jpg";
    }
  }

  // ------------------------------------------------------------------
  // Image previews

  datatype PreviewStatus = Loading | Loaded | Failed

  /** A wiki file page or a PHP endpoint: an HTML page, not an image. */
  predicate IsLikelyHtml(src: string) { Contains(src, "/wiki/File:") || Contains(src, "index.php") }

  /** The status a preview renders with: a likely HTML page is forced into the (hidden) error state. */
  function RenderedStatus(src: string, status: PreviewStatus): (r: PreviewStatus)
    ensures IsLikelyHtml(src) ==> r == Failed
    ensures !IsLikelyHtml(src) ==> r == status
  {
    if IsLikelyHtml(src) && status != Failed then Failed else status
  }

  /** A click opens the lightbox only for a loaded preview (and only when a handler is given). */
  function ClickTarget(src: string, status: PreviewStatus, hasHandler: bool): (r: Option<string>)
    ensures r.Some? <==> status == Loaded && hasHandler
    ensures r.Some? ==> r.value == src
  {
    if status == Loaded && hasHandler then Some(src) else None
  }

  /** A likely HTML page is hidden and never opens the lightbox, whatever its load events did. */
  lemma HtmlPreviewNeverOpens(src: string, status: PreviewStatus, hasHandler: bool)
    requires IsLikelyHtml(src)
    ensures ClickTarget(src, RenderedStatus(src, status), hasHandler).None?
  {
  }
}
