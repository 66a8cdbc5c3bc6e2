/**
 * The JavaScript string operations the application relies on, over `string` (a sequence of
 * Unicode scalar values): `trim`, `startsWith`, `endsWith`, `includes`, `indexOf`,
 * `split` on a character, `join`, ASCII `toLowerCase`, number formatting and `padStart`.
 */
module Strings {
  import opened Wrappers
  import opened Seqs

  /**
   * ECMAScript WhiteSpace and LineTerminator code points: exactly what `String.prototype.trim`
   * removes and what the regular-expression class `\s` matches.
   */
  predicate IsWhitespace(c: char) {
    || c == ' ' || c == '\t' || c == '\n' || c == '\r' || c == '\U{000B}' || c == '\U{000C}'
    || c == '\U{00A0}' || c == '\U{1680}' || ('\U{2000}' <= c <= '\U{200A}')
    || c == '\U{2028}' || c == '\U{2029}' || c == '\U{202F}' || c == '\U{205F}'
    || c == '\U{3000}' || c == '\U{FEFF}'
  }

  /** The characters the regular-expression `.` refuses to match. */
  predicate IsLineTerminator(c: char) {
    c == '\n' || c == '\r' || c == '\U{2028}' || c == '\U{2029}'
  }

  predicate IsAsciiDigit(c: char) { '0' <= c <= '9' }

  /** Number of whitespace characters at the start of `s`. */
  function LeadingWhitespace(s: string): (n: nat)
    ensures n <= |s|
    ensures forall j :: 0 <= j < n ==> IsWhitespace(s[j])
    ensures n < |s| ==> !IsWhitespace(s[n])
    decreases |s|
  {
    if s != [] && IsWhitespace(s[0]) then 1 + LeadingWhitespace(s[1..]) else 0
  }

  /** Number of whitespace characters at the end of `s`. */
  function TrailingWhitespace(s: string): (n: nat)
    ensures n <= |s|
    ensures forall j :: |s| - n <= j < |s| ==> IsWhitespace(s[j])
    ensures n < |s| ==> !IsWhitespace(s[|s| - 1 - n])
    decreases |s|
  {
    if s != [] && IsWhitespace(s[|s| - 1]) then 1 + TrailingWhitespace(s[..|s| - 1]) else 0
  }

  /** `s.trimStart()`. */
  function TrimStart(s: string): string {
    s[LeadingWhitespace(s)..]
  }

  /** `s.trim()`. */
  function Trim(s: string): string {
    var t := TrimStart(s);
    t[..|t| - TrailingWhitespace(t)]
  }

  /** A trimmed string neither starts nor ends with whitespace, and is a slice of the input. */
  lemma TrimProperties(s: string)
    ensures Trim(s) == "" || (!IsWhitespace(Trim(s)[0]) && !IsWhitespace(Trim(s)[|Trim(s)| - 1]))
    ensures exists i, j :: 0 <= i <= j <= |s| && Trim(s) == s[i..j]
  {
    var t := TrimStart(s);
    var l := LeadingWhitespace(s);
    var e := TrailingWhitespace(t);
    assert Trim(s) == s[l..l + |t| - e];
    if Trim(s) != "" {
      assert Trim(s)[0] == t[0];
    }
  }

  /** `s.trim()` is empty exactly when every character of `s` is whitespace. */
  lemma TrimEmptyIff(s: string)
    ensures Trim(s) == "" <==> forall j :: 0 <= j < |s| ==> IsWhitespace(s[j])
  {
    var l := LeadingWhitespace(s);
    var t := TrimStart(s);
    if l < |s| {
      assert !IsWhitespace(s[l]);
      assert t != [] && t[0] == s[l];
      assert TrailingWhitespace(t) < |t|;
    }
  }

  /** `s.trim().length > 0`: the line has a visible character. */
  predicate IsNonBlank(s: string) { Trim(s) != "" }

  /** `s.startsWith(p)`. */
  predicate StartsWith(s: string, p: string) {
    |p| <= |s| && s[..|p|] == p
  }

  /** `s.endsWith(p)`. */
  predicate EndsWith(s: string, p: string) {
    |p| <= |s| && s[|s| - |p|..] == p
  }

  /** A concatenation starts with its first part and ends with its last. */
  lemma ConcatAffixes(a: string, b: string)
    ensures StartsWith(a + b, a) && EndsWith(a + b, b)
  {
    assert (a + b)[..|a|] == a;
    assert (a + b)[|a + b| - |b|..] == b;
  }

  lemma StartsWithExtend(s: string, p: string, t: string)
    requires StartsWith(s, p)
    ensures StartsWith(s + t, p)
  {
    assert (s + t)[..|p|] == s[..|p|];
  }

  /** `s.indexOf(sub)`, with `None` for -1. */
  function IndexOf(s: string, sub: string): (r: Option<nat>)
    ensures r.Some? ==> r.value + |sub| <= |s| && s[r.value..r.value + |sub|] == sub
    ensures r.Some? ==> forall j :: 0 <= j < r.value ==> !StartsWith(s[j..], sub)
    ensures r.None? ==> forall j :: 0 <= j <= |s| ==> !StartsWith(s[j..], sub)
    decreases |s|
  {
    if StartsWith(s, sub) then Some(0)
    else if s == [] then None
    else
      match IndexOf(s[1..], sub)
      case Some(k) =>
        assert forall j :: 1 <= j <= k ==> s[j..] == s[1..][j - 1..];
        Some(k + 1)
      case None =>
        assert forall j :: 1 <= j <= |s| ==> s[j..] == s[1..][j - 1..];
        None
  }

  /** `s.includes(sub)`. */
  predicate Contains(s: string, sub: string) {
    IndexOf(s, sub).Some?
  }

  /** `indexOf` finds `k` when `sub` occurs at `k` and at no earlier position. */
  lemma {:induction false} IndexOfIs(s: string, sub: string, k: nat)
    requires k + |sub| <= |s| && s[k..k + |sub|] == sub
    requires forall j :: 0 <= j < k ==> !StartsWith(s[j..], sub)
    ensures IndexOf(s, sub) == Some(k)
    decreases k
  {
    if k > 0 {
      assert !StartsWith(s[0..], sub);
      assert s[0..] == s;
      var t := s[1..];
      assert t[k - 1..k - 1 + |sub|] == sub;
      forall j | 0 <= j < k - 1
        ensures !StartsWith(t[j..], sub)
      {
        assert t[j..] == s[j + 1..];
      }
      IndexOfIs(t, sub, k - 1);
    }
  }

  /** `includes` holds exactly when `sub` occurs at some position. */
  lemma ContainsAt(s: string, sub: string, j: nat)
    requires j + |sub| <= |s| && s[j..j + |sub|] == sub
    ensures Contains(s, sub)
  {
    assert StartsWith(s[j..], sub);
  }

  /** An occurrence inside a slice is an occurrence in the whole text. */
  lemma ContainsInSlice(s: string, i: nat, j: nat, sub: string)
    requires i <= j <= |s| && Contains(s[i..j], sub)
    ensures Contains(s, sub)
  {
    var t := s[i..j];
    var k := IndexOf(t, sub).value;
    forall m | 0 <= m < |sub|
      ensures s[i + k + m] == sub[m]
    {
      assert sub[m] == t[k..k + |sub|][m] == t[k + m];
    }
    assert s[i + k..i + k + |sub|] == sub;
    ContainsAt(s, sub, i + k);
  }

  /** No occurrence lies wholly before the first one. */
  lemma NoneBeforeFirst(s: string, sub: string)
    requires |sub| > 0 && Contains(s, sub)
    ensures !Contains(s[..IndexOf(s, sub).value], sub)
  {
    var k := IndexOf(s, sub).value;
    var before := s[..k];
    if Contains(before, sub) {
      var j := IndexOf(before, sub).value;
      ContainsAtPrefix(s, k, j, sub);
    }
  }

  /** An occurrence at `j` inside the prefix `s[..k]` is an occurrence at `j` in `s`. */
  lemma ContainsAtPrefix(s: string, k: nat, j: nat, sub: string)
    requires k <= |s| && j + |sub| <= k && s[..k][j..j + |sub|] == sub
    ensures StartsWith(s[j..], sub)
  {
    assert s[j..][..|sub|] == s[..k][j..j + |sub|];
  }

  /** Appending text never removes an occurrence. */
  lemma ContainsExtend(a: string, b: string, sub: string)
    requires Contains(a, sub)
    ensures Contains(a + b, sub)
  {
    var k := IndexOf(a, sub).value;
    assert (a + b)[k..k + |sub|] == a[k..k + |sub|];
    ContainsAt(a + b, sub, k);
  }

  /** `s.split(sep)` for a one-character separator. */
  function Split(s: string, sep: char): (r: seq<string>)
    ensures |r| >= 1
    ensures forall k :: 0 <= k < |r| ==> sep !in r[k]
    decreases |s|
  {
    if s == [] then [""]
    else
      var rest := Split(s[1..], sep);
      if s[0] == sep then [""] + rest
      else [[s[0]] + rest[0]] + rest[1..]
  }

  /** `parts.join(sep)` for a one-character separator. */
  function Join(parts: seq<string>, sep: char): string
    decreases |parts|
  {
    if parts == [] then ""
    else if |parts| == 1 then parts[0]
    else parts[0] + [sep] + Join(parts[1..], sep)
  }

  /** An empty piece at each end of a join of at least one piece puts a separator at each end. */
  lemma JoinBorders(parts: seq<string>, sep: char)
    requires parts != []
    ensures Join([""] + parts + [""], sep) == [sep] + Join(parts, sep) + [sep]
  {
    JoinTrailingEmpty(parts, sep);
    var q := [""] + parts + [""];
    assert q[0] == "" && q[1..] == parts + [""];
    assert Join(q, sep) == "" + [sep] + Join(q[1..], sep);
  }

  /** An empty last piece adds one separator at the end. */
  lemma {:induction false} JoinTrailingEmpty(parts: seq<string>, sep: char)
    requires parts != []
    ensures Join(parts + [""], sep) == Join(parts, sep) + [sep]
    decreases |parts|
  {
    if |parts| == 1 {
      assert parts + [""] == [parts[0], ""];
    } else {
      JoinTrailingEmpty(parts[1..], sep);
      assert (parts + [""])[1..] == parts[1..] + [""];
    }
  }

  /** Joining the pieces of a split gives back the original string. */
  lemma {:induction false} JoinSplit(s: string, sep: char)
    ensures Join(Split(s, sep), sep) == s
    decreases |s|
  {
    if s != [] {
      var rest := Split(s[1..], sep);
      JoinSplit(s[1..], sep);
      if s[0] != sep {
        if |rest| > 1 {
          assert Join([[s[0]] + rest[0]] + rest[1..], sep)
              == [s[0]] + rest[0] + [sep] + Join(rest[1..], sep);
        }
      }
    }
  }

  /** Splitting a join of separator-free pieces gives back the pieces. */
  lemma {:induction false} SplitJoin(parts: seq<string>, sep: char)
    requires |parts| >= 1
    requires forall k :: 0 <= k < |parts| ==> sep !in parts[k]
    ensures Split(Join(parts, sep), sep) == parts
    decreases |parts|, |parts[0]|
  {
    var head := parts[0];
    if head == [] {
      if |parts| > 1 {
        SplitJoin(parts[1..], sep);
        assert Join(parts, sep) == [sep] + Join(parts[1..], sep);
      }
    } else {
      var shorter := [head[1..]] + parts[1..];
      SplitJoin(shorter, sep);
      if |parts| > 1 {
        assert Join(shorter, sep) == head[1..] + [sep] + Join(parts[1..], sep);
        assert Join(parts, sep) == [head[0]] + Join(shorter, sep);
      } else {
        assert Join(parts, sep) == [head[0]] + Join(shorter, sep);
      }
      var s := Join(parts, sep);
      assert s[1..] == Join(shorter, sep);
      assert s[0] == head[0] && head[0] != sep;
      assert [head[0]] + head[1..] == head;
      assert Split(s, sep) == [[head[0]] + head[1..]] + parts[1..];
    }
  }

  /** ASCII case mapping, the part of `toLowerCase` the model covers. */
  function LowerChar(c: char): char {
    if 'A' <= c <= 'Z' then (c as int + 32) as char else c
  }

  /** `s.toLowerCase()` restricted to ASCII letters. */
  function ToLower(s: string): (r: string)
    ensures |r| == |s|
    ensures forall k :: 0 <= k < |s| ==> r[k] == LowerChar(s[k])
  {
    seq(|s|, k requires 0 <= k < |s| => LowerChar(s[k]))
  }

  /** Decimal digits of a natural number, as `Number.prototype.toString()` prints them. */
  function NatToString(n: nat): (r: string)
    ensures |r| >= 1
    ensures forall k :: 0 <= k < |r| ==> IsAsciiDigit(r[k])
    decreases n
  {
    var d := ['0' + (n % 10) as char];
    if n < 10 then d else NatToString(n / 10) + d
  }

  /** The number a string of decimal digits denotes, most significant digit first. */
  function DecimalValue(s: string): nat
    requires forall k :: 0 <= k < |s| ==> IsAsciiDigit(s[k])
  {
    if s == [] then 0
    else
      assert IsAsciiDigit(s[|s| - 1]);
      DecimalValue(s[..|s| - 1]) * 10 + (s[|s| - 1] as int - '0' as int)
  }

  /** The digits `NatToString` writes denote `n`, with no leading zero unless `n` is 0. */
  lemma {:induction false} NatToStringValue(n: nat)
    ensures DecimalValue(NatToString(n)) == n
    ensures NatToString(n)[0] == '0' <==> n == 0
    decreases n
  {
    var d := ['0' + (n % 10) as char];
    if n >= 10 {
      NatToStringValue(n / 10);
      var r := NatToString(n / 10) + d;
      assert r[..|r| - 1] == NatToString(n / 10);
    }
  }

  /** Leading zeros do not change the value of a string of digits. */
  lemma {:induction false} LeadingZerosValue(m: nat, s: string)
    requires forall k :: 0 <= k < |s| ==> IsAsciiDigit(s[k])
    ensures DecimalValue(Repeat('0', m) + s) == DecimalValue(s)
    decreases |s|
  {
    var z := Repeat('0', m);
    if s == [] {
      assert z + s == z;
      ZerosValue(m);
    } else {
      LeadingZerosValue(m, s[..|s| - 1]);
      assert (z + s)[..|z + s| - 1] == z + s[..|s| - 1];
    }
  }

  /** A string of zeros denotes 0. */
  lemma {:induction false} ZerosValue(m: nat)
    ensures DecimalValue(Repeat('0', m)) == 0
    decreases m
  {
    if m > 0 {
      ZerosValue(m - 1);
      assert Repeat('0', m)[..m - 1] == Repeat('0', m - 1);
    }
  }

  /** `n.toString()` for an integer. */
  function IntToString(n: int): string {
    if n < 0 then "-" + NatToString(-n) else NatToString(n)
  }

  /** `c` repeated `n` times. */
  function Repeat(c: char, n: nat): (r: string)
    ensures |r| == n && forall k :: 0 <= k < n ==> r[k] == c
  {
    seq(n, _ => c)
  }

  /** `s.padStart(width, c)` with a one-character fill. */
  function PadStart(s: string, width: nat, c: char): (r: string)
    ensures |r| == if |s| >= width then |s| else width
    ensures EndsWith(r, s)
    ensures forall k :: 0 <= k < |r| - |s| ==> r[k] == c
  {
    if |s| >= width then s else Repeat(c, width - |s|) + s
  }

  /** The lines of `s` that are not blank, in order (`split('\n').filter(l => l.trim().length > 0)`). */
  function NonBlankLines(s: string): (r: seq<string>)
    ensures forall k :: 0 <= k < |r| ==> IsNonBlank(r[k]) && '\n' !in r[k]
  {
    Filter(Split(s, '\n'), IsNonBlank)
  }
}
