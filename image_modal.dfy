/**
 * The lightbox: cyclic navigation over the gallery, keyboard dispatch, what it renders and the
 * download file name.
 */
module ImageModal {
  import opened Wrappers
  import opened Strings
  import opened Types

  // ------------------------------------------------------------------
  // Navigation

  /** JavaScript's `%`: the remainder takes the sign of the dividend. */
  function JsRem(a: int, n: int): (r: int)
    requires n > 0
    ensures a >= 0 ==> 0 <= r < n && r == a % n
    ensures a < 0 ==> -n < r <= 0
  {
    if a >= 0 then a % n else -((-a) % n)
  }

  /** The lightbox index: a number, or `NaN` once a remainder by zero items has been taken. */
  datatype Index = At(i: int) | NaN

  function Next(idx: Index, n: nat): (r: Index)
    ensures n == 0 ==> r == NaN
    ensures n > 0 && idx.At? && 0 <= idx.i < n ==> r.At? && 0 <= r.i < n
  {
    match idx
    case NaN => NaN
    case At(i) => if n == 0 then NaN else At(JsRem(i + 1, n))
  }

  function Prev(idx: Index, n: nat): (r: Index)
    ensures n == 0 ==> r == NaN
    ensures n > 0 && idx.At? && 0 <= idx.i < n ==> r.At? && 0 <= r.i < n
  {
    match idx
    case NaN => NaN
    case At(i) => if n == 0 then NaN else At(JsRem(i - 1 + n, n))
  }

  lemma ModBelow(a: int, n: int)
    requires 0 <= a < n
    ensures a % n == a
  {
  }

  lemma ModShift(x: int, n: int)
    requires 0 <= x < n
    ensures (x + n) % n == x
  {
  }

  /** Next steps forward one place and Prev back one, wrapping around at the ends. */
  lemma {:induction false} NextWraps(i: int, n: nat)
    requires 0 <= i < n
    ensures Next(At(i), n) == if i == n - 1 then At(0) else At(i + 1)
    ensures Prev(At(i), n) == if i == 0 then At(n - 1) else At(i - 1)
  {
    if i < n - 1 {
      ModBelow(i + 1, n);
    } else {
      assert n % n == 0;
    }
    if i == 0 {
      ModBelow(n - 1, n);
    } else {
      ModShift(i - 1, n);
    }
  }

  /** Back undoes forward and forward undoes back. */
  lemma {:induction false} NextPrevInverse(i: int, n: nat)
    requires 0 <= i < n
    ensures Prev(Next(At(i), n), n) == At(i)
    ensures Next(Prev(At(i), n), n) == At(i)
  {
    NextWraps(i, n);
    NextWraps(Next(At(i), n).i, n);
    NextWraps(Prev(At(i), n).i, n);
  }

  function NextTimes(idx: Index, n: nat, k: nat): Index
    decreases k
  {
    if k == 0 then idx else Next(NextTimes(idx, n, k - 1), n)
  }

  /** Stepping forward k times from i, without passing the end, lands on i + k. */
  lemma {:induction false} NextTimesAdvance(i: int, n: nat, k: nat)
    requires 0 <= i && i + k < n
    ensures NextTimes(At(i), n, k) == At(i + k)
    decreases k
  {
    if k > 0 {
      NextTimesAdvance(i, n, k - 1);
      NextWraps(i + k - 1, n);
    }
  }

  /** k steps followed by j steps are k + j steps. */
  lemma {:induction false} NextTimesAdd(idx: Index, n: nat, k: nat, j: nat)
    ensures NextTimes(NextTimes(idx, n, k), n, j) == NextTimes(idx, n, k + j)
    decreases j
  {
    if j > 0 {
      NextTimesAdd(idx, n, k, j - 1);
    }
  }

  /** Going forward once per item returns to the image the lightbox started on. */
  lemma {:induction false} FullCycle(i: int, n: nat)
    requires 0 <= i < n
    ensures NextTimes(At(i), n, n) == At(i)
  {
    var toLast := n - 1 - i;
    NextTimesAdvance(i, n, toLast);
    NextWraps(n - 1, n);
    assert NextTimes(At(i), n, toLast + 1) == At(0);
    if i > 0 {
      NextTimesAdvance(0, n, i);
    }
    NextTimesAdd(At(i), n, toLast + 1, i);
  }

  // ------------------------------------------------------------------
  // Keys, rendering

  /** The effect of a key: the new index and whether the lightbox asks to close. */
  function HandleKey(key: string, idx: Index, n: nat): (r: (Index, bool))
    ensures key == "ArrowRight" ==> r == (Next(idx, n), false)
    ensures key == "ArrowLeft" ==> r == (Prev(idx, n), false)
    ensures key == "Escape" ==> r == (idx, true)
    ensures key !in {"ArrowRight", "ArrowLeft", "Escape"} ==> r == (idx, false)
  {
    var afterRight := if key == "ArrowRight" then Next(idx, n) else idx;
    var afterLeft := if key == "ArrowLeft" then Prev(afterRight, n) else afterRight;
    (afterLeft, key == "Escape")
  }

  /** The item on show, if the index points into the gallery; otherwise the lightbox renders nothing. */
  function Current(items: seq<GalleryItem>, idx: Index): (r: Option<GalleryItem>)
    ensures r.Some? <==> idx.At? && 0 <= idx.i < |items|
    ensures r.Some? ==> r.value == items[idx.i]
  {
    if idx.At? && 0 <= idx.i < |items| then Some(items[idx.i]) else None
  }

  /** The previous and next buttons show only for more than one item. */
  predicate ShowsNavigation(items: seq<GalleryItem>) { |items| > 1 }

  /** Navigation keeps a rendered lightbox rendered. */
  lemma NavigationStaysVisible(items: seq<GalleryItem>, idx: Index, key: string)
    requires Current(items, idx).Some?
    ensures Current(items, HandleKey(key, idx, |items|).0).Some?
  {
  }

  /** The caption and attribution: the alt text or a default, and who provided the image. */
  function Caption(item: GalleryItem): (r: (string, string))
    ensures r.0 == if item.alt == "" then "Scientific Observation" else item.alt
    ensures r.1 == if item.isUser then "Uploaded by You" else "EcoSci AI"
  {
    (if item.alt != "" then item.alt else "Scientific Observation", if item.isUser then "Uploaded by You" else "EcoSci AI")
  }

  // ------------------------------------------------------------------
  // Download name

  /** `s.replace(/\s+/g, '-')`: every maximal run of whitespace becomes one hyphen. */
  function HyphenateWhitespace(s: string): (r: string)
    ensures forall k :: 0 <= k < |r| ==> !IsWhitespace(r[k])
    ensures |r| <= |s|
    ensures r == "" <==> s == ""
    decreases |s|
  {
    if s == [] then []
    else if IsWhitespace(s[0]) then
      var n := LeadingWhitespace(s);
      "-" + HyphenateWhitespace(s[n..])
    else [s[0]] + HyphenateWhitespace(s[1..])
  }

  lemma LowerKeepsNonWhitespace(s: string)
    requires forall k :: 0 <= k < |s| ==> !IsWhitespace(s[k])
    ensures forall k :: 0 <= k < |ToLower(s)| ==> !IsWhitespace(ToLower(s)[k])
  {
  }

  const DownloadPrefix: string := "ecosci-"
  const DownloadSuffix: string := ".jpg"

  /** The file name for a download: the alt text as a lowercase, hyphenated slug, or `image` when there is none. */
  function DownloadName(alt: string): (r: string)
    ensures StartsWith(r, DownloadPrefix) && EndsWith(r, DownloadSuffix)
    ensures alt == "" ==> r == "ecosci-image.jpg"
    ensures alt != "" ==> r == DownloadPrefix + ToLower(HyphenateWhitespace(alt)) + DownloadSuffix
    ensures forall k :: 0 <= k < |r| ==> !IsWhitespace(r[k])
  {
    var slug := ToLower(HyphenateWhitespace(alt));
    LowerKeepsNonWhitespace(HyphenateWhitespace(alt));
    var stem := if slug != "" then slug else "image";
    FileNameShape(stem);
    DownloadPrefix + stem + DownloadSuffix
  }

  /** A whitespace-free stem between the prefix and the suffix gives a whitespace-free name with both affixes. */
  lemma FileNameShape(stem: string)
    requires forall k :: 0 <= k < |stem| ==> !IsWhitespace(stem[k])
    ensures var r := DownloadPrefix + stem + DownloadSuffix;
      && StartsWith(r, DownloadPrefix) && EndsWith(r, DownloadSuffix)
      && forall k :: 0 <= k < |r| ==> !IsWhitespace(r[k])
  {
    ConcatAffixes(DownloadPrefix + stem, DownloadSuffix);
    StartsWithExtend(DownloadPrefix, DownloadPrefix, stem);
    assert StartsWith(DownloadPrefix, DownloadPrefix);
    StartsWithExtend(DownloadPrefix + stem, DownloadPrefix, DownloadSuffix);
  }

  /** A maximal whitespace run between two whitespace-free parts becomes exactly one hyphen. */
  lemma RunBecomesHyphen(a: string, w: string, b: string)
    requires forall k :: 0 <= k < |a| ==> !IsWhitespace(a[k])
    requires |w| > 0 && forall k :: 0 <= k < |w| ==> IsWhitespace(w[k])
    requires b == [] || !IsWhitespace(b[0])
    ensures HyphenateWhitespace(a + w + b) == a + "-" + HyphenateWhitespace(b)
  {
    var u, tail := w + b, HyphenateWhitespace(b);
    assert a + w + b == a + u;
    HyphenateKeepAll(a, u);
    HyphenateRun(w, b);
    assert a + ("-" + tail) == a + "-" + tail;
  }

  /** Text without whitespace is left as it is. */
  lemma HyphenateIdentity(s: string)
    requires forall k :: 0 <= k < |s| ==> !IsWhitespace(s[k])
    ensures HyphenateWhitespace(s) == s
  {
    HyphenateKeepAll(s, []);
    assert s + [] == s;
  }

  /** A whitespace-free prefix is copied unchanged, whatever follows it. */
  lemma {:induction false} HyphenateKeepAll(a: string, rest: string)
    requires forall k :: 0 <= k < |a| ==> !IsWhitespace(a[k])
    ensures HyphenateWhitespace(a + rest) == a + HyphenateWhitespace(rest)
    decreases |a|
  {
    if a == [] {
      assert a + rest == rest;
    } else {
      var t, u := a[1..], a[1..] + rest;
      assert a + rest == [a[0]] + u;
      HyphenateKeepAll(t, rest);
      HyphenateKeep(a[0], u);
      assert [a[0]] + (t + HyphenateWhitespace(rest)) == a + HyphenateWhitespace(rest);
    }
  }

  lemma HyphenateKeep(c: char, rest: string)
    requires !IsWhitespace(c)
    ensures HyphenateWhitespace([c] + rest) == [c] + HyphenateWhitespace(rest)
  {
    var s := [c] + rest;
    assert s[0] == c;
    assert s[1..] == rest;
  }

  lemma HyphenateRun(w: string, b: string)
    requires |w| > 0 && forall k :: 0 <= k < |w| ==> IsWhitespace(w[k])
    requires b == [] || !IsWhitespace(b[0])
    ensures HyphenateWhitespace(w + b) == "-" + HyphenateWhitespace(b)
  {
    var s := w + b;
    LeadingRun(w, b);
    assert s[0] == w[0];
    assert s[|w|..] == b;
  }

  lemma {:induction false} LeadingRun(w: string, b: string)
    requires forall k :: 0 <= k < |w| ==> IsWhitespace(w[k])
    requires b == [] || !IsWhitespace(b[0])
    ensures LeadingWhitespace(w + b) == |w|
    decreases |w|
  {
    if w == [] {
      assert w + b == b;
    } else {
      assert (w + b)[1..] == w[1..] + b;
      LeadingRun(w[1..], b);
    }
  }
}
