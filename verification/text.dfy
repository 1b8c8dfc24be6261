/** The Python string operations the core relies on, on `seq<char>`:
    `str.strip()`, `sep in s`, `s.split(sep)`, `sep.join(parts)`, the
    whitespace form `s.split()` and `re.findall("[...]+", s)` (maximal runs of
    characters of one class). */
module Text {
  import opened Wrappers
  import Seqs

  /** Python's `str.isspace()` on one character: the characters `strip()`
      and `split()` treat as whitespace. */
  predicate IsSpace(c: char) {
    || c == ' '
    || ('\t' <= c <= '\r')
    || ('\U{1C}' <= c <= '\U{1F}')
    || c == '\U{85}' || c == '\U{A0}' || c == '\U{1680}'
    || ('\U{2000}' <= c <= '\U{200A}')
    || c == '\U{2028}' || c == '\U{2029}' || c == '\U{202F}'
    || c == '\U{205F}' || c == '\U{3000}'
  }

  predicate AllSpace(s: string) {
    forall i :: 0 <= i < |s| ==> IsSpace(s[i])
  }

  function StripLeft(s: string): (r: string)
    ensures |r| <= |s| && r == s[|s| - |r|..]
    ensures AllSpace(s[..|s| - |r|])
    ensures r == [] || !IsSpace(r[0])
  {
    if |s| > 0 && IsSpace(s[0]) then
      var r := StripLeft(s[1..]);
      assert s[..|s| - |r|] == [s[0]] + s[1..][..|s[1..]| - |r|];
      r
    else s
  }

  function StripRight(s: string): (r: string)
    ensures |r| <= |s| && r == s[..|r|]
    ensures AllSpace(s[|r|..])
    ensures r == [] || !IsSpace(r[|r| - 1])
  {
    if |s| > 0 && IsSpace(s[|s| - 1]) then
      var r := StripRight(s[..|s| - 1]);
      assert s[|r|..] == s[..|s| - 1][|r|..] + [s[|s| - 1]];
      r
    else s
  }

  /** `s.strip()`: the slice of `s` left after dropping the whitespace at both
      ends, which starts and ends with a non-space character when non-empty. */
  function Strip(s: string): (r: string)
    ensures exists i, j :: 0 <= i <= j <= |s| && r == s[i..j] && AllSpace(s[..i]) && AllSpace(s[j..])
    ensures r == [] || (!IsSpace(r[0]) && !IsSpace(r[|r| - 1]))
  {
    var l := StripLeft(s);
    var r := StripRight(l);
    var i := |s| - |l|;
    assert r == s[i..i + |r|];
    assert s[i + |r|..] == l[|r|..];
    r
  }

  /** Stripping twice strips nothing more. */
  lemma StripIdempotent(s: string)
    ensures Strip(Strip(s)) == Strip(s)
  {
    var t := Strip(s);
    assert StripLeft(t) == t;
    assert StripRight(t) == t;
  }

  /** A text without whitespace is left as it is by stripping. */
  lemma NoSpaceStrip(s: string)
    requires forall k :: 0 <= k < |s| ==> !IsSpace(s[k])
    ensures Strip(s) == s
  {
    if |s| > 0 {
      assert StripLeft(s) == s;
      assert StripRight(s) == s;
    }
  }

  /** `sep` occurs in `s` starting at index `k`. */
  predicate OccursAt(s: string, sep: string, k: nat) {
    k + |sep| <= |s| && s[k..k + |sep|] == sep
  }

  /** `s.find(sep, i)`, with `None` for -1. */
  function FindFrom(s: string, sep: string, i: nat): (r: Option<nat>)
    requires |sep| > 0
    ensures r.Some? ==> i <= r.value && OccursAt(s, sep, r.value)
    ensures r.Some? ==> forall k :: i <= k < r.value ==> !OccursAt(s, sep, k)
    ensures r.None? ==> forall k :: i <= k ==> !OccursAt(s, sep, k)
    decreases |s| - i
  {
    if i + |sep| > |s| then None
    else if s[i..i + |sep|] == sep then Some(i)
    else FindFrom(s, sep, i + 1)
  }

  /** Python's `sub in s` for a non-empty `sub`. */
  predicate Contains(s: string, sub: string)
    requires |sub| > 0
  {
    FindFrom(s, sub, 0).Some?
  }

  lemma ContainsIff(s: string, sub: string)
    requires |sub| > 0
    ensures Contains(s, sub) <==> exists k :: OccursAt(s, sub, k)
  {
  }

  /** `s.split(sep)` with an explicit separator: empty pieces are kept, and
      a string without the separator splits into itself. */
  function Split(s: string, sep: string): (r: seq<string>)
    requires |sep| > 0
    ensures |r| >= 1
    decreases |s|
  {
    match FindFrom(s, sep, 0)
    case None => [s]
    case Some(k) => [s[..k]] + Split(s[k + |sep|..], sep)
  }

  /** `sep.join(parts)`. */
  function Join(parts: seq<string>, sep: string): string
  {
    if |parts| == 0 then ""
    else if |parts| == 1 then parts[0]
    else parts[0] + sep + Join(parts[1..], sep)
  }

  /** A join is empty only when there is nothing to join or a single empty
      part. */
  lemma JoinEmpty(parts: seq<string>, sep: string)
    requires |sep| > 0
    ensures Join(parts, sep) == [] <==> |parts| == 0 || (|parts| == 1 && parts[0] == [])
  {
    if |parts| > 1 {
      assert |Join(parts, sep)| >= |sep|;
    }
  }

  /** A character of `sep` that occurs nowhere else in `sep`. */
  predicate IsMarker(sep: string, m: nat) {
    m < |sep| && forall k :: 0 <= k < |sep| && k != m ==> sep[k] != sep[m]
  }

  lemma NoOccurrenceWithoutMarker(p: string, sep: string, m: nat)
    requires IsMarker(sep, m) && sep[m] !in p
    ensures FindFrom(p, sep, 0) == None
  {
  }

  lemma FirstOccurrenceAfterPart(p: string, sep: string, rest: string, m: nat)
    requires IsMarker(sep, m) && sep[m] !in p
    ensures FindFrom(p + sep + rest, sep, 0) == Some(|p|)
  {
    var s := p + sep + rest;
    assert s[|p|..|p| + |sep|] == sep;
    assert OccursAt(s, sep, |p|);
    forall k | 0 <= k < |p|
      ensures !OccursAt(s, sep, k)
    {
      if k + m < |p| {
        assert s[k + m] == p[k + m];
      } else {
        assert s[k + m] == sep[k + m - |p|];
      }
    }
  }

  /** The first piece of a split ends at the first separator. */
  lemma SplitAfterPart(p: string, sep: string, rest: string, m: nat)
    requires IsMarker(sep, m) && sep[m] !in p
    ensures Split(p + sep + rest, sep) == [p] + Split(rest, sep)
  {
    var s := p + sep + rest;
    FirstOccurrenceAfterPart(p, sep, rest, m);
    assert s[..|p|] == p;
    assert s[|p| + |sep|..] == rest;
  }

  /** Splitting a join gives the parts back, provided the separator has a
      character found nowhere else in it or in the parts. */
  lemma {:induction false} SplitJoin(parts: seq<string>, sep: string, m: nat)
    requires |parts| >= 1 && IsMarker(sep, m)
    requires forall j :: 0 <= j < |parts| ==> sep[m] !in parts[j]
    ensures Split(Join(parts, sep), sep) == parts
  {
    if |parts| == 1 {
      NoOccurrenceWithoutMarker(parts[0], sep, m);
    } else {
      var tail := parts[1..];
      assert Join(parts, sep) == parts[0] + sep + Join(tail, sep);
      SplitAfterPart(parts[0], sep, Join(tail, sep), m);
      assert forall j :: 0 <= j < |tail| ==> tail[j] == parts[j + 1];
      SplitJoin(tail, sep, m);
      assert parts == [parts[0]] + tail;
    }
  }

  /** How many times `c` occurs in `s`. */
  function CountChar(s: string, c: char): nat
  {
    if |s| == 0 then 0 else (if s[0] == c then 1 else 0) + CountChar(s[1..], c)
  }

  lemma {:induction false} CountCharAppend(a: string, b: string, c: char)
    ensures CountChar(a + b, c) == CountChar(a, c) + CountChar(b, c)
  {
    if |a| > 0 {
      assert (a + b)[0] == a[0];
      assert (a + b)[1..] == a[1..] + b;
      assert CountChar(a + b, c) == (if a[0] == c then 1 else 0) + CountChar(a[1..] + b, c);
      CountCharAppend(a[1..], b, c);
    } else {
      assert a + b == b;
    }
  }

  lemma {:induction false} CountCharZero(s: string, c: char)
    requires c !in s
    ensures CountChar(s, c) == 0
  {
    if |s| > 0 {
      assert c !in s[1..];
      CountCharZero(s[1..], c);
    }
  }

  /** Splitting on a one-character separator gives one more piece than there
      are occurrences of that character. */
  lemma {:induction false} SplitCount(s: string, c: char)
    ensures |Split(s, [c])| == CountChar(s, c) + 1
    decreases |s|
  {
    match FindFrom(s, [c], 0)
    case None =>
      assert c !in s by {
        forall k | 0 <= k < |s| ensures s[k] != c {
          assert !OccursAt(s, [c], k);
        }
      }
      CountCharZero(s, c);
    case Some(k) =>
      assert s == s[..k] + [c] + s[k + 1..];
      assert c !in s[..k] by {
        forall j | 0 <= j < k ensures s[j] != c {
          assert !OccursAt(s, [c], j);
        }
      }
      CountCharZero(s[..k], c);
      CountCharAppend(s[..k] + [c], s[k + 1..], c);
      CountCharAppend(s[..k], [c], c);
      SplitCount(s[k + 1..], c);
  }

  predicate StartsWith(s: string, prefix: string) {
    |prefix| <= |s| && s[..|prefix|] == prefix
  }

  predicate EndsWith(s: string, suffix: string) {
    |suffix| <= |s| && s[|s| - |suffix|..] == suffix
  }

  /** The half-open index range `[start, end)` of one run. */
  datatype Span = Span(start: nat, end: nat)

  /** Index just past the run of `inClass` characters that starts at `i`. */
  function RunEnd(s: string, inClass: char -> bool, i: nat): (j: nat)
    requires i <= |s|
    ensures i <= j <= |s|
    ensures forall k :: i <= k < j ==> inClass(s[k])
    ensures j == |s| || !inClass(s[j])
    decreases |s| - i
  {
    if i < |s| && inClass(s[i]) then RunEnd(s, inClass, i + 1) else i
  }

  /** `s[a..b]` is a maximal run of `inClass` characters. */
  predicate IsMaximalRun(s: string, inClass: char -> bool, a: nat, b: nat) {
    && a < b <= |s|
    && (forall k :: a <= k < b ==> inClass(s[k]))
    && (a == 0 || !inClass(s[a - 1]))
    && (b == |s| || !inClass(s[b]))
  }

  /** The maximal runs of `inClass` characters at or after `i`, left to right. */
  function RunSpans(s: string, inClass: char -> bool, i: nat): (r: seq<Span>)
    requires i <= |s|
    requires i == 0 || i == |s| || !inClass(s[i - 1]) || !inClass(s[i])
    ensures forall j :: 0 <= j < |r| ==> i <= r[j].start && IsMaximalRun(s, inClass, r[j].start, r[j].end)
    ensures forall j :: 0 <= j < |r| - 1 ==> r[j].end < r[j + 1].start
    decreases |s| - i
  {
    if i == |s| then []
    else if !inClass(s[i]) then RunSpans(s, inClass, i + 1)
    else
      var j := RunEnd(s, inClass, i);
      [Span(i, j)] + RunSpans(s, inClass, j)
  }

  /** Index `k` lies inside one of the spans. */
  predicate Covers(spans: seq<Span>, k: nat) {
    exists j :: 0 <= j < |spans| && spans[j].start <= k < spans[j].end
  }

  /** No run is missed: every `inClass` character at or after `i` lies in one
      of the spans. */
  lemma {:induction false} RunSpansCover(s: string, inClass: char -> bool, i: nat, k: nat)
    requires i <= |s|
    requires i == 0 || i == |s| || !inClass(s[i - 1]) || !inClass(s[i])
    requires i <= k < |s| && inClass(s[k])
    ensures Covers(RunSpans(s, inClass, i), k)
    decreases |s| - i
  {
    var r := RunSpans(s, inClass, i);
    if !inClass(s[i]) {
      RunSpansCover(s, inClass, i + 1, k);
    } else {
      var j := RunEnd(s, inClass, i);
      if k < j {
        assert r[0].start <= k < r[0].end;
      } else {
        var rest := RunSpans(s, inClass, j);
        RunSpansCover(s, inClass, j, k);
        var t :| 0 <= t < |rest| && rest[t].start <= k < rest[t].end;
        assert r[t + 1] == rest[t];
      }
    }
  }

  /** The text of each maximal run: `re.findall("[class]+", s)`, or
      `s.split()` when the class is "not whitespace". */
  function Runs(s: string, inClass: char -> bool): (r: seq<string>)
    ensures |r| == |RunSpans(s, inClass, 0)|
    ensures forall j :: 0 <= j < |r| ==>
      var sp := RunSpans(s, inClass, 0)[j]; r[j] == s[sp.start..sp.end]
  {
    var spans := RunSpans(s, inClass, 0);
    seq(|spans|, j requires 0 <= j < |spans| => s[spans[j].start..spans[j].end])
  }

  predicate NotSpace(c: char) {
    !IsSpace(c)
  }

  /** Two maximal runs that share a position are the same run. */
  lemma MaximalRunsMeet(s: string, inClass: char -> bool, a: nat, b: nat, c: nat, d: nat, k: nat)
    requires IsMaximalRun(s, inClass, a, b) && IsMaximalRun(s, inClass, c, d)
    requires a <= k < b && c <= k < d
    ensures a == c && b == d
  {
    assert c == 0 || !inClass(s[c - 1]);
    assert a == 0 || !inClass(s[a - 1]);
    assert b == |s| || !inClass(s[b]);
    assert d == |s| || !inClass(s[d]);
  }

  /** Every maximal run is one of the runs `Runs` lists. */
  lemma MaximalRunIsRun(s: string, inClass: char -> bool, a: nat, b: nat)
    requires IsMaximalRun(s, inClass, a, b)
    ensures s[a..b] in Runs(s, inClass)
  {
    var spans := RunSpans(s, inClass, 0);
    RunSpansCover(s, inClass, 0, a);
    var j :| 0 <= j < |spans| && spans[j].start <= a < spans[j].end;
    MaximalRunsMeet(s, inClass, spans[j].start, spans[j].end, a, b, a);
    assert Runs(s, inClass)[j] == s[a..b];
  }

  /** `s.split()`: the maximal runs of non-whitespace characters, in order,
      one token per run. */
  function SplitWhitespace(s: string): (r: seq<string>)
    ensures var spans := RunSpans(s, NotSpace, 0);
      && |r| == |spans|
      && forall j :: 0 <= j < |r| ==> r[j] == s[spans[j].start..spans[j].end]
    ensures forall j :: 0 <= j < |r| ==> |r[j]| > 0 && forall k :: 0 <= k < |r[j]| ==> !IsSpace(r[j][k])
    ensures forall j :: 0 <= j < |r| ==>
      exists a: nat, b: nat :: IsMaximalRun(s, NotSpace, a, b) && r[j] == s[a..b]
  {
    var r := Runs(s, NotSpace);
    assert forall j :: 0 <= j < |r| ==>
      && |r[j]| > 0 && (forall k :: 0 <= k < |r[j]| ==> !IsSpace(r[j][k]))
      && exists a: nat, b: nat :: IsMaximalRun(s, NotSpace, a, b) && r[j] == s[a..b]
    by {
      forall j | 0 <= j < |r|
        ensures |r[j]| > 0 && forall k :: 0 <= k < |r[j]| ==> !IsSpace(r[j][k])
        ensures exists a: nat, b: nat :: IsMaximalRun(s, NotSpace, a, b) && r[j] == s[a..b]
      {
        var sp := RunSpans(s, NotSpace, 0)[j];
        assert IsMaximalRun(s, NotSpace, sp.start, sp.end);
      }
    }
    r
  }

  /** Conversely, every maximal run of non-whitespace characters is a token. */
  lemma MaximalRunIsToken(s: string, a: nat, b: nat)
    requires IsMaximalRun(s, NotSpace, a, b)
    ensures s[a..b] in SplitWhitespace(s)
  {
    MaximalRunIsRun(s, NotSpace, a, b);
  }

  /** The characters of `s` in `inClass`, in order: `re.sub("[^class]", "", s)`.
      Every character of the class is kept, as often as it occurs. */
  function KeepOnly(s: string, inClass: char -> bool): (r: string)
    ensures forall k :: 0 <= k < |r| ==> inClass(r[k])
    ensures Seqs.IsSubsequence(r, s)
    ensures forall c :: multiset(r)[c] == if inClass(c) then multiset(s)[c] else 0
  {
    Seqs.Filter(s, inClass)
  }
}
