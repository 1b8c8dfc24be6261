/** The keyword-extraction comparison: the rule-based extractors (Hangul
    runs minus stopwords; the word before a negation marker), the clean-up of
    the model's answer before JSON parsing, and the Jaccard score both are
    measured with. The chat completion and the JSON parser are parameters. */
module Keywords {
  import opened Wrappers
  import opened Seqs
  import opened Text

  /** The regex class `[가-힣]`: the precomposed Hangul syllables
      U+AC00 to U+D7A3. */
  predicate IsHangul(c: char) {
    '\U{AC00}' <= c <= '\U{D7A3}'
  }

  const Stopwords: seq<string> :=
    ["은", "는", "이", "가", "을", "를", "에", "의", "도", "으로", "로",
     "그리고", "하지만", "말고", "위주", "좋은데", "에서", "부터", "까지", "좀", "은데", "에는"]

  /** `w not in stopwords and len(w) > 1`. */
  predicate IsKeyword(w: string) {
    w !in Stopwords && |w| > 1
  }

  /** `extract_keywords_simple(text)`: the Hangul runs of the text, in
      order and with repeats, that are longer than one syllable and not
      stopwords. */
  function ExtractKeywordsSimple(text: string): (r: seq<string>)
    ensures IsSubsequence(r, Runs(text, IsHangul))
    ensures forall w :: w in r <==> w in Runs(text, IsHangul) && IsKeyword(w)
    ensures forall w :: IsKeyword(w) ==> multiset(r)[w] == multiset(Runs(text, IsHangul))[w]
  {
    Filter(Runs(text, IsHangul), IsKeyword)
  }

  /** Every keyword is a maximal run of Hangul syllables in the text. */
  lemma KeywordIsMaximalRun(text: string, w: string)
    requires w in ExtractKeywordsSimple(text)
    ensures IsKeyword(w)
    ensures exists a: nat, b: nat :: a < b <= |text| && IsMaximalRun(text, IsHangul, a, b) && w == text[a..b]
  {
    var runs := Runs(text, IsHangul);
    var spans := RunSpans(text, IsHangul, 0);
    var j :| 0 <= j < |runs| && runs[j] == w;
    assert IsMaximalRun(text, IsHangul, spans[j].start, spans[j].end);
  }

  /** Conversely, every maximal Hangul run of two or more syllables that is
      not a stopword is extracted. */
  lemma MaximalRunIsKeyword(text: string, a: nat, b: nat)
    requires IsMaximalRun(text, IsHangul, a, b)
    requires IsKeyword(text[a..b])
    ensures text[a..b] in ExtractKeywordsSimple(text)
  {
    MaximalRunIsRun(text, IsHangul, a, b);
  }

  /** `any(kw in word for kw in ['말고', '빼줘', '싫', '제외'])`. */
  predicate HasMarker(word: string) {
    Contains(word, "말고") || Contains(word, "빼줘") || Contains(word, "싫") || Contains(word, "제외")
  }

  /** `re.sub(r'[^가-힣]', '', word)`: every Hangul syllable of the word,
      in order, and nothing else. */
  function HangulOnly(word: string): (r: string)
    ensures forall k :: 0 <= k < |r| ==> IsHangul(r[k])
    ensures IsSubsequence(r, word)
    ensures forall c :: IsHangul(c) ==> multiset(r)[c] == multiset(word)[c]
  {
    KeepOnly(word, IsHangul)
  }

  /** Word `i` passes the marker test, so `e`, the cleaned word `i - 1`, is
      excluded. */
  predicate ExcludedBy(words: seq<string>, marked: string -> bool, clean: string -> string, i: nat, e: string)
    requires 1 <= i < |words|
  {
    marked(words[i]) && e == clean(words[i - 1])
  }

  /** The entries the loop of `extract_excluded_simple` appends for the
      words at indices `1..n-1`, for the marker test `marked` and the
      clean-up `clean`. */
  function ExcludedUpTo(words: seq<string>, marked: string -> bool, clean: string -> string, n: nat): (r: seq<string>)
    requires n <= |words|
    ensures |r| <= if n == 0 then 0 else n - 1
  {
    if n <= 1 then []
    else
      var rest := ExcludedUpTo(words, marked, clean, n - 1);
      rest + (if marked(words[n - 1]) then [clean(words[n - 2])] else [])
  }

  /** `e` is an entry exactly when it is the cleaned form of a word whose
      successor passes the marker test. */
  lemma {:induction false} ExcludedUpToMember(words: seq<string>, marked: string -> bool, clean: string -> string,
                                              n: nat, e: string)
    requires n <= |words|
    ensures e in ExcludedUpTo(words, marked, clean, n) <==>
      exists i: nat :: 1 <= i < n && ExcludedBy(words, marked, clean, i, e)
  {
    if n > 1 {
      ExcludedUpToMember(words, marked, clean, n - 1, e);
      var rest := ExcludedUpTo(words, marked, clean, n - 1);
      var last := if marked(words[n - 1]) then [clean(words[n - 2])] else [];
      assert ExcludedUpTo(words, marked, clean, n) == rest + last;
      if marked(words[n - 1]) && e == clean(words[n - 2]) {
        assert ExcludedBy(words, marked, clean, n - 1, e);
      }
    }
  }

  /** The members of the whole loop's result. */
  lemma ExcludedUpToMembers(words: seq<string>, marked: string -> bool, clean: string -> string, n: nat)
    requires n <= |words|
    ensures forall e :: e in ExcludedUpTo(words, marked, clean, n) <==>
      exists i: nat :: 1 <= i < n && ExcludedBy(words, marked, clean, i, e)
  {
    forall e ensures e in ExcludedUpTo(words, marked, clean, n) <==>
      exists i: nat :: 1 <= i < n && ExcludedBy(words, marked, clean, i, e)
    {
      ExcludedUpToMember(words, marked, clean, n, e);
    }
  }

  /** The indices `1..n-1` whose word passes the marker test, ascending. */
  function MarkedPositions(words: seq<string>, marked: string -> bool, n: nat): (r: seq<nat>)
    requires n <= |words|
    ensures forall p :: 0 <= p < |r| ==> 1 <= r[p] < n && marked(words[r[p]])
  {
    if n <= 1 then []
    else MarkedPositions(words, marked, n - 1) + (if marked(words[n - 1]) then [n - 1] else [])
  }

  /** The marked positions are ascending and none is missed. */
  lemma {:induction false} MarkedPositionsComplete(words: seq<string>, marked: string -> bool, n: nat)
    requires n <= |words|
    ensures forall p, q :: 0 <= p < q < |MarkedPositions(words, marked, n)| ==>
      MarkedPositions(words, marked, n)[p] < MarkedPositions(words, marked, n)[q]
    ensures forall i :: 1 <= i < n && marked(words[i]) ==> i in MarkedPositions(words, marked, n)
  {
    if n > 1 {
      MarkedPositionsComplete(words, marked, n - 1);
    }
  }

  /** One entry per marked word. */
  lemma {:induction false} ExcludedUpToCount(words: seq<string>, marked: string -> bool, clean: string -> string, n: nat)
    requires n <= |words|
    ensures |ExcludedUpTo(words, marked, clean, n)| == |MarkedPositions(words, marked, n)|
  {
    if n > 1 {
      ExcludedUpToCount(words, marked, clean, n - 1);
    }
  }

  /** Entry `p` is the cleaned predecessor of the `p`-th marked word. */
  lemma {:induction false} ExcludedUpToAt(words: seq<string>, marked: string -> bool, clean: string -> string, n: nat, p: nat)
    requires n <= |words|
    requires p < |MarkedPositions(words, marked, n)|
    ensures p < |ExcludedUpTo(words, marked, clean, n)|
    ensures ExcludedUpTo(words, marked, clean, n)[p] == clean(words[MarkedPositions(words, marked, n)[p] - 1])
  {
    ExcludedUpToCount(words, marked, clean, n);
    ExcludedUpToCount(words, marked, clean, n - 1);
    var rest := ExcludedUpTo(words, marked, clean, n - 1);
    var marks := MarkedPositions(words, marked, n - 1);
    var last := if marked(words[n - 1]) then [clean(words[n - 2])] else [];
    var lastMark := if marked(words[n - 1]) then [n - 1] else [];
    assert ExcludedUpTo(words, marked, clean, n) == rest + last;
    assert MarkedPositions(words, marked, n) == marks + lastMark;
    if p < |marks| {
      ExcludedUpToAt(words, marked, clean, n - 1, p);
      assert (rest + last)[p] == rest[p];
      assert (marks + lastMark)[p] == marks[p];
    } else {
      assert marked(words[n - 1]) && p == |rest|;
      assert (rest + last)[p] == clean(words[n - 2]);
      assert (marks + lastMark)[p] == n - 1;
    }
  }

  /** Entry `p` of the loop's result is the cleaned predecessor of the
      `p`-th marked word: one entry per marked word, in order. */
  lemma ExcludedUpToPositions(words: seq<string>, marked: string -> bool, clean: string -> string, n: nat)
    requires n <= |words|
    ensures |ExcludedUpTo(words, marked, clean, n)| == |MarkedPositions(words, marked, n)|
    ensures forall p :: 0 <= p < |MarkedPositions(words, marked, n)| ==>
      ExcludedUpTo(words, marked, clean, n)[p] == clean(words[MarkedPositions(words, marked, n)[p] - 1])
  {
    ExcludedUpToCount(words, marked, clean, n);
    forall p | 0 <= p < |MarkedPositions(words, marked, n)|
      ensures ExcludedUpTo(words, marked, clean, n)[p] == clean(words[MarkedPositions(words, marked, n)[p] - 1])
    {
      ExcludedUpToAt(words, marked, clean, n, p);
    }
  }

  /** `extract_excluded_simple(text)`: for every whitespace-separated word
      after the first that contains a negation marker, the preceding word
      with everything but Hangul removed. The first word never triggers, so
      there is at most one entry per word after it, and entry `p` comes
      from the `p`-th marked word. */
  function ExtractExcludedSimple(text: string): (r: seq<string>)
    ensures |r| <= if |SplitWhitespace(text)| == 0 then 0 else |SplitWhitespace(text)| - 1
    ensures var marks := MarkedPositions(SplitWhitespace(text), HasMarker, |SplitWhitespace(text)|);
      |r| == |marks| && forall p :: 0 <= p < |marks| ==> r[p] == HangulOnly(SplitWhitespace(text)[marks[p] - 1])
    ensures forall e :: e in r <==>
      exists i: nat :: 1 <= i < |SplitWhitespace(text)| && ExcludedBy(SplitWhitespace(text), HasMarker, HangulOnly, i, e)
    ensures forall e :: e in r ==> forall k :: 0 <= k < |e| ==> IsHangul(e[k])
  {
    var words := SplitWhitespace(text);
    ExcludedUpToMembers(words, HasMarker, HangulOnly, |words|);
    ExcludedUpToPositions(words, HasMarker, HangulOnly, |words|);
    ExcludedUpTo(words, HasMarker, HangulOnly, |words|)
  }

  /** A word carrying a marker puts its predecessor's Hangul into the
      result; the first word's marker is ignored. */
  lemma MarkerExcludesPrevious(text: string, i: nat)
    requires 1 <= i < |SplitWhitespace(text)| && HasMarker(SplitWhitespace(text)[i])
    ensures HangulOnly(SplitWhitespace(text)[i - 1]) in ExtractExcludedSimple(text)
  {
    assert ExcludedBy(SplitWhitespace(text), HasMarker, HangulOnly, i, HangulOnly(SplitWhitespace(text)[i - 1]));
  }

  /** `jaccard_similarity(set1, set2)`: 1 for two empty sets, else the size
      of the intersection over the size of the union. */
  function Jaccard(a: set<string>, b: set<string>): (r: real)
    ensures a == {} && b == {} ==> r == 1.0
    ensures a != {} || b != {} ==> r * (|a + b| as real) == |a * b| as real
  {
    if a == {} && b == {} then 1.0
    else
      var union := |a + b|;
      if union != 0 then (|a * b| as real) / (union as real) else 0.0
  }

  /** A ratio of a count to a larger positive count. */
  lemma Ratio(i: nat, u: nat)
    requires 0 < u && i <= u
    ensures 0.0 <= i as real / u as real <= 1.0
    ensures i as real / u as real == 1.0 <==> i == u
    ensures i as real / u as real == 0.0 <==> i == 0
  {
    var r := i as real / u as real;
    assert r * (u as real) == i as real;
  }

  /** The intersection is never larger than the union, and as large only
      when the sets are equal. */
  lemma IntersectionWithinUnion(a: set<string>, b: set<string>)
    ensures |a * b| <= |a + b|
    ensures |a * b| == |a + b| ==> a == b
  {
    assert |a + b| == |a - b| + |b - a| + |a * b|;
    if |a * b| == |a + b| {
      assert a - b == {};
      assert b - a == {};
    }
  }

  /** The score lies in [0, 1], is 1 exactly for equal sets, and 0 exactly
      for disjoint sets that are not both empty. */
  lemma JaccardRange(a: set<string>, b: set<string>)
    ensures 0.0 <= Jaccard(a, b) <= 1.0
    ensures Jaccard(a, b) == 1.0 <==> a == b
    ensures Jaccard(a, b) == 0.0 <==> a * b == {} && (a != {} || b != {})
  {
    if a != {} || b != {} {
      IntersectionWithinUnion(a, b);
      var x :| x in a + b;
      assert |a + b| > 0;
      Ratio(|a * b|, |a + b|);
      if a == b {
        assert a * b == a + b;
      }
    }
  }

  lemma JaccardSymmetric(a: set<string>, b: set<string>)
    ensures Jaccard(a, b) == Jaccard(b, a)
  {
    assert a + b == b + a && a * b == b * a;
  }

  /** The per-sentence accuracy: the mean of the keyword and the exclusion
      scores against the ground truth. */
  function SentenceScore(truthKeywords: set<string>, truthExcluded: set<string>,
                         keywords: set<string>, excluded: set<string>): (r: real)
    ensures 0.0 <= r <= 1.0
    ensures r == 1.0 <==> truthKeywords == keywords && truthExcluded == excluded
  {
    JaccardRange(truthKeywords, keywords);
    JaccardRange(truthExcluded, excluded);
    (Jaccard(truthKeywords, keywords) + Jaccard(truthExcluded, excluded)) / 2.0
  }

  /** `re.sub(r"^```(json)?", "", s)`: one leading fence, with its `json`
      tag when present. */
  function DropOpeningFence(s: string): (r: string)
    ensures StartsWith(s, "```json") ==> r == s[7..]
    ensures !StartsWith(s, "```json") && StartsWith(s, "```") ==> r == s[3..]
    ensures !StartsWith(s, "```") ==> r == s
  {
    if StartsWith(s, "```json") then s[7..]
    else if StartsWith(s, "```") then s[3..]
    else s
  }

  /** `re.sub(r"```$", "", s)`: a fence at the very end, or just before a
      final newline (where `$` also matches). */
  function DropClosingFence(s: string): (r: string)
    ensures EndsWith(s, "```") ==> r == s[..|s| - 3]
    ensures !EndsWith(s, "```") && EndsWith(s, "```\n") ==> r == s[..|s| - 4] + "\n"
    ensures !EndsWith(s, "```") && !EndsWith(s, "```\n") ==> r == s
  {
    if EndsWith(s, "```") then s[..|s| - 3]
    else if EndsWith(s, "```\n") then s[..|s| - 4] + "\n"
    else s
  }

  /** Index of the first occurrence of `c`. */
  function FirstIndex(s: string, c: char): (r: Option<nat>)
    ensures r.Some? ==> r.value < |s| && s[r.value] == c && forall k :: 0 <= k < r.value ==> s[k] != c
    ensures r.None? ==> forall k :: 0 <= k < |s| ==> s[k] != c
  {
    if |s| == 0 then None
    else if s[0] == c then Some(0)
    else
      match FirstIndex(s[1..], c)
      case None => None
      case Some(i) => Some(i + 1)
  }

  /** Index of the last occurrence of `c`. */
  function LastIndex(s: string, c: char): (r: Option<nat>)
    ensures r.Some? ==> r.value < |s| && s[r.value] == c && forall k :: r.value < k < |s| ==> s[k] != c
    ensures r.None? ==> forall k :: 0 <= k < |s| ==> s[k] != c
  {
    if |s| == 0 then None
    else if s[|s| - 1] == c then Some(|s| - 1)
    else LastIndex(s[..|s| - 1], c)
  }

  /** `re.search(r"\{[\s\S]*\}", s)`: from the first `{` to the last `}`
      after it, or nothing when no `}` follows a `{`. */
  function BraceSpan(s: string): (r: Option<string>)
    ensures r.None? <==> !exists i, j :: 0 <= i < j < |s| && s[i] == '{' && s[j] == '}'
    ensures r.Some? ==> exists i, j ::
      (&& 0 <= i < j < |s| && r.value == s[i..j + 1]
       && s[i] == '{' && s[j] == '}'
       && (forall k :: 0 <= k < i ==> s[k] != '{')
       && (forall k :: j < k < |s| ==> s[k] != '}'))
  {
    match (FirstIndex(s, '{'), LastIndex(s, '}'))
    case (Some(i), Some(j)) => if i < j then Some(s[i..j + 1]) else None
    case _ => None
  }

  /** What `extract_keywords_ai` returns: the parsed data, or the fallback
      `{"keywords": [], "excluded": []}`. */
  datatype AiKeywords<J> = Parsed(data: J) | Fallback

  /** The text `extract_keywords_ai` searches for a JSON object: the
      stripped answer without its fences, stripped again. */
  function CleanAnswer(content: string): string {
    Strip(DropClosingFence(DropOpeningFence(Strip(content))))
  }

  /** The post-processing of `extract_keywords_ai` on the answer's content:
      the brace span of the cleaned answer, parsed; the fallback when there
      is no span or it does not parse. */
  function ExtractKeywordsAi<J>(content: string, parse: string -> Option<J>): (r: AiKeywords<J>)
    ensures r.Fallback? <==> BraceSpan(CleanAnswer(content)).None? || parse(BraceSpan(CleanAnswer(content)).value).None?
    ensures r.Parsed? ==> exists span :: BraceSpan(CleanAnswer(content)) == Some(span) && parse(span) == Some(r.data)
  {
    match BraceSpan(CleanAnswer(content))
    case None => Fallback
    case Some(span) =>
      match parse(span)
      case None => Fallback
      case Some(data) => Parsed(data)
  }

  lemma {:induction false} StripLeftPadded(pre: string, t: string)
    requires AllSpace(pre)
    requires t == [] || !IsSpace(t[0])
    ensures StripLeft(pre + t) == t
  {
    if |pre| > 0 {
      assert (pre + t)[1..] == pre[1..] + t;
      StripLeftPadded(pre[1..], t);
    }
  }

  lemma {:induction false} StripRightPadded(t: string, post: string)
    requires AllSpace(post)
    requires t == [] || !IsSpace(t[|t| - 1])
    ensures StripRight(t + post) == t
  {
    if |post| > 0 {
      var init := post[..|post| - 1];
      assert (t + post)[..|t + post| - 1] == t + init;
      StripRightPadded(t, init);
    }
  }

  /** Stripping a text padded with whitespace gives back the text. */
  lemma StripPadded(pre: string, t: string, post: string)
    requires AllSpace(pre) && AllSpace(post)
    requires |t| > 0 && !IsSpace(t[0]) && !IsSpace(t[|t| - 1])
    ensures Strip(pre + t + post) == t
  {
    assert pre + t + post == pre + (t + post);
    StripLeftPadded(pre, t + post);
    StripRightPadded(t, post);
  }

  /** A bare object is left as it is by the clean-up. */
  lemma CleanBareObject(body: string)
    requires |body| > 0 && body[0] == '{' && body[|body| - 1] == '}'
    ensures CleanAnswer(body) == body
  {
    StripPadded([], body, []);
    assert [] + body + [] == body;
    assert DropOpeningFence(body) == body;
    assert DropClosingFence(body) == body;
  }

  /** The opening fence with its tag and newline, and the closing fence
      after a newline, as the model writes them around a json block. */
  const OpenFence: string := "```json\n"
  const CloseFence: string := "\n```"

  lemma StripFenced(body: string)
    ensures Strip(OpenFence + body + CloseFence) == OpenFence + body + CloseFence
  {
    var fenced := OpenFence + body + CloseFence;
    assert fenced[0] == '`' && fenced[|fenced| - 1] == '`';
    StripPadded([], fenced, []);
    assert [] + fenced + [] == fenced;
  }

  lemma DropFences(body: string)
    ensures DropClosingFence(DropOpeningFence(OpenFence + body + CloseFence)) == "\n" + body + "\n"
  {
    var fenced := OpenFence + body + CloseFence;
    var inner := "\n" + body + CloseFence;
    assert fenced[..7] == "```json";
    assert fenced[7..] == inner;
    assert inner[|inner| - 3..] == "```";
    assert inner[..|inner| - 3] == "\n" + body + "\n";
  }

  /** A body between two newlines strips to itself. */
  lemma StripNewlines(body: string)
    requires |body| > 0 && body[0] == '{' && body[|body| - 1] == '}'
    ensures Strip("\n" + body + "\n") == body
  {
    assert AllSpace("\n");
    StripPadded("\n", body, "\n");
  }

  /** The clean-up of a fenced block comes down to stripping the newlines
      inside the fences. */
  lemma CleanFencedIsPadded(body: string)
    ensures CleanAnswer(OpenFence + body + CloseFence) == Strip("\n" + body + "\n")
  {
    StripFenced(body);
    DropFences(body);
  }

  /** The fences, the `json` tag and the newlines around an object are
      removed by the clean-up. */
  lemma CleanFencedObject(body: string)
    requires |body| > 0 && body[0] == '{' && body[|body| - 1] == '}'
    ensures CleanAnswer(OpenFence + body + CloseFence) == body
  {
    CleanFencedIsPadded(body);
    StripNewlines(body);
  }

  /** An answer fenced as a json code block is read exactly like the bare
      object. */
  lemma FencedAnswerReadsLikeBare<J>(body: string, parse: string -> Option<J>)
    requires |body| > 0 && body[0] == '{' && body[|body| - 1] == '}'
    ensures ExtractKeywordsAi(OpenFence + body + CloseFence, parse) == ExtractKeywordsAi(body, parse)
  {
    CleanBareObject(body);
    CleanFencedObject(body);
  }

  /** `FirstIndex` finds an occurrence with none before it. */
  lemma FirstIndexAt(s: string, c: char, i: nat)
    requires i < |s| && s[i] == c
    requires forall k :: 0 <= k < i ==> s[k] != c
    ensures FirstIndex(s, c) == Some(i)
  {
  }

  /** `LastIndex` finds an occurrence with none after it. */
  lemma LastIndexAt(s: string, c: char, j: nat)
    requires j < |s| && s[j] == c
    requires forall k :: j < k < |s| ==> s[k] != c
    ensures LastIndex(s, c) == Some(j)
  {
  }

  /** The object is found inside surrounding prose that has no `{` before
      it and no `}` after it. */
  lemma BraceSpanFindsObject(pre: string, obj: string, post: string)
    requires |obj| >= 2 && obj[0] == '{' && obj[|obj| - 1] == '}'
    requires forall k :: 0 <= k < |pre| ==> pre[k] != '{'
    requires forall k :: 0 <= k < |post| ==> post[k] != '}'
    ensures BraceSpan(pre + obj + post) == Some(obj)
  {
    var s := pre + obj + post;
    var i, j := |pre|, |pre| + |obj| - 1;
    assert forall k :: 0 <= k < i ==> s[k] == pre[k];
    FirstIndexAt(s, '{', i);
    assert forall k :: j < k < |s| ==> s[k] == post[k - j - 1];
    LastIndexAt(s, '}', j);
    assert s[i..j + 1] == obj;
  }
}
