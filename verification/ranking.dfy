/** The ordering step of `recommend_events_tool`: every event index paired
    with its score, sorted by score with `reverse=True`, then cut to the
    clamped limit. Python's sort is stable also when reversed, so events with
    equal scores stay in corpus order. */
module Ranking {
  import opened Seqs

  /** Index `i` comes before index `j`: a higher score, or an equal score and
      an earlier position in the corpus. */
  predicate Precedes(scores: seq<real>, i: nat, j: nat)
    requires i < |scores| && j < |scores|
  {
    scores[i] > scores[j] || (scores[i] == scores[j] && i < j)
  }

  /** `order` lists indices of `scores`, each strictly before the next. */
  predicate RankedBy(scores: seq<real>, order: seq<nat>) {
    && (forall k :: 0 <= k < |order| ==> order[k] < |scores|)
    && (forall p, q :: 0 <= p < q < |order| ==> Precedes(scores, order[p], order[q]))
  }

  /** Places index `x` into a ranked list. */
  function Insert(scores: seq<real>, x: nat, order: seq<nat>): (r: seq<nat>)
    requires x < |scores| && RankedBy(scores, order) && x !in order
    ensures RankedBy(scores, r)
    ensures |r| == |order| + 1
    ensures forall k :: k in r <==> k == x || k in order
  {
    if |order| == 0 then [x]
    else if Precedes(scores, x, order[0]) then [x] + order
    else
      var rest := Insert(scores, x, order[1..]);
      assert Precedes(scores, order[0], x);
      assert forall q :: 0 < q < |order| ==> Precedes(scores, order[0], order[q]);
      assert forall k :: k in rest ==> Precedes(scores, order[0], k);
      [order[0]] + rest
  }

  /** The indices `0..n` in ranking order. */
  function RankPrefix(scores: seq<real>, n: nat): (r: seq<nat>)
    requires n <= |scores|
    ensures RankedBy(scores, r)
    ensures |r| == n
    ensures forall k: nat :: k in r <==> k < n
  {
    if n == 0 then []
    else Insert(scores, n - 1, RankPrefix(scores, n - 1))
  }

  /** `scored_events.sort(key=lambda item: item["score"], reverse=True)`,
      as the sorted list of indices. */
  function Rank(scores: seq<real>): (r: seq<nat>)
    ensures RankedBy(scores, r)
    ensures |r| == |scores|
    ensures forall k: nat :: k in r <==> k < |scores|
  {
    RankPrefix(scores, |scores|)
  }

  /** A ranked list never repeats an index. */
  lemma RankedDistinct(scores: seq<real>, order: seq<nat>)
    requires RankedBy(scores, order)
    ensures forall p, q :: 0 <= p < q < |order| ==> order[p] != order[q]
  {
  }

  /** The head of a ranked list precedes every other index in it. */
  lemma HeadPrecedes(scores: seq<real>, order: seq<nat>, k: nat)
    requires RankedBy(scores, order) && |order| > 0
    requires k in order && k != order[0]
    ensures Precedes(scores, order[0], k)
  {
    var p :| 0 <= p < |order| && order[p] == k;
    assert p > 0;
  }

  /** The ranking is the only list of all indices in which each index
      precedes the next: the sort is fully determined by score and corpus
      position. */
  lemma {:induction false} RankedUnique(scores: seq<real>, a: seq<nat>, b: seq<nat>)
    requires RankedBy(scores, a) && RankedBy(scores, b)
    requires forall k :: k in a <==> k in b
    ensures a == b
    decreases |a|
  {
    assert (|a| > 0 ==> a[0] in b) && (|b| > 0 ==> b[0] in a);
    if |a| > 0 && |b| > 0 {
      if a[0] != b[0] {
        HeadPrecedes(scores, b, a[0]);
        HeadPrecedes(scores, a, b[0]);
        assert false;
      }
      forall k ensures k in a[1..] <==> k in b[1..] {
        if k in a[1..] {
          var p :| 1 <= p < |a| && a[p] == k;
          assert Precedes(scores, a[0], a[p]);
          assert k in b;
        }
        if k in b[1..] {
          var q :| 1 <= q < |b| && b[q] == k;
          assert Precedes(scores, b[0], b[q]);
          assert k in a;
        }
      }
      RankedUnique(scores, a[1..], b[1..]);
      assert a == [a[0]] + a[1..];
      assert b == [b[0]] + b[1..];
    }
  }

  /** Scores along the ranking never increase. */
  lemma RankedScoresNonIncreasing(scores: seq<real>, p: nat, q: nat)
    requires p <= q < |scores|
    ensures scores[Rank(scores)[p]] >= scores[Rank(scores)[q]]
  {
  }

  /** Two events with equal scores keep their corpus order. */
  lemma TiesKeepCorpusOrder(scores: seq<real>, p: nat, q: nat)
    requires p < |scores| && q < |scores|
    requires scores[Rank(scores)[p]] == scores[Rank(scores)[q]]
    ensures p < q <==> Rank(scores)[p] < Rank(scores)[q]
  {
    var r := Rank(scores);
    if p < q {
      assert Precedes(scores, r[p], r[q]);
    } else if q < p {
      assert Precedes(scores, r[q], r[p]);
    }
  }

  /** `max(1, min(limit, 5))`. */
  function ClampLimit(limit: int): (r: nat)
    ensures 1 <= r <= 5
    ensures 1 <= limit <= 5 ==> r == limit
    ensures limit < 1 ==> r == 1
    ensures limit > 5 ==> r == 5
  {
    if limit < 1 then 1 else if limit > 5 then 5 else limit
  }

  /** `scored_events[:limit]` after sorting: the indices of the selected
      events. */
  function TopIndices(scores: seq<real>, limit: int): (r: seq<nat>)
    ensures |r| == if ClampLimit(limit) < |scores| then ClampLimit(limit) else |scores|
    ensures r == Rank(scores)[..|r|]
  {
    SliceTo(Rank(scores), ClampLimit(limit))
  }

  /** The selection is a top-k: every selected event scores at least as high
      as every event left out, and on a tie the left-out event comes later in
      the corpus. */
  lemma TopIndicesAreBest(scores: seq<real>, limit: int, i: nat, j: nat)
    requires i in TopIndices(scores, limit)
    requires j < |scores| && j !in TopIndices(scores, limit)
    ensures scores[i] > scores[j] || (scores[i] == scores[j] && i < j)
  {
    var r := Rank(scores);
    var top := TopIndices(scores, limit);
    var p :| 0 <= p < |top| && top[p] == i;
    assert j in r;
    var q :| 0 <= q < |r| && r[q] == j;
    assert forall t :: 0 <= t < |top| ==> top[t] == r[t];
    assert q >= |top|;
    assert r[p] == i;
    assert Precedes(scores, r[p], r[q]);
  }
}
