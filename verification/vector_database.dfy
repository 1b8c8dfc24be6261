/** The FAISS variant's vector database: event texts embedded in batches of
    50 with a per-text fallback, a cache accepted only when it holds one
    vector per event, and `search_similar_events`, which keeps the in-range
    hits of the index search and falls back to the first events. The
    embedding endpoint and the index search are parameters; the L2 search
    itself is outside the model. */
module VectorDatabase {
  import opened Wrappers
  import opened Seqs
  import opened Values
  import opened Documents
  import opened Similarity

  /** The width of the fallback vector, that of `text-embedding-3-small`. */
  const Dimension: nat := 1536
  const BatchSize: nat := 50

  /** The embeddings endpoint on a list of texts: the vectors of the
      response's `data`, or `None` when the request raises. */
  type TextEmbedder = seq<string> -> Option<seq<Vector>>

  /** `[0.0] * n`. */
  function ZeroVector(n: nat): (r: Vector)
    ensures |r| == n
    ensures forall i :: 0 <= i < n ==> r[i] == 0.0
  {
    seq(n, i => 0.0)
  }

  /** `get_embedding(text)`: the first vector of the response, or the zero
      vector when the request raises or its `data` is empty. */
  function GetEmbedding(text: string, embed: TextEmbedder): (r: Vector)
    ensures (embed([text]).Some? && |embed([text]).value| > 0) ==> r == embed([text]).value[0]
    ensures (embed([text]).None? || |embed([text]).value| == 0) ==> r == ZeroVector(Dimension)
  {
    match embed([text])
    case Some(vs) => if |vs| > 0 then vs[0] else ZeroVector(Dimension)
    case None => ZeroVector(Dimension)
  }

  /** `[create_event_text(event) for event in batch]`. */
  function TextsOf(batch: seq<Event>): (r: seq<string>)
    ensures |r| == |batch|
  {
    seq(|batch|, i requires 0 <= i < |batch| => CreateEventText(batch[i]))
  }

  /** The vectors one batch contributes: the response's vectors, or one
      `get_embedding` per text when the batch request raises. */
  function BatchVectors(batch: seq<Event>, embed: TextEmbedder): (r: seq<Vector>)
    ensures embed(TextsOf(batch)).Some? ==> r == embed(TextsOf(batch)).value
    ensures embed(TextsOf(batch)).None? ==>
      |r| == |batch| && forall k :: 0 <= k < |batch| ==> r[k] == GetEmbedding(TextsOf(batch)[k], embed)
  {
    var texts := TextsOf(batch);
    match embed(texts)
    case Some(vs) => vs
    case None => seq(|texts|, k requires 0 <= k < |texts| => GetEmbedding(texts[k], embed))
  }

  /** Reference for the batch loop: every batch's vectors in batch order. */
  function Rebuild(bs: seq<seq<Event>>, embed: TextEmbedder): seq<Vector>
  {
    if |bs| == 0 then [] else Rebuild(bs[..|bs| - 1], embed) + BatchVectors(bs[|bs| - 1], embed)
  }

  /** An endpoint that, whenever it answers, answers with one vector of the
      model's width per text. */
  ghost predicate WellBehaved(embed: TextEmbedder) {
    forall texts :: embed(texts).Some? ==>
      |embed(texts).value| == |texts| && forall k :: 0 <= k < |texts| ==> |embed(texts).value[k]| == Dimension
  }

  /** All vectors have the width `width`. */
  predicate AllOfWidth(vs: seq<Vector>, width: nat) {
    forall k :: 0 <= k < |vs| ==> |vs[k]| == width
  }

  /** The fallback keeps the count: from a well-behaved endpoint every batch
      contributes one vector per event, all of the model's width, whether
      its request raised or not. */
  lemma BatchVectorsShape(batch: seq<Event>, embed: TextEmbedder)
    requires WellBehaved(embed)
    ensures |BatchVectors(batch, embed)| == |batch|
    ensures AllOfWidth(BatchVectors(batch, embed), Dimension)
  {
    var texts := TextsOf(batch);
    if embed(texts).None? {
      forall k | 0 <= k < |texts| ensures |GetEmbedding(texts[k], embed)| == Dimension {
        var one := embed([texts[k]]);
        if one.Some? && |one.value| > 0 {
          assert |one.value[0]| == Dimension;
        }
      }
    }
  }

  /** The rebuilt list from a well-behaved endpoint has one vector per
      event, all of the model's width. */
  lemma {:induction false} RebuildShape(bs: seq<seq<Event>>, embed: TextEmbedder)
    requires WellBehaved(embed)
    ensures |Rebuild(bs, embed)| == |Flatten(bs)|
    ensures AllOfWidth(Rebuild(bs, embed), Dimension)
  {
    if |bs| > 0 {
      var init := bs[..|bs| - 1];
      RebuildShape(init, embed);
      BatchVectorsShape(bs[|bs| - 1], embed);
      assert bs == init + [bs[|bs| - 1]];
      FlattenAppend(init, bs[|bs| - 1]);
    }
  }

  /** The batch loop of `build_vector_database`. */
  method CreateEmbeddings(events: seq<Event>, embed: TextEmbedder) returns (vectors: seq<Vector>)
    ensures vectors == Rebuild(Batches(events, BatchSize), embed)
    ensures WellBehaved(embed) ==> |vectors| == |events| && AllOfWidth(vectors, Dimension)
  {
    var batches := Batches(events, BatchSize);
    vectors := [];
    var j := 0;
    while j < |batches|
      invariant 0 <= j <= |batches|
      invariant vectors == Rebuild(batches[..j], embed)
    {
      assert batches[..j + 1][..j] == batches[..j];
      vectors := vectors + BatchVectors(batches[j], embed);
      j := j + 1;
    }
    assert batches[..j] == batches;
    if WellBehaved(embed) {
      RebuildShape(batches, embed);
    }
  }

  /** `np.array(vectors)` has a second axis: a non-empty list of vectors of
      one width. A ragged list makes the conversion raise. */
  predicate Matrix(vs: seq<Vector>) {
    |vs| > 0 && AllOfWidth(vs, |vs[0]|)
  }

  /** The cache's list is used: one vector per event, convertible to a
      matrix. Anything else (no file, a decoding error, a ragged list, a
      count mismatch) falls through to a rebuild. */
  predicate CacheUsable(cache: Option<seq<Vector>>, events: seq<Event>) {
    cache.Some? && |cache.value| == |events| && Matrix(cache.value)
  }

  /** What `build_vector_database` left behind. `Failed` is the exception
      the conversion of a ragged rebuilt list lets escape. */
  datatype Build = Skipped | FromCache(index: seq<Vector>) | Rebuilt(index: seq<Vector>) | Failed

  /** `build_vector_database()`. `cache` is the `embeddings` list of the
      cache file when it exists and decodes. */
  method BuildVectorDatabase(events: seq<Event>, hasClient: bool, cache: Option<seq<Vector>>, embed: TextEmbedder)
    returns (b: Build)
    ensures !hasClient || |events| == 0 ==> b == Skipped
    ensures hasClient && |events| > 0 && CacheUsable(cache, events) ==> b == FromCache(cache.value)
    ensures hasClient && |events| > 0 && !CacheUsable(cache, events) ==>
      && (b.Rebuilt? || b.Failed?)
      && (b.Rebuilt? <==> Matrix(Rebuild(Batches(events, BatchSize), embed)))
      && (b.Rebuilt? ==> b.index == Rebuild(Batches(events, BatchSize), embed))
    ensures b.FromCache? || b.Rebuilt? ==> Matrix(b.index)
    ensures hasClient && |events| > 0 && WellBehaved(embed) ==>
      (b.FromCache? || b.Rebuilt?) && |b.index| == |events|
  {
    if !hasClient || |events| == 0 {
      return Skipped;
    }
    if CacheUsable(cache, events) {
      return FromCache(cache.value);
    }
    var vectors := CreateEmbeddings(events, embed);
    if !Matrix(vectors) {
      return Failed;
    }
    return Rebuilt(vectors);
  }

  /** The startup of the FAISS variant after the corpora are read: a failed
      build empties both corpora and leaves no index. */
  method LoadVectorDatabase(events: seq<Event>, eventsEn: seq<Event>, hasClient: bool,
                            cache: Option<seq<Vector>>, embed: TextEmbedder)
    returns (korean: seq<Event>, english: seq<Event>, index: Option<seq<Vector>>)
    ensures index.Some? ==> korean == events && english == eventsEn && |korean| > 0 && Matrix(index.value)
    ensures index.None? ==> (korean == events && english == eventsEn) || (korean == [] && english == [])
    ensures hasClient && |events| > 0 && WellBehaved(embed) ==>
      korean == events && english == eventsEn && index.Some? && |index.value| == |events|
    ensures !hasClient || |events| == 0 ==> korean == events && english == eventsEn && index.None?
    ensures hasClient && |events| > 0 && CacheUsable(cache, events) ==>
      korean == events && english == eventsEn && index == Some(cache.value)
    ensures hasClient && |events| > 0 && !CacheUsable(cache, events) ==>
      var rebuilt := Rebuild(Batches(events, BatchSize), embed);
      if Matrix(rebuilt) then korean == events && english == eventsEn && index == Some(rebuilt)
      else korean == [] && english == [] && index.None?
  {
    var b := BuildVectorDatabase(events, hasClient, cache, embed);
    match b
    case Failed => return [], [], None;
    case Skipped => return events, eventsEn, None;
    case FromCache(vs) => return events, eventsEn, Some(vs);
    case Rebuilt(vs) => return events, eventsEn, Some(vs);
  }

  /** `0 <= idx < len(events_data)`. */
  predicate InRange(events: seq<Event>, idx: int) {
    0 <= idx < |events|
  }

  /** `InRange` as a filter test. */
  function InRangeOf(events: seq<Event>): int -> bool {
    idx => InRange(events, idx)
  }

  /** The hits of the index search that name an event, in search order. */
  function Hits(events: seq<Event>, ids: seq<int>): (r: seq<Event>)
    ensures |r| <= |ids|
    ensures forall x :: x in r ==> x in events
    ensures (forall j :: 0 <= j < |ids| ==> InRange(events, ids[j])) ==>
      |r| == |ids| && forall j :: 0 <= j < |ids| ==> r[j] == events[ids[j]]
    ensures (forall j :: 0 <= j < |ids| ==> !InRange(events, ids[j])) ==> r == []
  {
    if |ids| == 0 then []
    else (if InRange(events, ids[0]) then [events[ids[0]]] else []) + Hits(events, ids[1..])
  }

  /** One hit per in-range id. */
  lemma {:induction false} HitsCount(events: seq<Event>, ids: seq<int>)
    ensures |Hits(events, ids)| == |Filter(ids, InRangeOf(events))|
  {
    if |ids| > 0 {
      HitsCount(events, ids[1..]);
      if InRange(events, ids[0]) {
        assert Filter(ids, InRangeOf(events)) == [ids[0]] + Filter(ids[1..], InRangeOf(events));
      } else {
        assert Filter(ids, InRangeOf(events)) == Filter(ids[1..], InRangeOf(events));
      }
    }
  }

  /** Hit `p` is the event named by the `p`-th in-range id. */
  lemma {:induction false} HitAt(events: seq<Event>, ids: seq<int>, p: nat)
    requires p < |Filter(ids, InRangeOf(events))|
    ensures InRange(events, Filter(ids, InRangeOf(events))[p])
    ensures p < |Hits(events, ids)| && Hits(events, ids)[p] == events[Filter(ids, InRangeOf(events))[p]]
  {
    var kept := Filter(ids, InRangeOf(events));
    assert kept[p] in kept;
    HitsCount(events, ids);
    var rest := Hits(events, ids[1..]);
    var keptRest := Filter(ids[1..], InRangeOf(events));
    if InRange(events, ids[0]) {
      assert kept == [ids[0]] + keptRest;
      assert Hits(events, ids) == [events[ids[0]]] + rest;
      if p > 0 {
        HitAt(events, ids[1..], p - 1);
      }
    } else {
      assert kept == keptRest;
      assert Hits(events, ids) == rest;
      HitAt(events, ids[1..], p);
    }
  }

  /** Hit `p` is the event named by the `p`-th in-range id: out-of-range
      ids are skipped and nothing else is. */
  lemma HitsFollowInRangeIds(events: seq<Event>, ids: seq<int>)
    ensures var kept := Filter(ids, InRangeOf(events));
      |Hits(events, ids)| == |kept| &&
      forall p :: 0 <= p < |kept| ==> InRange(events, kept[p]) && Hits(events, ids)[p] == events[kept[p]]
  {
    HitsCount(events, ids);
    forall p | 0 <= p < |Filter(ids, InRangeOf(events))|
      ensures InRange(events, Filter(ids, InRangeOf(events))[p])
      ensures Hits(events, ids)[p] == events[Filter(ids, InRangeOf(events))[p]]
    {
      HitAt(events, ids, p);
    }
  }

  /** The FAISS search: the ids of the `k` nearest vectors to the query, or
      `None` when it raises. */
  type Searcher = (seq<Vector>, Vector, int) -> Option<seq<int>>

  /** `search_similar_events(query, top_k)`: without an index or client, or
      when the search raises, the first `top_k` events; otherwise the events
      the search names, in its order, skipping ids outside the corpus. */
  function SearchSimilarEvents(query: string, topK: int, events: seq<Event>, index: Option<seq<Vector>>,
                               hasClient: bool, embed: TextEmbedder, search: Searcher): (r: seq<Event>)
    ensures index.None? || !hasClient ==> r == SliceTo(events, topK)
    ensures index.Some? && hasClient ==>
      var k := if topK < |events| then topK else |events|;
      match search(index.value, GetEmbedding(query, embed), k)
      case None => r == SliceTo(events, topK)
      case Some(ids) =>
        && |r| <= |ids|
        && (forall x :: x in r ==> x in events)
        && (var kept := Filter(ids, InRangeOf(events));
            |r| == |kept| && forall p :: 0 <= p < |kept| ==> InRange(events, kept[p]) && r[p] == events[kept[p]])
        && ((forall j :: 0 <= j < |ids| ==> InRange(events, ids[j])) ==>
              |r| == |ids| && forall j :: 0 <= j < |ids| ==> r[j] == events[ids[j]])
    ensures forall x :: x in r ==> x in events
  {
    if index.None? || !hasClient then SliceTo(events, topK)
    else
      var k := if topK < |events| then topK else |events|;
      match search(index.value, GetEmbedding(query, embed), k)
      case None => SliceTo(events, topK)
      case Some(ids) => HitsFollowInRangeIds(events, ids); Hits(events, ids)
  }
}
