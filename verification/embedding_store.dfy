/** The server's semantic search: the in-memory embedding store built from
    the event documents in batches of 64, the guard that rebuilds it when it
    does not cover the corpus, and `recommend_events_tool`, which ranks every
    event by cosine similarity to the query. The embedding endpoint is a
    parameter: one call per batch, answering with any number of vectors, or
    `None` when the call raises. */
module EmbeddingStore {
  import opened Wrappers
  import opened Seqs
  import opened Values
  import opened Documents
  import opened Similarity
  import opened Ranking

  const BatchSize: nat := 64

  /** The embeddings endpoint: the vectors of its response's `data`, in
      order, or `None` when the request raises. */
  type Embedder = seq<Value> -> Option<seq<Vector>>

  /** `event_documents` and `event_embeddings`. */
  datatype Store = Store(documents: seq<Value>, embeddings: seq<Vector>)

  /** `event_documents and event_embeddings`. */
  predicate Populated(s: Store) {
    |s.documents| > 0 && |s.embeddings| > 0
  }

  /** The store covers the corpus: one vector per event, and at least one. */
  predicate Ready(s: Store, events: seq<Event>) {
    |s.embeddings| > 0 && |s.embeddings| == |events|
  }

  /** `[build_event_document(event) for event in events_data]`. */
  function DocumentsOf(events: seq<Event>): (r: seq<Value>)
    ensures |r| == |events|
  {
    seq(|events|, i requires 0 <= i < |events| => BuildEventDocument(events[i]))
  }

  /** Reference for the batch loop: the vectors of every response in batch
      order, or `None` as soon as one request raises. */
  function EmbedBatches(bs: seq<seq<Value>>, embed: Embedder): Option<seq<Vector>>
  {
    if |bs| == 0 then Some([])
    else
      match EmbedBatches(bs[..|bs| - 1], embed)
      case None => None
      case Some(acc) =>
        match embed(bs[|bs| - 1])
        case None => None
        case Some(vs) => Some(acc + vs)
  }

  /** The loop succeeds exactly when no request raises. */
  lemma {:induction false} EmbedBatchesSucceeds(bs: seq<seq<Value>>, embed: Embedder)
    ensures EmbedBatches(bs, embed).Some? <==> forall j :: 0 <= j < |bs| ==> embed(bs[j]).Some?
  {
    if |bs| > 0 {
      var init := bs[..|bs| - 1];
      EmbedBatchesSucceeds(init, embed);
      assert forall j :: 0 <= j < |init| ==> init[j] == bs[j];
    }
  }

  /** Every request answers with one vector per input. */
  predicate OneVectorPerInput(bs: seq<seq<Value>>, embed: Embedder) {
    forall j :: 0 <= j < |bs| ==> embed(bs[j]).Some? && |embed(bs[j]).value| == |bs[j]|
  }

  /** When every request answers with one vector per input, the loop yields
      one vector per document. */
  lemma {:induction false} EmbedBatchesCount(bs: seq<seq<Value>>, embed: Embedder)
    requires OneVectorPerInput(bs, embed)
    ensures EmbedBatches(bs, embed).Some?
    ensures |EmbedBatches(bs, embed).value| == |Flatten(bs)|
  {
    if |bs| > 0 {
      var init := bs[..|bs| - 1];
      assert forall j :: 0 <= j < |init| ==> init[j] == bs[j];
      EmbedBatchesCount(init, embed);
      assert bs == init + [bs[|bs| - 1]];
      FlattenAppend(init, bs[|bs| - 1]);
    }
  }

  /** The store a rebuild leaves: the documents of every event, and the
      vectors of all batches when every request answered and the count
      matches the corpus, otherwise none. */
  function RebuiltStore(events: seq<Event>, embed: Embedder): (r: Store)
    ensures r.documents == DocumentsOf(events)
    ensures r.embeddings == [] || Ready(r, events)
  {
    Store(DocumentsOf(events),
          match EmbedBatches(Batches(DocumentsOf(events), BatchSize), embed)
          case Some(vs) => if |vs| == |events| then vs else []
          case None => [])
  }

  /** `prepare_event_embeddings(force)`. Without a client the store is
      emptied; a populated store is kept unless forced; otherwise the
      documents are rebuilt and embedded batch by batch, and the vectors are
      kept only when no request raised and there is one per event. */
  method PrepareEventEmbeddings(store: Store, events: seq<Event>, hasClient: bool, force: bool, embed: Embedder)
    returns (r: Store)
    ensures !hasClient ==> r == Store([], [])
    ensures hasClient && Populated(store) && !force ==> r == store
    ensures hasClient && (force || !Populated(store)) ==> r == RebuiltStore(events, embed)
    ensures r.embeddings == [] || Ready(r, events) || r == store
  {
    if !hasClient {
      return Store([], []);
    }
    if Populated(store) && !force {
      return store;
    }
    var texts := DocumentsOf(events);
    var batches := Batches(texts, BatchSize);
    if |texts| == 0 {
      return Store(texts, []);
    }
    var acc: seq<Vector> := [];
    var j := 0;
    while j < |batches|
      invariant 0 <= j <= |batches|
      invariant EmbedBatches(batches[..j], embed) == Some(acc)
    {
      var resp := embed(batches[j]);
      assert batches[..j + 1][..j] == batches[..j];
      if resp.None? {
        EmbedBatchesSucceeds(batches, embed);
        return Store(texts, []);
      }
      acc := acc + resp.value;
      j := j + 1;
    }
    assert batches[..j] == batches;
    if |acc| != |events| {
      acc := [];
    }
    return Store(texts, acc);
  }

  /** `ensure_event_embeddings()`: a forced rebuild whenever the store does
      not hold one vector per event. Afterwards the store either covers the
      corpus or holds no vectors, and a well-behaved endpoint always leaves
      it covering a non-empty corpus. */
  method EnsureEventEmbeddings(store: Store, events: seq<Event>, hasClient: bool, embed: Embedder)
    returns (r: Store)
    ensures Ready(store, events) ==> r == store
    ensures r.embeddings == [] || Ready(r, events)
    ensures !Ready(store, events) && !hasClient ==> r == Store([], [])
    ensures hasClient && |events| > 0 && OneVectorPerInput(Batches(DocumentsOf(events), BatchSize), embed) ==>
      Ready(r, events)
    ensures !Ready(store, events) && hasClient ==> r == RebuiltStore(events, embed)
  {
    if Ready(store, events) {
      return store;
    }
    r := PrepareEventEmbeddings(store, events, hasClient, true, embed);
    if hasClient && OneVectorPerInput(Batches(DocumentsOf(events), BatchSize), embed) {
      EmbedBatchesCount(Batches(DocumentsOf(events), BatchSize), embed);
    }
  }

  /** One recommended event: its corpus index, its score and its summary
      line. */
  datatype Pick = Pick(index: nat, score: real, summary: string)

  /** What `recommend_events_tool` answers. `Raised` stands for an exception
      escaping the tool: a query response without data, or a summary whose
      overview is not text. */
  datatype Recommendation =
    | NoQuery
    | NoEvents
    | NotConfigured
    | NotReady
    | QueryFailed
    | Raised
    | Ranked(picks: seq<Pick>)

  /** The score of every event against the query vector. */
  function Scores(q: Vector, embeddings: seq<Vector>, sqrt: real -> real): (r: seq<real>)
    ensures |r| == |embeddings|
  {
    seq(|embeddings|, i requires 0 <= i < |embeddings| => Cosine(q, embeddings[i], sqrt))
  }

  /** One pick per selected index, each with its score and summary. */
  function PicksOf(events: seq<Event>, scores: seq<real>, top: seq<nat>): (r: seq<Pick>)
    requires |scores| == |events|
    requires forall p :: 0 <= p < |top| ==> top[p] < |events| && BuildEventSummary(events[top[p]]).Some?
    ensures |r| == |top|
    ensures forall p :: 0 <= p < |r| ==>
      r[p] == Pick(top[p], scores[top[p]], BuildEventSummary(events[top[p]]).value)
  {
    seq(|top|, p requires 0 <= p < |top| => Pick(top[p], scores[top[p]], BuildEventSummary(events[top[p]]).value))
  }

  /** The selection loop of `recommend_events_tool`: the best events, in
      ranking order, with their summaries; `None` when some summary raises. */
  function RankPicks(events: seq<Event>, embeddings: seq<Vector>, q: Vector, limit: int, sqrt: real -> real)
    : (r: Option<seq<Pick>>)
    requires |embeddings| == |events|
    ensures r.None? <==> exists i :: i in TopIndices(Scores(q, embeddings, sqrt), limit) && BuildEventSummary(events[i]).None?
    ensures r.Some? ==> |r.value| == if ClampLimit(limit) < |events| then ClampLimit(limit) else |events|
    ensures r.Some? ==> forall p :: 0 <= p < |r.value| ==>
      && r.value[p].index < |events|
      && r.value[p].score == Cosine(q, embeddings[r.value[p].index], sqrt)
      && BuildEventSummary(events[r.value[p].index]) == Some(r.value[p].summary)
  {
    var scores := Scores(q, embeddings, sqrt);
    var top := TopIndices(scores, limit);
    assert forall p :: 0 <= p < |top| ==> top[p] in Rank(scores);
    if exists i :: i in top && BuildEventSummary(events[i]).None? then None
    else
      assert forall p :: 0 <= p < |top| ==> top[p] in top;
      Some(PicksOf(events, scores, top))
  }

  /** The picks are the ranking's first entries, their scores never
      increase, and no event left out beats a picked one (on a tie the
      left-out one comes later in the corpus). */
  lemma RankPicksAreBest(events: seq<Event>, embeddings: seq<Vector>, q: Vector, limit: int, sqrt: real -> real)
    requires |embeddings| == |events|
    requires RankPicks(events, embeddings, q, limit, sqrt).Some?
    ensures var picks := RankPicks(events, embeddings, q, limit, sqrt).value;
      && (forall p :: 0 <= p < |picks| ==> picks[p].index == Rank(Scores(q, embeddings, sqrt))[p])
      && (forall p, t :: 0 <= p < t < |picks| ==> picks[p].score >= picks[t].score)
      && (forall p, j :: 0 <= p < |picks| && 0 <= j < |events| && j !in TopIndices(Scores(q, embeddings, sqrt), limit) ==>
            picks[p].score > Cosine(q, embeddings[j], sqrt)
            || (picks[p].score == Cosine(q, embeddings[j], sqrt) && picks[p].index < j))
  {
    var scores := Scores(q, embeddings, sqrt);
    var picks := RankPicks(events, embeddings, q, limit, sqrt).value;
    var top := TopIndices(scores, limit);
    forall p, t | 0 <= p < t < |picks| ensures picks[p].score >= picks[t].score {
      RankedScoresNonIncreasing(scores, p, t);
    }
    forall p, j | 0 <= p < |picks| && 0 <= j < |events| && j !in top
      ensures picks[p].score > Cosine(q, embeddings[j], sqrt)
              || (picks[p].score == Cosine(q, embeddings[j], sqrt) && picks[p].index < j)
    {
      assert top[p] in top;
      TopIndicesAreBest(scores, limit, top[p], j);
    }
  }

  /** `recommend_events_tool(query, limit)`, returning the answer and the
      store as the embedding guard left it. The early answers come in the
      source's order: empty query, empty corpus, no client or key, store not
      ready, query request raised. */
  method RecommendEvents(query: string, limit: int, events: seq<Event>, store: Store,
                         hasClient: bool, hasKey: bool, embed: Embedder, sqrt: real -> real)
    returns (out: Recommendation, r: Store)
    ensures query == [] ==> out == NoQuery && r == store
    ensures query != [] && |events| == 0 ==> out == NoEvents && r == store
    ensures query != [] && |events| > 0 && !(hasClient && hasKey) ==> out == NotConfigured && r == store
    ensures out == NotReady ==> !Ready(r, events)
    ensures out == QueryFailed ==> embed([JStr(query)]).None?
    ensures out.Ranked? ==>
      && query != [] && hasClient && hasKey && Ready(r, events)
      && embed([JStr(query)]).Some? && |embed([JStr(query)]).value| > 0
      && RankPicks(events, r.embeddings, embed([JStr(query)]).value[0], limit, sqrt) == Some(out.picks)
    ensures out.Ranked? ==> 0 < |out.picks| <= 5
    ensures query != [] && |events| > 0 && hasClient && hasKey ==> (out != NotReady <==> Ready(r, events))
    ensures query != [] && |events| > 0 && hasClient && hasKey ==>
      r == if Ready(store, events) then store else RebuiltStore(events, embed)
    ensures query != [] && |events| > 0 && hasClient && hasKey && Ready(r, events) ==>
      var q := embed([JStr(query)]);
      && (out == QueryFailed <==> q.None?)
      && (out == Raised <==>
            q.Some? && (|q.value| == 0 || RankPicks(events, r.embeddings, q.value[0], limit, sqrt).None?))
      && (out.Ranked? <==>
            q.Some? && |q.value| > 0 && RankPicks(events, r.embeddings, q.value[0], limit, sqrt).Some?)
  {
    if query == [] {
      return NoQuery, store;
    }
    if |events| == 0 {
      return NoEvents, store;
    }
    if !(hasClient && hasKey) {
      return NotConfigured, store;
    }
    r := EnsureEventEmbeddings(store, events, hasClient, embed);
    if !Ready(r, events) {
      return NotReady, r;
    }
    var resp := embed([JStr(query)]);
    if resp.None? {
      return QueryFailed, r;
    }
    if |resp.value| == 0 {
      return Raised, r;
    }
    var picks := RankPicks(events, r.embeddings, resp.value[0], limit, sqrt);
    if picks.None? {
      return Raised, r;
    }
    return Ranked(picks.value), r;
  }
}
