/** Loading the event corpus: every record gets `id` = its position and a
    `state` computed from its period; the English corpus keeps its own state
    or "Unknown"; translated fields are merged into the Korean records by id.
    Reading and decoding the JSON files is outside the model: a file arrives
    as a `Source`. */
module Normalize {
  import opened Wrappers
  import opened Values
  import opened Dates
  import opened EventStates

  /** What reading one JSON file produced: no file (`FileNotFoundError`), a
      file that is not valid JSON (`JSONDecodeError`), a file that cannot be
      read as UTF-8 text at all (any other I/O or decoding error), or its
      decoded record list. */
  datatype Source = Missing | Undecodable | Unreadable | Loaded(records: seq<Event>)

  /** `compute_event_state(ev.get("period") or "")`. A falsy period becomes
      `""` (unknown); a truthy period that is not a string makes the `"~" in
      period` test raise `TypeError`, shown as `None`. */
  function StateOfPeriod(period: Value, today: Date): (r: Option<EventState>)
    ensures !Truthy(period) ==> r == Some(Unknown)
    ensures period.JStr? ==> r == Some(ComputeEventState(period.s, today))
    ensures r.None? <==> Truthy(period) && !period.JStr?
  {
    if !Truthy(period) then Some(ComputeEventState("", today))
    else if period.JStr? then Some(ComputeEventState(period.s, today))
    else None
  }

  /** `{**event, "id": i}` followed by `ev["state"] = ...`. */
  function NormalizeEvent(e: Event, i: nat, today: Date): (r: Option<Event>)
    ensures r.Some? <==> StateOfPeriod(Get(e, "period"), today).Some?
    ensures r.Some? ==>
      && r.value.Keys == e.Keys + {"id", "state"}
      && r.value["id"] == JInt(i)
      && r.value["state"] == JStr(Label(StateOfPeriod(Get(e, "period"), today).value))
      && forall k :: k in e && k != "id" && k != "state" ==> r.value[k] == e[k]
  {
    match StateOfPeriod(Get(e, "period"), today)
    case None => None
    case Some(st) => Some(e["id" := JInt(i)]["state" := JStr(Label(st))])
  }

  /** The `state` label of a normalised record names exactly one state: the
      one its period computes. */
  lemma StateLabelNamesState(e: Event, i: nat, today: Date, st: EventState)
    requires NormalizeEvent(e, i, today).Some?
    ensures NormalizeEvent(e, i, today).value["state"] == JStr(Label(st))
      <==> StateOfPeriod(Get(e, "period"), today) == Some(st)
  {
    LabelInjective(StateOfPeriod(Get(e, "period"), today).value, st);
  }

  /** Positions `from..` of the corpus, normalised. */
  function NormalizeFrom(raw: seq<Event>, from: nat, today: Date): (r: Option<seq<Event>>)
    requires from <= |raw|
    ensures r.Some? ==> |r.value| == |raw| - from
    ensures r.Some? ==> forall i :: from <= i < |raw| ==> NormalizeEvent(raw[i], i, today) == Some(r.value[i - from])
    ensures r.None? ==> exists i :: from <= i < |raw| && NormalizeEvent(raw[i], i, today).None?
    decreases |raw| - from
  {
    if from == |raw| then Some([])
    else
      match NormalizeEvent(raw[from], from, today)
      case None => None
      case Some(e) =>
        match NormalizeFrom(raw, from + 1, today)
        case None => None
        case Some(rest) => Some([e] + rest)
  }

  /** The list comprehension and state loop of `load_events_data`: `None`
      when some record's period raises. */
  function NormalizeEvents(raw: seq<Event>, today: Date): (r: Option<seq<Event>>)
    ensures r.Some? <==> forall i :: 0 <= i < |raw| ==> StateOfPeriod(Get(raw[i], "period"), today).Some?
    ensures r.Some? ==> |r.value| == |raw|
    ensures r.Some? ==> forall i :: 0 <= i < |raw| ==>
      && r.value[i].Keys == raw[i].Keys + {"id", "state"}
      && r.value[i]["id"] == JInt(i)
      && r.value[i]["state"] == JStr(Label(StateOfPeriod(Get(raw[i], "period"), today).value))
      && forall k :: k in raw[i] && k != "id" && k != "state" ==> r.value[i][k] == raw[i][k]
  {
    NormalizeFrom(raw, 0, today)
  }

  /** Ids are the positions, so they are distinct. */
  lemma NormalizedIdsDistinct(raw: seq<Event>, today: Date)
    requires NormalizeEvents(raw, today).Some?
    ensures var evs := NormalizeEvents(raw, today).value;
      forall i, j :: 0 <= i < j < |evs| ==> evs[i]["id"] != evs[j]["id"]
  {
  }

  /** The English corpus: `{**event, "id": i}` and `state` kept when truthy,
      else "Unknown". */
  function NormalizeEnglish(raw: seq<Event>): (r: seq<Event>)
    ensures |r| == |raw|
    ensures forall i :: 0 <= i < |raw| ==>
      && r[i].Keys == raw[i].Keys + {"id", "state"}
      && r[i]["id"] == JInt(i)
      && r[i]["state"] == (if Truthy(Get(raw[i], "state")) then raw[i]["state"] else JStr("Unknown"))
      && forall k :: k in raw[i] && k != "id" && k != "state" ==> r[i][k] == raw[i][k]
  {
    seq(|raw|, i requires 0 <= i < |raw| =>
      var e := raw[i]["id" := JInt(i)];
      e["state" := Or(Get(e, "state"), JStr("Unknown"))])
  }

  /** Index of the last translation among the first `n` whose `id` is the
      dictionary key `key`: later entries overwrite earlier ones in
      `{item["id"]: item for item in translated_events_list}`. */
  function LastWithKey(items: seq<Event>, key: Value, n: nat): (r: Option<nat>)
    requires n <= |items|
    requires forall j :: 0 <= j < |items| ==> "id" in items[j]
    ensures r.Some? ==> r.value < n && KeyOf(items[r.value]["id"]) == key
    ensures r.Some? ==> forall j :: r.value < j < n ==> KeyOf(items[j]["id"]) != key
    ensures r.None? ==> forall j :: 0 <= j < n ==> KeyOf(items[j]["id"]) != key
  {
    if n == 0 then None
    else if KeyOf(items[n - 1]["id"]) == key then Some(n - 1)
    else LastWithKey(items, key, n - 1)
  }

  /** `translated_map.get(key)`. */
  function TranslationFor(items: seq<Event>, key: Value): (r: Option<Event>)
    requires forall j :: 0 <= j < |items| ==> "id" in items[j]
  {
    match LastWithKey(items, key, |items|)
    case Some(j) => Some(items[j])
    case None => None
  }

  /** The record after merging: `event.update(translated)` when a non-empty
      translation carries its id. */
  function MergeOne(e: Event, items: seq<Event>): (r: Event)
    requires "id" in e
    requires forall j :: 0 <= j < |items| ==> "id" in items[j]
  {
    match TranslationFor(items, KeyOf(e["id"]))
    case Some(t) => if |t| > 0 then e + t else e
    case None => e
  }

  /** Merging a merged record again changes nothing: it now carries the
      translation's `id`, which keys the same translation, and taking that
      translation's fields twice is taking them once. */
  lemma MergeOneIdempotent(e: Event, items: seq<Event>)
    requires "id" in e
    requires forall j :: 0 <= j < |items| ==> "id" in items[j]
    ensures "id" in MergeOne(e, items)
    ensures MergeOne(MergeOne(e, items), items) == MergeOne(e, items)
  {
    var key := KeyOf(e["id"]);
    var found := LastWithKey(items, key, |items|);
    if found.Some? {
      var t := items[found.value];
      var m := e + t;
      assert "id" in t && m["id"] == t["id"];
      assert LastWithKey(items, KeyOf(m["id"]), |items|) == found;
      assert m + t == m;
    }
  }

  /** The translation merge of `load_events_data`. A missing or unreadable
      file, or an entry without `id` (the `KeyError` is caught before any
      record changes), leaves the corpus as it is. Otherwise each record
      takes every field of the last translation with its id, and keeps every
      field that translation does not carry. */
  function MergeTranslations(events: seq<Event>, translations: Source): (r: seq<Event>)
    requires forall i :: 0 <= i < |events| ==> "id" in events[i]
    ensures |r| == |events|
    ensures !translations.Loaded? ==> r == events
    ensures translations.Loaded? && (exists j :: 0 <= j < |translations.records| && "id" !in translations.records[j]) ==> r == events
    ensures forall i :: 0 <= i < |events| ==> events[i].Keys <= r[i].Keys
    ensures translations.Loaded? && (forall j :: 0 <= j < |translations.records| ==> "id" in translations.records[j]) ==>
      forall i :: 0 <= i < |events| ==>
        match TranslationFor(translations.records, KeyOf(events[i]["id"]))
        case None => r[i] == events[i]
        case Some(t) =>
          && r[i].Keys == events[i].Keys + t.Keys
          && (forall k :: k in t ==> r[i][k] == t[k])
          && (forall k :: k in events[i] && k !in t ==> r[i][k] == events[i][k])
  {
    match translations
    case Loaded(items) =>
      if forall j :: 0 <= j < |items| ==> "id" in items[j] then
        seq(|events|, i requires 0 <= i < |events| => MergeOne(events[i], items))
      else events
    case _ => events
  }

  /** Running the merge twice is running it once. */
  lemma MergeTranslationsIdempotent(events: seq<Event>, translations: Source)
    requires forall i :: 0 <= i < |events| ==> "id" in events[i]
    ensures var r := MergeTranslations(events, translations);
      (forall i :: 0 <= i < |r| ==> "id" in r[i]) && MergeTranslations(r, translations) == r
  {
    var r := MergeTranslations(events, translations);
    if translations.Loaded? && forall j :: 0 <= j < |translations.records| ==> "id" in translations.records[j] {
      forall i | 0 <= i < |events|
        ensures "id" in r[i] && MergeOne(r[i], translations.records) == r[i]
      {
        MergeOneIdempotent(events[i], translations.records);
      }
    }
  }

  /** `load_events_data` of the server: a missing or undecodable Korean
      file gives an empty corpus; any other error reading it, or a record
      whose period raises, escapes the handler and aborts startup (`None`);
      otherwise the normalised corpus with translations merged. Every error
      on the English side is caught and leaves the corpus unmerged. */
  function LoadServerEvents(korean: Source, english: Source, today: Date): (r: Option<seq<Event>>)
    ensures korean.Missing? || korean.Undecodable? ==> r == Some([])
    ensures korean.Unreadable? ==> r == None
    ensures korean.Loaded? ==>
      r == match NormalizeEvents(korean.records, today)
           case Some(evs) => Some(MergeTranslations(evs, english))
           case None => None
    ensures korean.Loaded? ==> (r.Some? <==> NormalizeEvents(korean.records, today).Some?)
    ensures r.Some? && korean.Loaded? ==> |r.value| == |korean.records|
    ensures r.Some? ==> forall i :: 0 <= i < |r.value| ==> "state" in r.value[i]
  {
    match korean
    case Loaded(raw) =>
      (match NormalizeEvents(raw, today)
       case None => None
       case Some(evs) => Some(MergeTranslations(evs, english)))
    case Missing => Some([])
    case Undecodable => Some([])
    case Unreadable => None
  }

  /** `load_events_data` of the FAISS variant, before the index is built:
      every failure inside its `try` (either file undecodable or unreadable,
      the Korean file missing, a period that raises) empties both corpora; a
      missing English file only empties the English one. */
  function LoadBothCorpora(korean: Source, english: Source, today: Date): (r: (seq<Event>, seq<Event>))
    ensures !korean.Loaded? || english.Undecodable? || english.Unreadable? ==> r == ([], [])
    ensures korean.Loaded? && NormalizeEvents(korean.records, today).None? ==> r == ([], [])
    ensures korean.Loaded? && (english.Missing? || english.Loaded?) && NormalizeEvents(korean.records, today).Some? ==>
      && r.0 == NormalizeEvents(korean.records, today).value
      && r.1 == (if english.Loaded? then NormalizeEnglish(english.records) else [])
      && |r.1| == (if english.Loaded? then |english.records| else 0)
  {
    match korean
    case Loaded(raw) =>
      (match NormalizeEvents(raw, today)
       case None => ([], [])
       case Some(evs) =>
         match english
         case Missing => (evs, [])
         case Undecodable => ([], [])
         case Unreadable => ([], [])
         case Loaded(rawEn) => (evs, NormalizeEnglish(rawEn)))
    case _ => ([], [])
  }
}
