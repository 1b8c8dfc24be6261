/** The texts built from one event: the embedding document of the server
    (`build_event_document`), the labelled embedding text of the FAISS
    variant (`create_event_text`), the one-line summary used as tool context
    (`build_event_summary`) and the compact record put into the chat prompt. */
module Documents {
  import opened Wrappers
  import opened Seqs
  import opened Text
  import opened Values

  const DocumentSeparator: string := " \n "
  const TextSeparator: string := " | "
  const PieceSeparator: string := ", "

  /** The line break, the pipe and the comma each occur once in their
      separator. */
  lemma SeparatorMarkers()
    ensures IsMarker(DocumentSeparator, 1)
    ensures IsMarker(TextSeparator, 1)
    ensures IsMarker(PieceSeparator, 0)
  {
  }

  /** One field's contribution: `str(part).strip()` when the field is
      truthy, nothing otherwise. */
  function FieldPart(e: Event, k: string): (r: seq<string>)
    ensures |r| == 1 <==> Truthy(Get(e, k))
    ensures |r| <= 1
    ensures |r| == 1 ==> r[0] == Strip(Render(e[k]))
  {
    if Truthy(Get(e, k)) then [Strip(Render(e[k]))] else []
  }

  /** The parts of the document, field by field: the Korean fields title,
      category, period, place, host, deep_data, description, overview, then
      the translated title, category, place, host, period and description. */
  function DocumentParts(e: Event): (r: seq<string>)
  {
    FieldPart(e, "title") + FieldPart(e, "category") + FieldPart(e, "period")
    + FieldPart(e, "place") + FieldPart(e, "host") + FieldPart(e, "deep_data")
    + FieldPart(e, "description") + FieldPart(e, "overview")
    + FieldPart(e, "title_en") + FieldPart(e, "category_en") + FieldPart(e, "place_en")
    + FieldPart(e, "host_en") + FieldPart(e, "period_en") + FieldPart(e, "description_en")
  }

  /** `build_event_document(event)`. The joined parts, or, when that is
      empty, `event.get("title", "")` — which is then either absent, falsy,
      or a title made only of whitespace. */
  function BuildEventDocument(e: Event): (r: Value)
    ensures |DocumentParts(e)| >= 2 ==> r == JStr(Join(DocumentParts(e), DocumentSeparator))
    ensures |DocumentParts(e)| == 0 ==> r == GetOr(e, "title", JStr(""))
    ensures |DocumentParts(e)| == 1 ==>
      r == if DocumentParts(e)[0] == [] then GetOr(e, "title", JStr("")) else JStr(DocumentParts(e)[0])
  {
    var parts := DocumentParts(e);
    var content := Join(parts, DocumentSeparator);
    JoinEmpty(parts, DocumentSeparator);
    if content != [] then JStr(content) else GetOr(e, "title", JStr(""))
  }

  /** The labelled parts of `create_event_text`: the five fixed labels, and
      the description only when it is truthy. Each lookup defaults to `""`
      only when the key is absent, so a present `None` renders as "None". */
  function EventTextParts(e: Event): (r: seq<string>)
    ensures |r| == if Truthy(GetOr(e, "description", JStr(""))) then 6 else 5
  {
    var base := [
      "제목: " + Render(GetOr(e, "title", JStr(""))),
      "장소: " + Render(GetOr(e, "place", JStr(""))),
      "주최: " + Render(GetOr(e, "host", JStr(""))),
      "기간: " + Render(GetOr(e, "period", JStr(""))),
      "상태: " + Render(GetOr(e, "state", JStr("")))
    ];
    var description := GetOr(e, "description", JStr(""));
    if Truthy(description) then base + ["설명: " + Render(description)] else base
  }

  /** `create_event_text(event)`. */
  function CreateEventText(e: Event): (r: string)
    ensures StartsWith(r, "제목: ")
  {
    var parts := EventTextParts(e);
    assert parts[0] == "제목: " + Render(GetOr(e, "title", JStr("")));
    assert Join(parts, TextSeparator) == parts[0] + TextSeparator + Join(parts[1..], TextSeparator);
    Join(parts, TextSeparator)
  }

  /** No rendered field of `create_event_text` holds a `|`. */
  predicate NoPipeFields(e: Event) {
    && '|' !in Render(GetOr(e, "title", JStr("")))
    && '|' !in Render(GetOr(e, "place", JStr("")))
    && '|' !in Render(GetOr(e, "host", JStr("")))
    && '|' !in Render(GetOr(e, "period", JStr("")))
    && '|' !in Render(GetOr(e, "state", JStr("")))
    && '|' !in Render(GetOr(e, "description", JStr("")))
  }

  /** `event.get("title") or event.get("title_en") or "이름 미상 행사"`. */
  function SummaryTitle(e: Event): (r: Value)
    ensures Truthy(r)
    ensures Truthy(Get(e, "title")) ==> r == e["title"]
    ensures !Truthy(Get(e, "title")) && Truthy(Get(e, "title_en")) ==> r == e["title_en"]
    ensures !Truthy(Get(e, "title")) && !Truthy(Get(e, "title_en")) ==> r == JStr("이름 미상 행사")
  {
    Or(Or(Get(e, "title"), Get(e, "title_en")), JStr("이름 미상 행사"))
  }

  /** The overview piece: `deep_data or description or overview`. */
  function SummaryOverview(e: Event): Value {
    Or(Or(Get(e, "deep_data"), Get(e, "description")), Get(e, "overview"))
  }

  /** The pieces of the summary, before the overview. */
  function LabelledPieces(e: Event): (r: seq<string>)
  {
    var period := Or(Get(e, "period"), Get(e, "period_en"));
    var place := Or(Get(e, "place"), Get(e, "place_en"));
    var category := Or(Get(e, "category"), Get(e, "category_en"));
    (if Truthy(period) then ["일정 " + Render(period)] else [])
    + (if Truthy(place) then ["장소 " + Render(place)] else [])
    + (if Truthy(category) then ["분야 " + Render(category)] else [])
  }

  /** The pieces after the title, or `None` when the overview is truthy but
      not a string (the `TypeError` of `", ".join`). */
  function SummaryPieces(e: Event): (r: Option<seq<string>>)
    ensures r.None? <==> Truthy(SummaryOverview(e)) && !SummaryOverview(e).JStr?
  {
    var overview := SummaryOverview(e);
    if Truthy(overview) && !overview.JStr? then None
    else Some(LabelledPieces(e) + (if Truthy(overview) then [overview.s] else []))
  }

  /** `build_event_summary(event)`: `"<title>: "` and the pieces joined by
      `", "`; `None` when joining raises. */
  function BuildEventSummary(e: Event): (r: Option<string>)
    ensures r.None? <==> Truthy(SummaryOverview(e)) && !SummaryOverview(e).JStr?
    ensures r.Some? ==> StartsWith(r.value, Render(SummaryTitle(e)) + ": ")
    ensures r.Some? ==> |r.value| >= |Render(SummaryTitle(e))| + 2
  {
    match SummaryPieces(e)
    case None => None
    case Some(pieces) =>
      var head := Render(SummaryTitle(e)) + ": ";
      assert (head + Join(pieces, PieceSeparator))[..|head|] == head;
      Some(head + Join(pieces, PieceSeparator))
  }

  /** An event with every optional field falsy is summarised by its title
      alone. */
  lemma BareSummary(e: Event)
    requires !Truthy(Get(e, "period")) && !Truthy(Get(e, "period_en"))
    requires !Truthy(Get(e, "place")) && !Truthy(Get(e, "place_en"))
    requires !Truthy(Get(e, "category")) && !Truthy(Get(e, "category_en"))
    requires !Truthy(Get(e, "deep_data")) && !Truthy(Get(e, "description")) && !Truthy(Get(e, "overview"))
    ensures BuildEventSummary(e) == Some(Render(SummaryTitle(e)) + ": ")
  {
    assert LabelledPieces(e) == [];
    assert !Truthy(SummaryOverview(e));
    assert SummaryPieces(e) == Some([]);
    assert Render(SummaryTitle(e)) + ": " + Join([], PieceSeparator) == Render(SummaryTitle(e)) + ": ";
  }

  /** One entry of `compact_events`: six looked-up fields and `url`, taken
      from `url`, else `link`, else `"#"` — so never empty. */
  function CompactEvent(e: Event): (r: Event)
    ensures r.Keys == {"id", "title", "period", "place", "host", "state", "url"}
    ensures r["id"] == Get(e, "id") && r["title"] == Get(e, "title") && r["period"] == Get(e, "period")
    ensures r["place"] == Get(e, "place") && r["host"] == Get(e, "host") && r["state"] == Get(e, "state")
    ensures Truthy(r["url"])
    ensures Truthy(Get(e, "url")) ==> r["url"] == e["url"]
    ensures !Truthy(Get(e, "url")) && Truthy(Get(e, "link")) ==> r["url"] == e["link"]
    ensures !Truthy(Get(e, "url")) && !Truthy(Get(e, "link")) ==> r["url"] == JStr("#")
  {
    var url := Or(Or(Get(e, "url"), Get(e, "link")), JStr("#"));
    map["id" := Get(e, "id")]["title" := Get(e, "title")]["period" := Get(e, "period")]
       ["place" := Get(e, "place")]["host" := Get(e, "host")]["state" := Get(e, "state")]["url" := url]
  }

  /** Compacting a compact entry changes nothing: its fields are looked up
      again unchanged, and its `url` is already truthy. */
  lemma CompactEventIdempotent(e: Event)
    ensures CompactEvent(CompactEvent(e)) == CompactEvent(e)
  {
    var c := CompactEvent(e);
    assert Get(c, "url") == c["url"];
    assert CompactEvent(c).Keys == c.Keys;
  }
}

/** The round trips of the composed texts: each text splits back into the
    fields it was built from when no field holds the separator's marker. */
module DocumentRoundTrips {
  import opened Text
  import opened Values
  import opened Documents

  /** Parts without the separator's marker character are recovered by
      splitting their join. */
  lemma SplitsBack(parts: seq<string>, sep: string, m: nat)
    requires |parts| >= 1 && IsMarker(sep, m)
    requires forall j :: 0 <= j < |parts| ==> sep[m] !in parts[j]
    ensures Split(Join(parts, sep), sep) == parts
  {
    SplitJoin(parts, sep, m);
  }

  lemma PartsSplitBack(e: Event)
    requires |DocumentParts(e)| >= 2
    requires forall i :: 0 <= i < |DocumentParts(e)| ==> '\n' !in DocumentParts(e)[i]
    ensures Split(Join(DocumentParts(e), DocumentSeparator), DocumentSeparator) == DocumentParts(e)
  {
    SeparatorMarkers();
    SplitsBack(DocumentParts(e), DocumentSeparator, 1);
  }

  /** When no field holds a line break, the document splits back into
      exactly the stripped truthy fields, in document order: nothing is lost
      and nothing merges. */
  lemma DocumentSplitsIntoFields(e: Event)
    requires |DocumentParts(e)| >= 2
    requires forall i :: 0 <= i < |DocumentParts(e)| ==> '\n' !in DocumentParts(e)[i]
    ensures BuildEventDocument(e).JStr?
    ensures Split(BuildEventDocument(e).s, DocumentSeparator) == DocumentParts(e)
  {
    PartsSplitBack(e);
  }

  lemma EventTextPartsNoPipe(e: Event)
    requires NoPipeFields(e)
    ensures forall j :: 0 <= j < |EventTextParts(e)| ==> '|' !in EventTextParts(e)[j]
  {
    var title := Render(GetOr(e, "title", JStr("")));
    var place := Render(GetOr(e, "place", JStr("")));
    var host := Render(GetOr(e, "host", JStr("")));
    var period := Render(GetOr(e, "period", JStr("")));
    var state := Render(GetOr(e, "state", JStr("")));
    var description := Render(GetOr(e, "description", JStr("")));
    var all := ["제목: " + title, "장소: " + place, "주최: " + host, "기간: " + period, "상태: " + state,
                "설명: " + description];
    assert forall j :: 0 <= j < |all| ==> '|' !in all[j];
    assert EventTextParts(e) == all[..|EventTextParts(e)|];
  }

  /** Reading the labelled text back: it splits on `" | "` into the five
      labelled parts in the order 제목, 장소, 주최, 기간, 상태, followed by
      the 설명 part exactly when the description is truthy. */
  lemma {:induction false} EventTextRoundTrip(e: Event)
    requires NoPipeFields(e)
    ensures var pieces := Split(CreateEventText(e), TextSeparator);
      && |pieces| == (if Truthy(GetOr(e, "description", JStr(""))) then 6 else 5)
      && pieces[0] == "제목: " + Render(GetOr(e, "title", JStr("")))
      && pieces[1] == "장소: " + Render(GetOr(e, "place", JStr("")))
      && pieces[2] == "주최: " + Render(GetOr(e, "host", JStr("")))
      && pieces[3] == "기간: " + Render(GetOr(e, "period", JStr("")))
      && pieces[4] == "상태: " + Render(GetOr(e, "state", JStr("")))
      && (|pieces| == 6 ==> pieces[5] == "설명: " + Render(GetOr(e, "description", JStr(""))))
  {
    EventTextPartsNoPipe(e);
    SeparatorMarkers();
    SplitsBack(EventTextParts(e), TextSeparator, 1);
  }

  /** One piece per truthy value among period, place, category and overview
      (each with its English fallback), in that order; when no piece holds a
      comma, the text after the title splits back into exactly those pieces. */
  lemma {:induction false} SummaryRoundTrip(e: Event)
    requires SummaryPieces(e).Some?
    requires forall i :: 0 <= i < |SummaryPieces(e).value| ==> ',' !in SummaryPieces(e).value[i]
    ensures var pieces := SummaryPieces(e).value;
      var head := Render(SummaryTitle(e)) + ": ";
      && |pieces| == (if Truthy(Or(Get(e, "period"), Get(e, "period_en"))) then 1 else 0)
                   + (if Truthy(Or(Get(e, "place"), Get(e, "place_en"))) then 1 else 0)
                   + (if Truthy(Or(Get(e, "category"), Get(e, "category_en"))) then 1 else 0)
                   + (if Truthy(SummaryOverview(e)) then 1 else 0)
      && BuildEventSummary(e).value == head + Join(pieces, PieceSeparator)
      && (|pieces| > 0 ==> Split(BuildEventSummary(e).value[|head|..], PieceSeparator) == pieces)
  {
    var pieces := SummaryPieces(e).value;
    var head := Render(SummaryTitle(e)) + ": ";
    var text := BuildEventSummary(e).value;
    assert text == head + Join(pieces, PieceSeparator);
    if |pieces| > 0 {
      assert text[|head|..] == Join(pieces, PieceSeparator);
      SeparatorMarkers();
      SplitJoin(pieces, PieceSeparator, 0);
    }
  }
}
