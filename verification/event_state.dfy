/** `compute_event_state`: the lifecycle label of an event, from its
    `"<start>~<end>"` period and the date of "today" (a parameter here, since
    the source reads the clock). */
module EventStates {
  import opened Wrappers
  import opened Text
  import opened Dates

  datatype EventState = Scheduled | Ongoing | Ended | Unknown

  /** The label stored in the event's `state` field. */
  function Label(st: EventState): (r: string)
    ensures |r| > 0
  {
    match st
    case Scheduled => "예정"
    case Ongoing => "진행중"
    case Ended => "종료"
    case Unknown => "알수없음"
  }

  lemma LabelInjective(a: EventState, b: EventState)
    ensures Label(a) == Label(b) ==> a == b
  {
  }

  /** The start and end dates a period denotes, or `None` when the period is
      empty, has no `~`, has more than one `~` (the two-name unpacking
      fails), or either stripped side is not a `%Y-%m-%d` date. */
  function PeriodBounds(period: string): (r: Option<(Date, Date)>)
    ensures period == [] || '~' !in period ==> r.None?
    ensures CountChar(period, '~') != 1 ==> r.None?
    ensures r.Some? ==>
      var parts := Split(period, "~");
      && |parts| == 2
      && ParseDate(Strip(parts[0])) == Some(r.value.0)
      && ParseDate(Strip(parts[1])) == Some(r.value.1)
    ensures (&& |Split(period, "~")| == 2
             && ParseDate(Strip(Split(period, "~")[0])).Some?
             && ParseDate(Strip(Split(period, "~")[1])).Some?) ==> r.Some?
  {
    SplitCount(period, '~');
    if period == [] || '~' !in period then
      assert CountChar(period, '~') == 0 by { CountCharZero(period, '~'); }
      None
    else
      var parts := Split(period, "~");
      if |parts| != 2 then None
      else
        match (ParseDate(Strip(parts[0])), ParseDate(Strip(parts[1])))
        case (Some(start), Some(end)) => Some((start, end))
        case _ => None
  }

  /** The three-way comparison of today against a well-formed period. */
  function Classify(start: Date, end: Date, today: Date): (r: EventState)
    ensures r != Unknown
    ensures r == Scheduled <==> Before(today, start)
    ensures r == Ongoing <==> NotAfter(start, today) && NotAfter(today, end)
    ensures r == Ended <==> !Before(today, start) && Before(end, today)
  {
    if Before(today, start) then Scheduled
    else if NotAfter(start, today) && NotAfter(today, end) then Ongoing
    else Ended
  }

  /** `compute_event_state(period)` with the clock's date passed as `today`. */
  function ComputeEventState(period: string, today: Date): (r: EventState)
    ensures r == Unknown <==> PeriodBounds(period).None?
    ensures PeriodBounds(period).Some? ==>
      var (start, end) := PeriodBounds(period).value;
      && (r == Scheduled <==> Before(today, start))
      && (r == Ongoing <==> NotAfter(start, today) && NotAfter(today, end))
      && (r == Ended <==> !Before(today, start) && Before(end, today))
  {
    if period == [] || '~' !in period then Unknown
    else
      match PeriodBounds(period)
      case None => Unknown
      case Some((start, end)) => Classify(start, end, today)
  }

  /** A period whose end precedes its start is never reported as ongoing. */
  lemma InvertedPeriodNeverOngoing(period: string, today: Date)
    requires PeriodBounds(period).Some?
    requires Before(PeriodBounds(period).value.1, PeriodBounds(period).value.0)
    ensures ComputeEventState(period, today) != Ongoing
  {
  }

  /** The canonical text of a date holds only digits and dashes. */
  lemma FormatDateChars(d: Date)
    requires ValidDate(d)
    ensures forall k :: 0 <= k < |FormatDate(d)| ==> FormatDate(d)[k] == '-' || Numerals.IsDigit(FormatDate(d)[k])
  {
    var a := FormatDate(d);
    var y, m, dd := Pad4(d.year), Pad2(d.month), Pad2(d.day);
    assert a == y + "-" + m + "-" + dd;
    forall k | 0 <= k < |a| ensures a[k] == '-' || Numerals.IsDigit(a[k]) {
      if k < 4 { assert a[k] == y[k]; }
      else if 5 <= k < 7 { assert a[k] == m[k - 5]; }
      else if 8 <= k { assert a[k] == dd[k - 8]; }
    }
  }

  /** A period built from two texts without `~` or surrounding whitespace has
      exactly those two sides. */
  lemma {:induction false} TwoSidedPeriod(a: string, b: string)
    requires forall k :: 0 <= k < |a| ==> a[k] != '~' && !IsSpace(a[k])
    requires forall k :: 0 <= k < |b| ==> b[k] != '~' && !IsSpace(b[k])
    ensures var parts := Split(a + "~" + b, "~"); |parts| == 2 && Strip(parts[0]) == a && Strip(parts[1]) == b
    ensures '~' in a + "~" + b
  {
    assert Join([a, b], "~") == a + "~" + b;
    SplitJoin([a, b], "~", 0);
    NoSpaceStrip(a);
    NoSpaceStrip(b);
    assert (a + "~" + b)[|a|] == '~';
  }

  /** A period written as two canonical dates around one `~` is classified by
      comparing today against exactly those dates. */
  lemma {:induction false} FormattedPeriod(start: Date, end: Date, today: Date)
    requires ValidDate(start) && ValidDate(end)
    ensures ComputeEventState(FormatDate(start) + "~" + FormatDate(end), today) == Classify(start, end, today)
  {
    FormatDateChars(start);
    FormatDateChars(end);
    TwoSidedPeriod(FormatDate(start), FormatDate(end));
    ParseFormatRoundTrip(start);
    ParseFormatRoundTrip(end);
  }

  /** The canonical texts of the worked example's dates. */
  lemma ExampleDateTexts()
    ensures FormatDate(Date(2025, 11, 15)) == "2025-11-15"
    ensures FormatDate(Date(2025, 11, 20)) == "2025-11-20"
  {
    assert Pad4(2025) == "2025";
    assert Pad2(11) == "11" && Pad2(15) == "15" && Pad2(20) == "20";
  }

  lemma ExamplePeriodText()
    ensures "2025-11-15" + "~" + "2025-11-20" == "2025-11-15~2025-11-20"
  {
  }

  /** The worked example: an event running 2025-11-15 to 2025-11-20 is
      scheduled on 2025-11-01, ongoing on 2025-11-17 and ended on 2025-12-01. */
  lemma WorkedExample(today: Date)
    ensures today == Date(2025, 11, 1) ==> ComputeEventState("2025-11-15~2025-11-20", today) == Scheduled
    ensures today == Date(2025, 11, 17) ==> ComputeEventState("2025-11-15~2025-11-20", today) == Ongoing
    ensures today == Date(2025, 12, 1) ==> ComputeEventState("2025-11-15~2025-11-20", today) == Ended
  {
    var s := Date(2025, 11, 15);
    var e := Date(2025, 11, 20);
    var period := FormatDate(s) + "~" + FormatDate(e);
    FormattedPeriod(s, e, today);
    assert ComputeEventState(period, today) == Classify(s, e, today);
    ExampleDateTexts();
    var a, b := FormatDate(s), FormatDate(e);
    assert a == "2025-11-15" && b == "2025-11-20";
    assert period == a + "~" + b;
    ExamplePeriodText();
  }

  /** The period "2025-13-40~2025-14-50" has an impossible month on both
      sides, so its state is unknown whatever the date. */
  lemma MalformedPeriodUnknown(today: Date)
    ensures ComputeEventState("2025-13-40~2025-14-50", today) == Unknown
  {
    assert "2025-13-40" + "~" + "2025-14-50" == "2025-13-40~2025-14-50";
    TwoSidedPeriod("2025-13-40", "2025-14-50");
    MonthThirteenRejected();
  }
}
