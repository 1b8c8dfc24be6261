/** Calendar dates and `datetime.strptime(text, "%Y-%m-%d").date()`.

    CPython's strptime matches the whole text against the regular expression
    `(\d\d\d\d)-(1[0-2]|0[1-9]|[1-9])-(3[01]|[12]\d|0[1-9]|[1-9]| [1-9])`
    and then builds the date, which fails for year 0 and for a day past the
    end of the month. So a one-digit month or day is accepted, and so is a
    day written as a space followed by one digit. */
module Dates {
  import opened Wrappers
  import opened Numerals

  datatype Date = Date(year: int, month: int, day: int)

  predicate IsLeapYear(y: int) {
    y % 4 == 0 && (y % 100 != 0 || y % 400 == 0)
  }

  function DaysInMonth(y: int, m: int): (n: int)
    requires 1 <= m <= 12
    ensures 28 <= n <= 31
  {
    if m == 2 then (if IsLeapYear(y) then 29 else 28)
    else if m == 4 || m == 6 || m == 9 || m == 11 then 30
    else 31
  }

  /** A date Python's `datetime.date` can hold. */
  predicate ValidDate(d: Date) {
    && 1 <= d.year <= 9999
    && 1 <= d.month <= 12
    && 1 <= d.day <= DaysInMonth(d.year, d.month)
  }

  /** `a < b` on dates. */
  predicate Before(a: Date, b: Date) {
    || a.year < b.year
    || (a.year == b.year && a.month < b.month)
    || (a.year == b.year && a.month == b.month && a.day < b.day)
  }

  /** `a <= b` on dates. */
  predicate NotAfter(a: Date, b: Date) {
    Before(a, b) || a == b
  }

  predicate IsNonZeroDigit(c: char) {
    '1' <= c <= '9'
  }

  /** The month group `1[0-2]|0[1-9]|[1-9]`, which must be followed by `-`. */
  function ParseMonth(s: string): (r: Option<int>)
    ensures r.Some? ==> 1 <= r.value <= 12
  {
    if |s| == 1 && IsNonZeroDigit(s[0]) then Some(DigitValue(s[0]))
    else if |s| == 2 && s[0] == '0' && IsNonZeroDigit(s[1]) then Some(DigitValue(s[1]))
    else if |s| == 2 && s[0] == '1' && '0' <= s[1] <= '2' then Some(10 + DigitValue(s[1]))
    else None
  }

  /** The day group `3[01]|[12]\d|0[1-9]|[1-9]| [1-9]`, which must reach the
      end of the text. */
  function ParseDay(s: string): (r: Option<int>)
    ensures r.Some? ==> 1 <= r.value <= 31
  {
    if |s| == 1 && IsNonZeroDigit(s[0]) then Some(DigitValue(s[0]))
    else if |s| == 2 && s[0] == '3' && (s[1] == '0' || s[1] == '1') then Some(30 + DigitValue(s[1]))
    else if |s| == 2 && (s[0] == '1' || s[0] == '2') && IsDigit(s[1]) then Some(DigitValue(s[0]) * 10 + DigitValue(s[1]))
    else if |s| == 2 && (s[0] == '0' || s[0] == ' ') && IsNonZeroDigit(s[1]) then Some(DigitValue(s[1]))
    else None
  }

  /** Four digits denote at most 9999. */
  lemma FourDigitsBound(s: string)
    requires |s| == 4 && AllDigits(s)
    ensures DigitsValue(s) <= 9999
  {
    assert s[..1][..0] == [];
    assert DigitsValue(s[..1]) <= 9;
    assert s[..2][..1] == s[..1];
    assert DigitsValue(s[..2]) <= 99;
    assert s[..3][..2] == s[..2];
    assert DigitsValue(s[..3]) <= 999;
    assert s[..4][..3] == s[..3] && s[..4] == s;
  }

  /** Index of the first `-` in `s`, if any. */
  function FirstDash(s: string): (r: Option<nat>)
    ensures r.Some? ==> r.value < |s| && s[r.value] == '-' && forall k :: 0 <= k < r.value ==> s[k] != '-'
    ensures r.None? ==> forall k :: 0 <= k < |s| ==> s[k] != '-'
  {
    if |s| == 0 then None
    else if s[0] == '-' then Some(0)
    else match FirstDash(s[1..])
      case None => None
      case Some(k) => Some(k + 1)
  }

  /** `datetime.strptime(text, "%Y-%m-%d").date()`, with `None` for the
      `ValueError` it raises. */
  function ParseDate(text: string): (r: Option<Date>)
    ensures r.Some? ==> ValidDate(r.value)
  {
    if |text| < 5 || !AllDigits(text[..4]) || text[4] != '-' then None
    else
      var rest := text[5..];
      match FirstDash(rest)
      case None => None
      case Some(k) =>
        var year := DigitsValue(text[..4]);
        FourDigitsBound(text[..4]);
        match (ParseMonth(rest[..k]), ParseDay(rest[k + 1..]))
        case (Some(month), Some(day)) =>
          if 1 <= year && day <= DaysInMonth(year, month) then Some(Date(year, month, day)) else None
        case _ => None
  }

  /** Two digits, zero-padded. */
  function Pad2(n: nat): (r: string)
    requires n < 100
    ensures |r| == 2 && AllDigits(r)
  {
    [DigitChar(n / 10), DigitChar(n % 10)]
  }

  /** Four digits, zero-padded. */
  function Pad4(n: nat): (r: string)
    requires n < 10000
    ensures |r| == 4 && AllDigits(r)
  {
    Pad2(n / 100) + Pad2(n % 100)
  }

  /** The canonical `YYYY-MM-DD` text of a date (`date.isoformat()`). */
  function FormatDate(d: Date): (r: string)
    requires ValidDate(d)
    ensures |r| == 10 && r[4] == '-' && r[7] == '-'
  {
    Pad4(d.year) + "-" + Pad2(d.month) + "-" + Pad2(d.day)
  }

  lemma Pad2Value(n: nat)
    requires n < 100
    ensures DigitsValue(Pad2(n)) == n
  {
    var r := Pad2(n);
    assert r[..1][..0] == [];
    assert DigitsValue(r[..1]) == DigitValue(r[0]);
  }

  lemma Pad4Value(n: nat)
    requires n < 10000
    ensures DigitsValue(Pad4(n)) == n
  {
    var r := Pad4(n);
    var hi := Pad2(n / 100);
    Pad2Value(n / 100);
    assert r[..1][..0] == [];
    assert r[..2][..1] == r[..1];
    assert r[..3][..2] == r[..2];
    assert r[..4][..3] == r[..3];
    assert r[..4] == r;
    assert r[..2] == hi;
    assert DigitsValue(r) == (DigitsValue(hi) * 10 + DigitValue(r[2])) * 10 + DigitValue(r[3]);
    assert DigitValue(r[2]) == (n % 100) / 10;
    assert DigitValue(r[3]) == (n % 100) % 10;
  }

  /** A zero-padded month reads back as itself. */
  lemma ParsePaddedMonth(m: nat)
    requires 1 <= m <= 12
    ensures ParseMonth(Pad2(m)) == Some(m)
  {
    var r := Pad2(m);
    assert DigitValue(r[0]) == m / 10 && DigitValue(r[1]) == m % 10;
  }

  /** A zero-padded day reads back as itself. */
  lemma ParsePaddedDay(d: nat)
    requires 1 <= d <= 31
    ensures ParseDay(Pad2(d)) == Some(d)
  {
    var r := Pad2(d);
    assert DigitValue(r[0]) == d / 10 && DigitValue(r[1]) == d % 10;
  }

  /** Parsing the canonical text of a valid date gives the date back. */
  lemma ParseFormatRoundTrip(d: Date)
    requires ValidDate(d)
    ensures ParseDate(FormatDate(d)) == Some(d)
  {
    var t := FormatDate(d);
    Pad4Value(d.year);
    assert t[..4] == Pad4(d.year);
    var rest := t[5..];
    assert rest == Pad2(d.month) + "-" + Pad2(d.day);
    assert FirstDash(rest) == Some(2);
    assert rest[..2] == Pad2(d.month);
    assert rest[3..] == Pad2(d.day);
    ParsePaddedMonth(d.month);
    ParsePaddedDay(d.day);
  }

  /** The malformed period sides quoted as an example of an unknown state:
      no month 13. */
  lemma MonthThirteenRejected()
    ensures ParseDate("2025-13-40") == None
  {
    assert "2025-13-40"[5..] == "13-40";
    assert FirstDash("13-40") == Some(2);
    assert "13-40"[..2] == "13";
  }

  /** Nor month 14. */
  lemma MonthFourteenRejected()
    ensures ParseDate("2025-14-50") == None
  {
    assert "2025-14-50"[5..] == "14-50";
    assert FirstDash("14-50") == Some(2);
    assert "14-50"[..2] == "14";
  }

  /** The two years the date examples use, read as digits. */
  lemma YearDigits()
    ensures DigitsValue("2024") == 2024
    ensures DigitsValue("2025") == 2025
  {
    assert "2024"[..3] == "202" && "2025"[..3] == "202";
    assert "202"[..2] == "20";
    assert "20"[..1] == "2";
    assert "2"[..0] == "";
  }

  /** February 29th exists in a leap year. */
  lemma LeapDayInLeapYear()
    ensures ParseDate("2024-02-29") == Some(Date(2024, 2, 29))
  {
    assert "2024-02-29"[..4] == "2024" && "2024-02-29"[5..] == "02-29";
    assert "02-29"[..2] == "02" && "02-29"[3..] == "29";
    assert FirstDash("02-29") == Some(2);
    YearDigits();
  }

  /** February 29th does not exist in a common year. */
  lemma LeapDayInCommonYear()
    ensures ParseDate("2025-02-29") == None
  {
    assert "2025-02-29"[..4] == "2025" && "2025-02-29"[5..] == "02-29";
    assert "02-29"[..2] == "02" && "02-29"[3..] == "29";
    assert FirstDash("02-29") == Some(2);
    YearDigits();
  }

  /** Month and day need no zero padding, and spaces around a field are
      ignored. */
  lemma UnpaddedFields()
    ensures ParseDate("2025-1- 5") == Some(Date(2025, 1, 5))
  {
    assert "2025-1- 5"[..4] == "2025" && "2025-1- 5"[5..] == "1- 5";
    assert "1- 5"[..1] == "1" && "1- 5"[2..] == " 5";
    assert FirstDash("1- 5") == Some(1);
    YearDigits();
  }
}
