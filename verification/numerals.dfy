/** ASCII decimal numerals: what Python's `str(n)` prints for an integer and
    what `int(...)` reads back from a run of digits. */
module Numerals {

  predicate IsDigit(c: char) {
    '0' <= c <= '9'
  }

  predicate AllDigits(s: string) {
    forall i :: 0 <= i < |s| ==> IsDigit(s[i])
  }

  function DigitChar(d: nat): (c: char)
    requires d < 10
    ensures IsDigit(c) && DigitValue(c) == d
  {
    ['0', '1', '2', '3', '4', '5', '6', '7', '8', '9'][d]
  }

  function DigitValue(c: char): nat
    requires IsDigit(c)
  {
    (c as int - '0' as int) as nat
  }

  /** The number a run of decimal digits denotes, most significant first. */
  function DigitsValue(s: string): nat
    requires AllDigits(s)
  {
    if |s| == 0 then 0
    else DigitsValue(s[..|s| - 1]) * 10 + DigitValue(s[|s| - 1])
  }

  /** `str(n)` for a non-negative integer: no leading zeros. */
  function NatToDecimal(n: nat): (r: string)
    ensures |r| >= 1 && AllDigits(r)
    ensures |r| > 1 ==> r[0] != '0'
  {
    if n < 10 then [DigitChar(n)]
    else NatToDecimal(n / 10) + [DigitChar(n % 10)]
  }

  /** The digits of a numeral, after its minus sign if it has one. */
  function Magnitude(s: string): string
    requires |s| > 0
  {
    if s[0] == '-' then s[1..] else s
  }

  /** How Python's `str` writes an integer: an optional minus sign, then at
      least one digit, no leading zero, and no sign on zero. */
  predicate IsCanonicalNumeral(s: string) {
    && |s| > 0
    && |Magnitude(s)| > 0
    && AllDigits(Magnitude(s))
    && (|Magnitude(s)| > 1 ==> Magnitude(s)[0] != '0')
    && (s[0] == '-' ==> Magnitude(s) != "0")
  }

  /** `int(s)` for a canonical numeral. */
  function NumeralValue(s: string): int
    requires IsCanonicalNumeral(s)
  {
    if s[0] == '-' then -(DigitsValue(Magnitude(s)) as int) else DigitsValue(s)
  }

  /** `str(n)` for any integer. */
  function IntToDecimal(n: int): (r: string)
    ensures IsCanonicalNumeral(r)
    ensures NumeralValue(r) == n
    ensures r[0] == '-' <==> n < 0
  {
    if n >= 0 then
      DecimalRoundTrip(n);
      NatToDecimal(n)
    else
      var digits := NatToDecimal(-n);
      DecimalRoundTrip(-n);
      assert ("-" + digits)[1..] == digits;
      "-" + digits
  }

  /** Reading back the digits `str(n)` prints for a non-negative `n` gives
      `n` again. */
  lemma {:induction false} DecimalRoundTrip(n: nat)
    ensures DigitsValue(NatToDecimal(n)) == n
  {
    if n >= 10 {
      DecimalRoundTrip(n / 10);
      var r := NatToDecimal(n);
      assert r[..|r| - 1] == NatToDecimal(n / 10);
    }
  }

  /** Digits that do not start with a zero denote a positive number. */
  lemma {:induction false} LeadingDigitPositive(d: string)
    requires |d| > 0 && AllDigits(d) && d[0] != '0'
    ensures DigitsValue(d) >= 1
    decreases |d|
  {
    if |d| > 1 {
      LeadingDigitPositive(d[..|d| - 1]);
    }
  }

  /** Printing the number a run of digits denotes gives the run back, when
      it has no leading zero. */
  lemma {:induction false} DigitsRoundTrip(d: string)
    requires |d| > 0 && AllDigits(d) && (|d| > 1 ==> d[0] != '0')
    ensures NatToDecimal(DigitsValue(d)) == d
    decreases |d|
  {
    var init := d[..|d| - 1];
    var last := d[|d| - 1];
    assert DigitChar(DigitValue(last)) == last;
    if |d| > 1 {
      LeadingDigitPositive(init);
      DigitsRoundTrip(init);
      var q, r := DigitsValue(init), DigitValue(last);
      AppendDigit(q, r);
      assert NatToDecimal(q * 10 + r) == NatToDecimal(q) + [DigitChar(r)];
      assert d == init + [last];
    }
  }

  /** Appending digit `r` to `q` is undone by `/ 10` and `% 10`. */
  lemma AppendDigit(q: nat, r: nat)
    requires r < 10
    ensures (q * 10 + r) / 10 == q && (q * 10 + r) % 10 == r
  {
  }

  /** `str(int(s))` gives back every numeral `str` can print. */
  lemma NumeralRoundTrip(s: string)
    requires IsCanonicalNumeral(s)
    ensures IntToDecimal(NumeralValue(s)) == s
  {
    var m := Magnitude(s);
    var v: int := DigitsValue(m);
    DigitsRoundTrip(m);
    if s[0] == '-' {
      LeadingDigitPositive(m);
      assert NumeralValue(s) == -v < 0;
      assert IntToDecimal(-v) == "-" + NatToDecimal(v as nat);
      assert s == "-" + m;
    } else {
      assert NumeralValue(s) == v;
      assert IntToDecimal(v) == NatToDecimal(v as nat);
    }
  }
}
