/**
 * The fetch date key: `datetime.now().strftime("%d-%m-%Y")`.
 * The clock itself is not modelled; the caller passes the current date in.
 */
module DateFormat {
  import opened Wrappers

  /** A calendar date as `datetime` holds it. */
  datatype Date = Date(day: int, month: int, year: int) {
    /** Ranges `datetime` guarantees; years are limited to four digits. */
    predicate Valid()
    {
      1 <= day <= 31 && 1 <= month <= 12 && 1000 <= year <= 9999
    }
  }

  type CalendarDate = d: Date | d.Valid() witness Date(1, 1, 2000)

  function DigitChar(n: int): (c: char)
    requires 0 <= n < 10
    ensures '0' <= c <= '9' && c as int - '0' as int == n
  {
    (n + '0' as int) as char
  }

  function DigitValue(c: char): (r: Option<int>)
    ensures r.Some? <==> '0' <= c <= '9'
    ensures r.Some? ==> 0 <= r.value < 10 && DigitChar(r.value) == c
  {
    if '0' <= c <= '9' then Some(c as int - '0' as int) else None
  }

  /** `n` written with exactly `width` decimal digits, most significant first. */
  function Digits(n: nat, width: nat): (s: string)
    ensures |s| == width
    ensures forall i :: 0 <= i < |s| ==> '0' <= s[i] <= '9'
  {
    if width == 0 then [] else Digits(n / 10, width - 1) + [DigitChar(n % 10)]
  }

  /** The number a string of decimal digits denotes, or None if some character is not a digit. */
  function Number(s: string): (r: Option<nat>)
  {
    if s == [] then Some(0)
    else match (Number(s[..|s| - 1]), DigitValue(s[|s| - 1]))
      case (Some(high), Some(low)) => Some(high * 10 + low)
      case _ => None
  }

  /** Ten to the power `k`: the bound below which a number fits in `k` digits. */
  function Power10(k: nat): nat
  {
    if k == 0 then 1 else 10 * Power10(k - 1)
  }

  lemma {:induction false} NumberOfDigits(n: nat, width: nat)
    requires n < Power10(width)
    ensures Number(Digits(n, width)) == Some(n)
  {
    if width > 0 {
      var s := Digits(n, width);
      assert s[..|s| - 1] == Digits(n / 10, width - 1);
      assert n / 10 < Power10(width - 1);
      NumberOfDigits(n / 10, width - 1);
    }
  }

  /** `%d-%m-%Y`: two-digit day, two-digit month, four-digit year, separated by dashes. */
  function Format(d: CalendarDate): (s: string)
    ensures |s| == 10 && s[2] == '-' && s[5] == '-'
    ensures forall i :: 0 <= i < 10 && i != 2 && i != 5 ==> '0' <= s[i] <= '9'
  {
    Digits(d.day, 2) + "-" + Digits(d.month, 2) + "-" + Digits(d.year, 4)
  }

  /** Reads a `%d-%m-%Y` key back into a date, or None if it is not one. */
  function Parse(s: string): (r: Option<CalendarDate>)
  {
    if |s| != 10 || s[2] != '-' || s[5] != '-' then None
    else match (Number(s[0..2]), Number(s[3..5]), Number(s[6..10]))
      case (Some(day), Some(month), Some(year)) =>
        var d := Date(day, month, year);
        if d.Valid() then Some(d) else None
      case _ => None
  }

  /** Parsing a formatted date gives the date back. */
  lemma FormatRoundTrip(d: CalendarDate)
    ensures Parse(Format(d)) == Some(d)
  {
    var s := Format(d);
    assert s[0..2] == Digits(d.day, 2);
    assert s[3..5] == Digits(d.month, 2);
    assert s[6..10] == Digits(d.year, 4);
    NumberOfDigits(d.day, 2);
    NumberOfDigits(d.month, 2);
    NumberOfDigits(d.year, 4);
  }

  /** Distinct dates give distinct keys, so "same key" means "same calendar day". */
  lemma FormatInjective(d1: CalendarDate, d2: CalendarDate)
    ensures Format(d1) == Format(d2) <==> d1 == d2
  {
    FormatRoundTrip(d1);
    FormatRoundTrip(d2);
  }
}
