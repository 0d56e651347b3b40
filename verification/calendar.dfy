/**
 * Calendar days: the proleptic Gregorian calendar, the `YYYY-MM-DD` text form
 * the forms and the URL use, and the day ordering the datastore sorts by.
 */
module Calendar {
  import opened Wrappers
  import opened Text

  /** A calendar day. Time of day and time zone are not modelled. */
  datatype Date = Date(year: int, month: int, day: int)

  predicate IsLeapYear(y: int) {
    y % 4 == 0 && (y % 100 != 0 || y % 400 == 0)
  }

  function DaysInMonth(y: int, m: int): (n: int)
    requires 1 <= m <= 12
    ensures 28 <= n <= 31
  {
    if m == 2 then (if IsLeapYear(y) then 29 else 28)
    else if m == 4 || m == 6 || m == 9 || m == 11 then 30
    else 31
  }

  /** The day exists in the calendar. */
  predicate IsValid(d: Date) {
    1 <= d.month <= 12 && 1 <= d.day <= DaysInMonth(d.year, d.month)
  }

  /**
   * A day that exists: what a JavaScript `Date` that is not an Invalid Date
   * denotes, and so every date the datastore holds.
   */
  type Day = d: Date | IsValid(d) witness Date(2000, 1, 1)

  /** `a` is not later than `b`. */
  predicate NotAfter(a: Date, b: Date) {
    a.year < b.year
    || (a.year == b.year && a.month < b.month)
    || (a.year == b.year && a.month == b.month && a.day <= b.day)
  }

  /** Day order is a total order. */
  lemma NotAfterTotalOrder(a: Date, b: Date, c: Date)
    ensures NotAfter(a, a)
    ensures NotAfter(a, b) || NotAfter(b, a)
    ensures NotAfter(a, b) && NotAfter(b, a) ==> a == b
    ensures NotAfter(a, b) && NotAfter(b, c) ==> NotAfter(a, c)
  {
  }

  /** A valid day lies between January 1 and December 31 of some year exactly when it is in that year. */
  lemma WithinYearIffSameYear(d: Day, y: int)
    ensures NotAfter(Date(y, 1, 1), d) && NotAfter(d, Date(y, 12, 31)) <==> d.year == y
  {
  }

  // ---------------------------------------------------------------------------
  // YYYY-MM-DD

  /** The shape `DDDD-DD-DD`, digits and dashes in place. */
  predicate IsIsoShape(s: string) {
    |s| == 10 && s[4] == '-' && s[7] == '-'
    && AllDigits(s[0..4]) && AllDigits(s[5..7]) && AllDigits(s[8..10])
  }

  /**
   * A `YYYY-MM-DD` string naming a day that exists (four-digit year, the
   * leap-year rule of the Gregorian calendar); any other string is rejected.
   */
  function ParseIsoDate(s: string): (r: Option<Date>)
    ensures r.Some? ==> IsValid(r.value) && 0 <= r.value.year <= 9999
  {
    if !IsIsoShape(s) then None
    else
      var d := Date(DecimalValue(s[0..4]), DecimalValue(s[5..7]), DecimalValue(s[8..10]));
      assert DecimalValue(s[0..4]) < 10000 by { DecimalBound(s[0..4]); }
      if IsValid(d) then Some(d) else None
  }

  lemma {:induction false} DecimalBound(s: string)
    requires AllDigits(s)
    ensures DecimalValue(s) < Pow10(|s|)
  {
    if s != [] {
      DecimalBound(s[..|s| - 1]);
    }
  }

  /** The day written `yyyy-MM-dd`: year padded to four digits, month and day to two. */
  function FormatIsoDate(d: Date): (s: string)
    requires IsValid(d) && 0 <= d.year <= 9999
    ensures IsIsoShape(s)
  {
    PadDigits(d.year, 4) + "-" + PadDigits(d.month, 2) + "-" + PadDigits(d.day, 2)
  }

  /** Reading back a formatted day gives the day. */
  lemma ParseFormatIsoDate(d: Date)
    requires IsValid(d) && 0 <= d.year <= 9999
    ensures ParseIsoDate(FormatIsoDate(d)) == Some(d)
  {
    var s := FormatIsoDate(d);
    assert s[0..4] == PadDigits(d.year, 4);
    assert s[5..7] == PadDigits(d.month, 2);
    assert s[8..10] == PadDigits(d.day, 2);
    PadDigitsValue(d.year, 4);
    PadDigitsValue(d.month, 2);
    PadDigitsValue(d.day, 2);
  }

  /** Every accepted string is the canonical text of the day it names. */
  lemma FormatParseIsoDate(s: string)
    requires ParseIsoDate(s).Some?
    ensures FormatIsoDate(ParseIsoDate(s).value) == s
  {
    var d := ParseIsoDate(s).value;
    assert IsIsoShape(s);
    var year, month, day := s[0..4], s[5..7], s[8..10];
    assert d.year == DecimalValue(year) && d.month == DecimalValue(month) && d.day == DecimalValue(day);
    PadDecimal(year);
    PadDecimal(month);
    PadDecimal(day);
    IsoPieces(s);
  }

  /** A ten-character string is its year, month and day digits with the dashes between them. */
  lemma IsoPieces(s: string)
    requires IsIsoShape(s)
    ensures s == s[0..4] + "-" + s[5..7] + "-" + s[8..10]
  {
    var t := s[0..4] + "-" + s[5..7] + "-" + s[8..10];
    assert |t| == 10;
    forall i | 0 <= i < 10 ensures s[i] == t[i] {
    }
  }

  /** Padding a digit string's value back to its width reproduces it. */
  lemma {:induction false} PadDecimal(s: string)
    requires AllDigits(s)
    ensures PadDigits(DecimalValue(s), |s|) == s
  {
    if s != [] {
      var init := s[..|s| - 1];
      var v := DecimalValue(s);
      assert v / 10 == DecimalValue(init);
      assert v % 10 == DigitValue(s[|s| - 1]);
      PadDecimal(init);
      assert s == init + [s[|s| - 1]];
    }
  }
}
