/**
 * Calendar dates in Go's reference layout "2006-01-02", which is the
 * full-date form of section 5.6 of RFC 3339 with the day-of-month limits of
 * its section 5.7 (February has 29 days in leap years).
 */
module Dates {
  import opened Wrappers
  import opened StrConv

  datatype Date = Date(year: int, month: int, day: int)

  /** Gregorian leap years, as RFC 3339 appendix C and Go's time package define them. */
  predicate IsLeap(year: int) {
    year % 4 == 0 && (year % 100 != 0 || year % 400 == 0)
  }

  function DaysIn(month: int, year: int): (n: int)
    requires 1 <= month <= 12
    ensures 28 <= n <= 31
  {
    if month == 2 then (if IsLeap(year) then 29 else 28)
    else if month == 4 || month == 6 || month == 9 || month == 11 then 30
    else 31
  }

  /** A date the four-digit layout can denote. */
  predicate Valid(d: Date) {
    0 <= d.year <= 9999 && 1 <= d.month <= 12 && 1 <= d.day <= DaysIn(d.month, d.year)
  }

  /** Go's zero time.Time, 0001-01-01: what an absent nullable time holds. */
  const ZeroTime: Date := Date(1, 1, 1)

  /** The error time.Parse returns; the model keeps only the rejected text. */
  datatype DateError = DateError(value: string)

  function Pad2(n: nat): (r: string)
    requires n < 100
    ensures |r| == 2 && AllDigits(r) && DecimalValue(r) == n
  {
    var r := [DigitChar(n / 10), DigitChar(n % 10)];
    TwoDigitValue(r);
    r
  }

  function Pad4(n: nat): (r: string)
    requires n < 10000
    ensures |r| == 4 && AllDigits(r) && DecimalValue(r) == n
  {
    var r := Pad2(n / 100) + Pad2(n % 100);
    DecimalValueAppend(Pad2(n / 100), Pad2(n % 100));
    r
  }

  lemma TwoDigitValue(s: string)
    requires |s| == 2 && AllDigits(s)
    ensures DecimalValue(s) == DigitValue(s[0]) * 10 + DigitValue(s[1])
  {
    assert s[..1] == [s[0]];
    assert s[..1][..0] == [];
    assert DecimalValue(s[..1]) == DigitValue(s[0]);
    assert DecimalValue(s) == DecimalValue(s[..1]) * 10 + DigitValue(s[1]);
  }

  /** The value of a concatenation of digit strings. */
  lemma {:induction false} DecimalValueAppend(a: string, b: string)
    requires AllDigits(a) && AllDigits(b)
    ensures AllDigits(a + b)
    ensures DecimalValue(a + b) == DecimalValue(a) * Pow10(|b|) + DecimalValue(b)
  {
    if b == [] {
      assert a + b == a;
    } else {
      var b' := b[..|b| - 1];
      DecimalValueAppend(a, b');
      assert (a + b)[..|a + b| - 1] == a + b';
      assert (a + b)[|a + b| - 1] == b[|b| - 1];
      var d := DigitValue(b[|b| - 1]);
      assert DecimalValue(a + b) == DecimalValue(a + b') * 10 + d;
      assert DecimalValue(b) == DecimalValue(b') * 10 + d;
      assert Pow10(|b|) == 10 * Pow10(|b'|);
      ShiftAppend(DecimalValue(a), Pow10(|b'|), DecimalValue(b'), d);
    }
  }

  lemma ShiftAppend(x: nat, p: nat, y: nat, d: nat)
    ensures (x * p + y) * 10 + d == x * (10 * p) + (y * 10 + d)
  {
  }

  /** time.Time.Format("2006-01-02"). */
  function FormatDate(d: Date): (r: string)
    requires Valid(d)
    ensures |r| == 10 && r[4] == '-' && r[7] == '-'
  {
    Pad4(d.year) + "-" + Pad2(d.month) + "-" + Pad2(d.day)
  }

  /** The shape of the layout: four digits, dash, two digits, dash, two digits. */
  predicate LayoutShape(s: string) {
    |s| == 10 && s[4] == '-' && s[7] == '-'
    && AllDigits(s[0..4]) && AllDigits(s[5..7]) && AllDigits(s[8..10])
  }

  /**
   * time.Parse("2006-01-02", s): the exact shape, a month from 1 to 12 and
   * a day within that month of that year; anything else, the empty text
   * included, is an error.
   */
  function ParseDate(s: string): (r: Result<Date, DateError>)
    ensures r.Success? ==> Valid(r.value) && FormatDate(r.value) == s
    ensures r.Failure? ==> r.error == DateError(s)
    ensures r.Success? ==> LayoutShape(s)
    ensures s == "" ==> r.Failure?
  {
    if !LayoutShape(s) then Failure(DateError(s))
    else
      var d := Date(DecimalValue(s[0..4]), DecimalValue(s[5..7]), DecimalValue(s[8..10]));
      if 1 <= d.month <= 12 && 1 <= d.day <= DaysIn(d.month, d.year) then
        TextOfDigits(s[0..4]);
        TextOfDigits(s[5..7]);
        TextOfDigits(s[8..10]);
        assert s == s[0..4] + "-" + s[5..7] + "-" + s[8..10];
        Success(d)
      else Failure(DateError(s))
  }

  /** A fixed-width digit string is the padding of its own value. */
  lemma TextOfDigits(s: string)
    requires AllDigits(s) && (|s| == 2 || |s| == 4)
    ensures DecimalValue(s) < Pow10(|s|)
    ensures |s| == 2 ==> Pad2(DecimalValue(s)) == s
    ensures |s| == 4 ==> Pad4(DecimalValue(s)) == s
  {
    if |s| == 2 {
      PadOfTwo(s);
    } else {
      var hi, lo := s[..2], s[2..];
      assert s == hi + lo;
      DecimalValueAppend(hi, lo);
      PadOfTwo(hi);
      PadOfTwo(lo);
      var v := DecimalValue(s);
      assert v == DecimalValue(hi) * 100 + DecimalValue(lo);
      assert v / 100 == DecimalValue(hi) && v % 100 == DecimalValue(lo);
    }
  }

  lemma PadOfTwo(s: string)
    requires AllDigits(s) && |s| == 2
    ensures DecimalValue(s) < 100 && Pad2(DecimalValue(s)) == s
  {
    TwoDigitValue(s);
    var v := DecimalValue(s);
    assert v / 10 == DigitValue(s[0]) && v % 10 == DigitValue(s[1]);
  }

  /** Parsing a formatted date gives the same date back. */
  lemma {:induction false} FormatDateRoundTrip(d: Date)
    requires Valid(d)
    ensures ParseDate(FormatDate(d)) == Success(d)
  {
    var s := FormatDate(d);
    assert s[0..4] == Pad4(d.year);
    assert s[5..7] == Pad2(d.month);
    assert s[8..10] == Pad2(d.day);
  }

  /** February 29th exists exactly in leap years. */
  lemma {:induction false} LeapDay(year: nat)
    requires year < 10000
    ensures ParseDate(Pad4(year) + "-02-29").Success? <==> IsLeap(year)
  {
    var s := Pad4(year) + "-02-29";
    assert s[0..4] == Pad4(year);
    assert s[5..7] == "02" && s[8..10] == "29";
    assert DecimalValue("02") == 2 by { assert "02"[..1] == "0"; assert "0"[..0] == []; }
    assert DecimalValue("29") == 29 by { assert "29"[..1] == "2"; assert "2"[..0] == []; }
  }
}
