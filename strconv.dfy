/**
 * Base-10 conversion between 64-bit signed integers and text, as Go's
 * strconv.ParseInt(s, 10, 64) and strconv.FormatInt(n, 10) do it.
 * Integers are unbounded here; the int64 range is stated explicitly.
 */
module StrConv {
  import opened Wrappers

  const MinInt64: int := -0x8000_0000_0000_0000
  const MaxInt64: int := 0x7FFF_FFFF_FFFF_FFFF
  const MaxUint64: int := 0xFFFF_FFFF_FFFF_FFFF

  predicate InInt64(n: int) {
    MinInt64 <= n <= MaxInt64
  }

  predicate IsDigit(c: char) {
    '0' <= c <= '9'
  }

  predicate AllDigits(s: string) {
    forall k :: 0 <= k < |s| ==> IsDigit(s[k])
  }

  function DigitValue(c: char): nat
    requires IsDigit(c)
  {
    c as int - '0' as int
  }

  function DigitChar(d: nat): (c: char)
    requires d < 10
    ensures IsDigit(c) && DigitValue(c) == d
  {
    ('0' as int + d) as char
  }

  function Pow10(k: nat): (p: nat)
    ensures p >= 1
  {
    if k == 0 then 1 else 10 * Pow10(k - 1)
  }

  /** The number a string of decimal digits denotes. */
  function DecimalValue(s: string): nat
    requires AllDigits(s)
  {
    if s == [] then 0 else DecimalValue(s[..|s| - 1]) * 10 + DigitValue(s[|s| - 1])
  }

  // ---------------------------------------------------------------- errors

  /** The two failure kinds of strconv: ErrSyntax and ErrRange. */
  datatype NumErrorKind = ErrSyntax | ErrRange

  /** strconv.NumError: the function, the whole input text, and the kind. */
  datatype NumError = NumError(fn: string, num: string, kind: NumErrorKind)

  /**
   * NumError.Error(): `strconv.<fn>: parsing "<num>": <reason>`; the input is
   * quoted as strconv.Quote does for printable text without quotes or backslashes.
   */
  function NumErrorText(e: NumError): string {
    "strconv." + e.fn + ": parsing \"" + e.num + "\": "
    + (if e.kind == ErrSyntax then "invalid syntax" else "value out of range")
  }

  // ---------------------------------------------------------------- parsing

  /**
   * The digit loop of strconv.ParseUint: left to right, the first non-digit
   * is a syntax error and the first step past 2^64 - 1 a range error,
   * whichever comes first.
   */
  function ScanDigits(s: string, n: nat): Result<nat, NumErrorKind>
    requires n <= MaxUint64
    decreases |s|
  {
    if s == [] then Success(n)
    else if !IsDigit(s[0]) then Failure(ErrSyntax)
    else if n * 10 + DigitValue(s[0]) > MaxUint64 then Failure(ErrRange)
    else ScanDigits(s[1..], n * 10 + DigitValue(s[0]))
  }

  /** strconv.ParseUint(s, 10, 64), which rejects the empty string. */
  function ParseUint64(s: string): Result<nat, NumErrorKind> {
    if s == [] then Failure(ErrSyntax) else ScanDigits(s, 0)
  }

  /** The text after one optional leading sign. */
  function Unsigned(s: string): string {
    if s != [] && (s[0] == '+' || s[0] == '-') then s[1..] else s
  }

  /** Optional sign followed by at least one decimal digit: what ParseInt reads. */
  predicate WellFormedDecimal(s: string) {
    Unsigned(s) != [] && AllDigits(Unsigned(s))
  }

  function SignedValue(s: string): int
    requires WellFormedDecimal(s)
  {
    if s[0] == '-' then 0 - DecimalValue(Unsigned(s)) else DecimalValue(Unsigned(s))
  }

  /**
   * strconv.ParseInt(s, 10, 64): succeeds exactly on an optionally signed
   * decimal numeral whose value fits in int64; the error carries the whole text.
   */
  function ParseInt(s: string): (r: Result<int, NumError>)
    ensures r.Success? <==> WellFormedDecimal(s) && InInt64(SignedValue(s))
    ensures r.Success? ==> r.value == SignedValue(s)
    ensures r.Failure? ==> r.error.fn == "ParseInt" && r.error.num == s
    ensures r.Failure? && WellFormedDecimal(s) ==> r.error.kind == ErrRange
    ensures s == "" ==> r.Failure? && r.error.kind == ErrSyntax
  {
    var body := Unsigned(s);
    var neg := s != [] && s[0] == '-';
    ParseUint64Spec(body);
    if s == [] then Failure(NumError("ParseInt", s, ErrSyntax))
    else
      match ParseUint64(body)
      case Failure(kind) => Failure(NumError("ParseInt", s, kind))
      case Success(un) =>
        if !neg && un > MaxInt64 then Failure(NumError("ParseInt", s, ErrRange))
        else if neg && un > -MinInt64 then Failure(NumError("ParseInt", s, ErrRange))
        else Success(if neg then 0 - un else un)
  }

  lemma {:induction false} DecimalValueCons(s: string)
    requires AllDigits(s) && s != []
    ensures DecimalValue(s) == DigitValue(s[0]) * Pow10(|s| - 1) + DecimalValue(s[1..])
  {
    if |s| == 1 {
      assert s[..0] == [];
      assert s[1..] == [];
    } else {
      var init := s[..|s| - 1];
      var tail := s[1..];
      var d := DigitValue(s[|s| - 1]);
      DecimalValueCons(init);
      assert init[1..] == tail[..|tail| - 1];
      assert init[0] == s[0];
      assert tail[|tail| - 1] == s[|s| - 1];
      assert DecimalValue(s) == DecimalValue(init) * 10 + d;
      assert DecimalValue(tail) == DecimalValue(init[1..]) * 10 + d;
      assert Pow10(|s| - 1) == 10 * Pow10(|s| - 2);
      LeadingDigitShift(DigitValue(s[0]), Pow10(|s| - 2), DecimalValue(init[1..]), d);
    }
  }

  /** (a*p + x)*10 + d = a*(10*p) + (x*10 + d). */
  lemma LeadingDigitShift(a: nat, p: nat, x: nat, d: nat)
    ensures (a * p + x) * 10 + d == a * (10 * p) + (x * 10 + d)
  {
  }

  /** One digit step of the scan, in closed form: (n*10 + d)*10^k = n*10^(k+1) + d*10^k. */
  lemma ShiftDigit(n: nat, d: nat, k: nat)
    ensures (n * 10 + d) * Pow10(k) == n * Pow10(k + 1) + d * Pow10(k)
  {
    calc {
      (n * 10 + d) * Pow10(k);
      n * 10 * Pow10(k) + d * Pow10(k);
      { assert Pow10(k + 1) == 10 * Pow10(k); }
      n * Pow10(k + 1) + d * Pow10(k);
    }
  }

  lemma AtLeastOwnShift(m: nat, k: nat, rest: nat)
    ensures m * Pow10(k) + rest >= m
  {
  }

  /** The scan succeeds exactly when the accumulated value never passes 2^64 - 1. */
  lemma {:induction false} ScanDigitsAll(s: string, n: nat)
    requires AllDigits(s) && n <= MaxUint64
    ensures var v := n * Pow10(|s|) + DecimalValue(s);
      ScanDigits(s, n) == if v <= MaxUint64 then Success(v) else Failure(ErrRange)
  {
    if s != [] {
      var d := DigitValue(s[0]);
      var k := |s| - 1;
      var v := n * Pow10(|s|) + DecimalValue(s);
      DecimalValueCons(s);
      ShiftDigit(n, d, k);
      assert v == (n * 10 + d) * Pow10(k) + DecimalValue(s[1..]);
      if n * 10 + d > MaxUint64 {
        AtLeastOwnShift(n * 10 + d, k, DecimalValue(s[1..]));
      } else {
        assert AllDigits(s[1..]);
        ScanDigitsAll(s[1..], n * 10 + d);
      }
    }
  }

  lemma {:induction false} ScanDigitsBad(s: string, n: nat)
    requires !AllDigits(s) && n <= MaxUint64
    ensures ScanDigits(s, n).Failure?
  {
    if IsDigit(s[0]) && n * 10 + DigitValue(s[0]) <= MaxUint64 {
      assert !AllDigits(s[1..]) by {
        var k :| 0 <= k < |s| && !IsDigit(s[k]);
        assert s[1..][k - 1] == s[k];
      }
      ScanDigitsBad(s[1..], n * 10 + DigitValue(s[0]));
    }
  }

  lemma ParseUint64Spec(s: string)
    ensures ParseUint64(s).Success? <==> s != [] && AllDigits(s) && DecimalValue(s) <= MaxUint64
    ensures ParseUint64(s).Success? ==> ParseUint64(s).value == DecimalValue(s)
    ensures ParseUint64(s).Failure? && s != [] && AllDigits(s) ==> ParseUint64(s).error == ErrRange
  {
    if s != [] {
      if AllDigits(s) {
        ScanDigitsAll(s, 0);
      } else {
        ScanDigitsBad(s, 0);
      }
    }
  }

  // ---------------------------------------------------------------- formatting

  /** The canonical decimal numeral of a natural number. */
  function Digits(n: nat): (r: string)
    ensures r != [] && AllDigits(r) && DecimalValue(r) == n
    ensures r[0] == '0' <==> n == 0
    ensures n == 0 ==> r == "0"
  {
    if n < 10 then [DigitChar(n)]
    else
      var r := Digits(n / 10) + [DigitChar(n % 10)];
      assert r[..|r| - 1] == Digits(n / 10);
      r
  }

  /** strconv.FormatInt(n, 10). */
  function FormatInt(n: int): (r: string)
    ensures WellFormedDecimal(r) && SignedValue(r) == n
    ensures r != [] && r[0] != '+'
    ensures InInt64(n) ==> ParseInt(r) == Success(n)
  {
    if n < 0 then "-" + Digits(-n) else Digits(n)
  }

  /** FormatInt prints only digits and a leading minus sign. */
  lemma FormatIntChars(n: int)
    ensures forall k :: 0 <= k < |FormatInt(n)| ==> IsDigit(FormatInt(n)[k]) || (k == 0 && FormatInt(n)[k] == '-')
  {
  }

  /** ParseInt rejects any text with a character that is neither a digit nor a leading sign. */
  lemma ParseIntRejectsStray(s: string, k: nat)
    requires k < |s| && !IsDigit(s[k]) && !(k == 0 && (s[k] == '+' || s[k] == '-'))
    ensures ParseInt(s).Failure?
  {
    if k > 0 || !(s[0] == '+' || s[0] == '-') {
      var body := Unsigned(s);
      if s[0] == '+' || s[0] == '-' {
        assert body[k - 1] == s[k];
      }
    }
  }
}
