/** The few pieces of the Java platform that the controller and the user entity rely on:
    the 64-bit `long`, references that may be null, `Long.compareTo`, and the decimal
    rendering that string concatenation applies to a `long` (`Long.toString`). */
module JavaLang {

  const LONG_MIN: int := -0x8000_0000_0000_0000
  const LONG_MAX: int := 0x7FFF_FFFF_FFFF_FFFF

  /** A Java `long`, or a `Long` that is known not to be null. */
  type Long = x: int | LONG_MIN <= x <= LONG_MAX

  /** A Java reference that may be null. */
  datatype Nullable<+T> = Null | Ref(value: T)

  /** `s == null || s.isEmpty()` for a Java string. */
  predicate IsNullOrEmpty(s: Nullable<string>) {
    s.Null? || |s.value| == 0
  }

  /** `Long.compareTo`, which answers -1, 0 or 1. */
  function CompareTo(a: Long, b: Long): (r: int)
    ensures -1 <= r <= 1
    ensures r < 0 <==> a < b
    ensures r == 0 <==> a == b
  {
    if a < b then -1 else if a == b then 0 else 1
  }

  /** What string concatenation appends for a reference operand: `null` becomes "null". */
  function ValueOf(s: Nullable<string>): string {
    match s
    case Null => "null"
    case Ref(v) => v
  }

  predicate IsDigit(c: char) {
    '0' <= c <= '9'
  }

  predicate AllDigits(s: string) {
    forall i :: 0 <= i < |s| ==> IsDigit(s[i])
  }

  function DigitChar(d: nat): (c: char)
    requires d < 10
    ensures IsDigit(c)
  {
    ('0' as int + d) as char
  }

  /** The decimal digits of `n`, most significant first, as `Long.toString` writes them:
      at least one digit, and a leading '0' only for zero itself. */
  function Decimal(n: nat): (r: string)
    ensures |r| > 0
    ensures AllDigits(r)
    ensures r[0] == '0' ==> n == 0
  {
    if n < 10 then [DigitChar(n)] else Decimal(n / 10) + [DigitChar(n % 10)]
  }

  /** The number a string of decimal digits denotes; the reference reading of `Decimal`. */
  function DigitsValue(s: string): nat
    requires AllDigits(s)
  {
    if s == [] then 0
    else 10 * DigitsValue(s[..|s| - 1]) + (s[|s| - 1] as int - '0' as int)
  }

  /** Reading back the digits `Decimal` writes gives the number again. */
  lemma {:induction false} DecimalRoundTrip(n: nat)
    ensures DigitsValue(Decimal(n)) == n
  {
    if n >= 10 {
      var r := Decimal(n);
      assert r[..|r| - 1] == Decimal(n / 10);
      DecimalRoundTrip(n / 10);
    }
  }

  /** `Long.toString`: a minus sign for negative values, then the digits of the magnitude. */
  function LongToString(n: Long): string {
    if n < 0 then "-" + Decimal(Magnitude(n)) else Decimal(Magnitude(n))
  }

  /** The absolute value of a `long`; for `LONG_MIN` it lies just outside the `long` range. */
  function Magnitude(n: Long): nat {
    if n < 0 then -(n as int) else n
  }

  /** The rendering of a `long` never contains a line break. */
  lemma LongToStringHasNoNewline(n: Long)
    ensures '\n' !in LongToString(n)
  {
    var d := Decimal(Magnitude(n));
    assert forall i :: 0 <= i < |d| ==> d[i] != '\n' by {
      forall i | 0 <= i < |d| ensures d[i] != '\n' { assert IsDigit(d[i]); }
    }
  }

  /** Distinct `long` values render differently, so the rendering identifies the value. */
  lemma LongToStringInjective(a: Long, b: Long)
    requires LongToString(a) == LongToString(b)
    ensures a == b
  {
    var da, db := Decimal(Magnitude(a)), Decimal(Magnitude(b));
    if a < 0 && b < 0 {
      assert da == LongToString(a)[1..] == LongToString(b)[1..] == db;
    }
    DecimalRoundTrip(Magnitude(a));
    DecimalRoundTrip(Magnitude(b));
  }
}
