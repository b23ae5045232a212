/**
 * Unsigned decimal rendering, as printf's `%lu` produces it, and the 64-bit
 * integer types of the psinfo record that the start-time token is read from.
 */
module Decimal {

  /** A C `long` (LP64): the type of `tv_sec` and `tv_nsec` in a timestruc_t. */
  newtype Long = x: int | -0x8000_0000_0000_0000 <= x < 0x8000_0000_0000_0000

  /** Number of values of a C `unsigned long` (LP64). */
  const ULONG_RANGE: int := 0x1_0000_0000_0000_0000

  /** `%lu` reads its `long` argument as an `unsigned long`: a negative value wraps by 2^64. */
  function AsULong(v: Long): (u: nat)
    ensures u < ULONG_RANGE
    ensures v >= 0 ==> u == v as int
    ensures v < 0 ==> u >= ULONG_RANGE / 2 && u == v as int + ULONG_RANGE
  {
    if v < 0 then v as int + ULONG_RANGE else v as int
  }

  /** The reinterpretation loses nothing: distinct longs print as distinct unsigned values. */
  lemma AsULongInjective(a: Long, b: Long)
    requires AsULong(a) == AsULong(b)
    ensures a == b
  {
  }

  predicate IsDigit(c: char) {
    '0' <= c <= '9'
  }

  predicate AllDigits(s: string) {
    forall i :: 0 <= i < |s| ==> IsDigit(s[i])
  }

  function DigitChar(d: nat): (c: char)
    requires d < 10
    ensures IsDigit(c)
  {
    ('0' as int + d) as char
  }

  function DigitValue(c: char): (d: nat)
    requires IsDigit(c)
    ensures d < 10 && DigitChar(d) == c
  {
    c as int - '0' as int
  }

  /** The decimal digits of `n`, most significant first, without leading zeros. */
  function Digits(n: nat): (s: string)
    ensures |s| >= 1 && AllDigits(s)
    ensures s[0] == '0' ==> n == 0 && s == "0"
    decreases n
  {
    if n < 10 then [DigitChar(n)] else Digits(n / 10) + [DigitChar(n % 10)]
  }

  /** The number a digit string denotes (the reading `strtoul` would give it). */
  function Value(s: string): nat
    requires AllDigits(s)
  {
    if s == [] then 0 else Value(s[..|s| - 1]) * 10 + DigitValue(s[|s| - 1])
  }

  /** Reading the rendering back gives the number that was rendered. */
  lemma {:induction false} ValueOfDigits(n: nat)
    ensures Value(Digits(n)) == n
    decreases n
  {
    var s := Digits(n);
    if n >= 10 {
      ValueOfDigits(n / 10);
      assert s[..|s| - 1] == Digits(n / 10);
      assert DigitValue(s[|s| - 1]) == n % 10;
    }
  }

  /** Distinct numbers render as distinct digit strings. */
  lemma DigitsInjective(a: nat, b: nat)
    requires Digits(a) == Digits(b)
    ensures a == b
  {
    ValueOfDigits(a);
    ValueOfDigits(b);
  }

  function Pow10(k: nat): (p: nat)
    ensures p >= 1
  {
    if k == 0 then 1 else 10 * Pow10(k - 1)
  }

  lemma {:induction false} Pow10Add(a: nat, b: nat)
    ensures Pow10(a + b) == Pow10(a) * Pow10(b)
  {
    if a > 0 {
      Pow10Add(a - 1, b);
      assert Pow10(a + b) == 10 * Pow10(a - 1 + b);
    }
  }

  /** A number below 10^k needs at most k digits. */
  lemma {:induction false} DigitsLengthBound(n: nat, k: nat)
    requires 1 <= k && n < Pow10(k)
    ensures |Digits(n)| <= k
    decreases n
  {
    if n >= 10 {
      assert k >= 2;
      assert n / 10 < Pow10(k - 1);
      DigitsLengthBound(n / 10, k - 1);
    }
  }

  /** Every unsigned long renders in at most 20 digits. */
  lemma ULongDigitsFit(u: nat)
    requires u < ULONG_RANGE
    ensures |Digits(u)| <= 20
  {
    assert Pow10(5) == 100_000;
    Pow10Add(5, 5);
    Pow10Add(10, 10);
    DigitsLengthBound(u, 20);
  }
}
