/** The parts of Kotlin's `Int` that the slider relies on: the 32-bit range,
    wrap-around of `Int` subtraction, `Float.toInt()` (floats idealised as
    `real`) and `Int.toString()`. */
module KotlinInt {

  const INT_MIN: int := -0x8000_0000
  const INT_MAX: int := 0x7fff_ffff
  const MODULUS: int := 0x1_0000_0000

  /** A Kotlin `Int`. */
  type Int32 = x: int | INT_MIN <= x <= INT_MAX

  function Min(a: int, b: int): int { if a <= b then a else b }

  function Max(a: int, b: int): int { if a >= b then a else b }

  function Abs(x: real): real { if x < 0.0 then -x else x }

  /** The `Int` that Kotlin arithmetic yields when the exact result is `x`:
      the one 32-bit value congruent to `x` modulo 2^32. */
  function Wrap(x: int): (r: Int32)
    ensures INT_MIN <= x <= INT_MAX ==> r == x
    ensures (x - r) % MODULUS == 0
  {
    (x - INT_MIN) % MODULUS + INT_MIN
  }

  /** Two exact results less than 2^32 apart wrap to the same `Int` exactly
      when they are equal. */
  lemma WrapInjective(a: int, b: int)
    requires -MODULUS < a - b < MODULUS
    ensures Wrap(a) == Wrap(b) <==> a == b
  {
    var w := Wrap(a);
    if Wrap(a) != Wrap(b) { return; }
    var ka, kb := (a - w) / MODULUS, (b - w) / MODULUS;
    assert a - w == ka * MODULUS;
    assert b - w == kb * MODULUS;
    assert a - b == (ka - kb) * MODULUS;
  }

  /** `n` is `x` rounded toward zero: it lies between 0 and `x`, less than
      one away from `x`. */
  ghost predicate TruncatesTo(x: real, n: int) {
    && (0.0 <= x ==> n as real <= x < n as real + 1.0)
    && (x < 0.0 ==> n as real - 1.0 < x <= n as real)
  }

  /** Kotlin `Float.toInt()` on a finite value: rounds toward zero and
      saturates at the ends of the `Int` range. */
  function FloatToInt(x: real): (r: Int32)
    ensures INT_MIN as real < x < INT_MAX as real ==> TruncatesTo(x, r)
    ensures x >= INT_MAX as real ==> r == INT_MAX
    ensures x <= INT_MIN as real ==> r == INT_MIN
  {
    if x >= INT_MAX as real then INT_MAX
    else if x <= INT_MIN as real then INT_MIN
    else if x >= 0.0 then x.Floor
    else -((-x).Floor)
  }

  /** Conversion keeps a value that lies between two `Int`s between them, and
      an exact integer unchanged. */
  lemma FloatToIntBetween(x: real, lo: Int32, hi: Int32)
    requires lo as real <= x <= hi as real
    ensures lo <= FloatToInt(x) <= hi
    ensures x == x.Floor as real ==> FloatToInt(x) == x.Floor
  {
    var r := FloatToInt(x);
    if INT_MIN as real < x < INT_MAX as real {
      if 0.0 <= x {
        assert r as real <= x < r as real + 1.0;
        assert lo as real < r as real + 1.0;
      } else {
        assert r as real - 1.0 < x <= r as real;
        assert r as real - 1.0 < hi as real;
      }
    }
  }

  /** The outcome of a Kotlin `Float` division, floats idealised as reals: a
      finite quotient, or the IEEE 754 value a zero divisor yields. */
  datatype Quotient = Finite(value: real) | NaN | PosInfinity | NegInfinity

  /** `a / b` on floats: 0/0 is NaN, and any other number over zero is an
      infinity of its sign. */
  function Divide(a: real, b: real): (q: Quotient)
    ensures q.Finite? <==> b != 0.0
    ensures q.Finite? ==> q.value * b == a
    ensures q.NaN? <==> a == 0.0 && b == 0.0
    ensures b == 0.0 && a > 0.0 ==> q.PosInfinity?
    ensures b == 0.0 && a < 0.0 ==> q.NegInfinity?
  {
    if b != 0.0 then Finite(a / b)
    else if a == 0.0 then NaN
    else if a > 0.0 then PosInfinity
    else NegInfinity
  }

  /** `(q * s + m).toInt()` for a `q` that is not finite and finite `s` and
      `m`: an infinity times zero, and NaN, convert to 0; an infinity of
      either sign saturates at that end of the `Int` range. */
  function NonFiniteToInt(q: Quotient, s: real): (r: Int32)
    requires !q.Finite?
    ensures q.NaN? || s == 0.0 ==> r == 0
    ensures (q.PosInfinity? && s > 0.0) || (q.NegInfinity? && s < 0.0) ==> r == INT_MAX
    ensures (q.PosInfinity? && s < 0.0) || (q.NegInfinity? && s > 0.0) ==> r == INT_MIN
  {
    if q.NaN? || s == 0.0 then 0
    else if q.PosInfinity? == (s > 0.0) then INT_MAX
    else INT_MIN
  }

  /** Within the `Int` range, conversion moves a value by less than one. */
  lemma FloatToIntNear(x: real)
    requires INT_MIN as real <= x <= INT_MAX as real
    ensures Abs(FloatToInt(x) as real - x) < 1.0
  {
  }

  // ---- Int.toString() ----

  predicate IsDigit(c: char) { '0' <= c <= '9' }

  predicate AllDigits(s: string) { forall i :: 0 <= i < |s| ==> IsDigit(s[i]) }

  function DigitChar(d: nat): (c: char)
    requires d < 10
    ensures IsDigit(c) && c as int - '0' as int == d
  {
    ('0' as int + d) as char
  }

  /** The decimal digits of `n`, most significant first, without leading
      zeros. */
  function Digits(n: nat): (s: string)
    ensures s != [] && AllDigits(s)
    ensures s[0] == '0' ==> n == 0 && s == "0"
    decreases n
  {
    if n < 10 then [DigitChar(n)] else Digits(n / 10) + [DigitChar(n % 10)]
  }

  /** Kotlin `Int.toString()`: the decimal digits of the magnitude, preceded
      by '-' when the number is negative. */
  function IntToString(n: int): (s: string)
    ensures s != []
    ensures s[0] == '-' <==> n < 0
    ensures n >= 0 && |s| > 1 ==> s[0] != '0'
    ensures n < 0 ==> |s| > 1 && s[1] != '0'
  {
    if n < 0 then "-" + Digits(-n) else Digits(n)
  }

  /** The number a string of decimal digits denotes. */
  function DigitsValue(s: string): nat
    requires AllDigits(s)
  {
    if s == [] then 0
    else DigitsValue(s[..|s| - 1]) * 10 + (s[|s| - 1] as int - '0' as int)
  }

  /** A decimal numeral: digits, optionally preceded by a minus sign. */
  predicate IsNumeral(s: string) {
    if |s| > 0 && s[0] == '-' then |s| > 1 && AllDigits(s[1..]) else |s| > 0 && AllDigits(s)
  }

  /** A numeral as `Int.toString()` writes it: no leading zero, and no minus
      sign before a zero. */
  predicate IsCanonical(s: string) {
    && IsNumeral(s)
    && (s[0] == '-' ==> s[1] != '0')
    && (s[0] != '-' && |s| > 1 ==> s[0] != '0')
  }

  /** The integer a decimal numeral denotes: the reading that `IntToString`
      inverts. */
  function ParseInt(s: string): int
    requires IsNumeral(s)
  {
    if s[0] == '-' then -(DigitsValue(s[1..]) as int) else DigitsValue(s)
  }

  lemma {:induction false} DigitsValueOfDigits(n: nat)
    ensures DigitsValue(Digits(n)) == n
    decreases n
  {
    if n >= 10 {
      var s := Digits(n);
      assert s[..|s| - 1] == Digits(n / 10);
      DigitsValueOfDigits(n / 10);
    }
  }

  /** `IntToString` yields a canonical numeral that reads back as the same
      number. */
  lemma IntToStringRoundTrip(n: int)
    ensures IsCanonical(IntToString(n))
    ensures ParseInt(IntToString(n)) == n
  {
    var s := IntToString(n);
    if n < 0 {
      assert s[1..] == Digits(-n);
      DigitsValueOfDigits(-n);
    } else {
      DigitsValueOfDigits(n);
    }
  }

  /** Digits without a leading zero denote a positive number. */
  lemma {:induction false} DigitsValuePositive(s: string)
    requires s != [] && AllDigits(s) && s[0] != '0'
    ensures DigitsValue(s) > 0
    decreases |s|
  {
    if |s| > 1 {
      DigitsValuePositive(s[..|s| - 1]);
    }
  }

  lemma {:induction false} DigitsOfDigitsValue(s: string)
    requires s != [] && AllDigits(s) && (|s| > 1 ==> s[0] != '0')
    ensures Digits(DigitsValue(s)) == s
    decreases |s|
  {
    if |s| > 1 {
      var p := s[..|s| - 1];
      DigitsValuePositive(p);
      DigitsOfDigitsValue(p);
      assert s == p + [s[|s| - 1]];
    }
  }

  /** Every canonical numeral is the text `IntToString` writes for the
      number it denotes: the two are inverse on canonical numerals. */
  lemma ParseIntRoundTrip(s: string)
    requires IsCanonical(s)
    ensures IntToString(ParseInt(s)) == s
  {
    if s[0] == '-' {
      var d := s[1..];
      DigitsValuePositive(d);
      DigitsOfDigitsValue(d);
      assert s == "-" + d;
    } else {
      DigitsOfDigitsValue(s);
    }
  }
}
