/**
 * The numeric steps of the decoder, on exact integers and reals: 32-bit
 * two's-complement sign extension of the Demand field, powers of ten, and
 * Python's `round` (to an integer, and to a number of decimal digits).
 */
module Arith {
  const TwoTo31: int := 0x8000_0000
  const TwoTo32: int := 0x1_0000_0000

  /** `raw & 0x80000000` on Python's unbounded two's-complement integers: bit 31 of `raw`, in place. */
  function Bit31(raw: int): (b: int)
    ensures b == 0 || b == TwoTo31
    ensures 0 <= raw % TwoTo32 - b < TwoTo31
  {
    if raw % TwoTo32 >= TwoTo31 then TwoTo31 else 0
  }

  /** `raw & 0x7fffffff`: the low 31 bits of `raw`. */
  function Low31(raw: int): (b: int)
    ensures 0 <= b < TwoTo31
    ensures (raw - b) % TwoTo31 == 0
  {
    raw % TwoTo31
  }

  /**
   * `-(raw & 0x80000000) | (raw & 0x7fffffff)`. The left operand is 0 or
   * -2^31, whose low 31 bits are clear, and the right one lies below 2^31,
   * so the `|` of the two is their sum. The result is the one 32-bit signed
   * value congruent to `raw` modulo 2^32.
   */
  function SignExtend32(raw: int): (v: int)
    ensures -TwoTo31 <= v < TwoTo31
    ensures (v - raw) % TwoTo32 == 0
  {
    var u := raw % TwoTo32;
    assert Low31(raw) == u % TwoTo31;
    -Bit31(raw) + Low31(raw)
  }

  /** The 32-bit signed reading of a value is unique: two values in range that agree modulo 2^32 are equal. */
  lemma {:induction false} SignedWordUnique(v: int, w: int)
    requires -TwoTo31 <= v < TwoTo31 && -TwoTo31 <= w < TwoTo31
    requires (v - w) % TwoTo32 == 0
    ensures v == w
  {
    var k := (v - w) / TwoTo32;
    assert v - w == k * TwoTo32;
    assert -1 < k < 1;
  }

  /** A raw Demand value below 2^31 is its own signed reading. */
  lemma SignExtendLow(raw: int)
    requires 0 <= raw < TwoTo31
    ensures SignExtend32(raw) == raw
  {
    SignedWordUnique(SignExtend32(raw), raw);
  }

  /** A raw Demand value with bit 31 set, within 32 bits, reads as `raw - 2^32`. */
  lemma SignExtendHigh(raw: int)
    requires TwoTo31 <= raw < TwoTo32
    ensures SignExtend32(raw) == raw - TwoTo32
  {
    SignedWordUnique(SignExtend32(raw), raw - TwoTo32);
  }

  /** Bits above bit 31 do not matter. */
  lemma SignExtendPeriodic(raw: int)
    ensures SignExtend32(raw + TwoTo32) == SignExtend32(raw)
  {
    var v, w := SignExtend32(raw + TwoTo32), SignExtend32(raw);
    var j, k := (v - raw - TwoTo32) / TwoTo32, (w - raw) / TwoTo32;
    assert v - raw - TwoTo32 == j * TwoTo32;
    assert w - raw == k * TwoTo32;
    assert v - w == (j + 1 - k) * TwoTo32;
    SignedWordUnique(v, w);
  }

  lemma SignExtendExamples()
    ensures SignExtend32(0xFFFF_FFFF) == -1
    ensures SignExtend32(0x0000_0005) == 5
    ensures SignExtend32(0x8000_0000) == -TwoTo31
  {
    SignExtendHigh(0xFFFF_FFFF);
    SignExtendLow(5);
    SignExtendHigh(0x8000_0000);
  }

  function Pow10(k: nat): (p: nat)
    ensures p >= 1
  {
    if k == 0 then 1 else 10 * Pow10(k - 1)
  }

  /** Python's `pow(10, d)` for any integer `d`, as an exact real (a negative `d` gives a fraction). */
  function Pow10R(d: int): (p: real)
    ensures p > 0.0
    ensures d >= 0 ==> p == Pow10(d) as real
    ensures d < 0 ==> p * Pow10(-d) as real == 1.0
  {
    if d >= 0 then Pow10(d) as real else 1.0 / Pow10(-d) as real
  }

  /**
   * Python's `round(x)`: the nearest integer, and of two equally near the
   * even one.
   */
  function RoundHalfEven(x: real): (n: int)
    ensures x - 0.5 <= n as real <= x + 0.5
    ensures (n as real == x - 0.5 || n as real == x + 0.5) ==> n % 2 == 0
  {
    var f := x.Floor;
    var frac := x - f as real;
    if frac < 0.5 then f
    else if frac > 0.5 then f + 1
    else if f % 2 == 0 then f
    else f + 1
  }

  /** The two properties of RoundHalfEven pin its result down: no other integer has them. */
  lemma {:induction false} RoundHalfEvenUnique(x: real, m: int)
    requires x - 0.5 <= m as real <= x + 0.5
    requires (m as real == x - 0.5 || m as real == x + 0.5) ==> m % 2 == 0
    ensures m == RoundHalfEven(x)
  {
  }

  /** Integers round to themselves, and ties go to the even neighbour. */
  lemma RoundHalfEvenExamples(k: int)
    ensures RoundHalfEven(k as real) == k
    ensures RoundHalfEven(2.5) == 2 && RoundHalfEven(3.5) == 4 && RoundHalfEven(-0.5) == 0
  {
    RoundHalfEvenUnique(k as real, k);
    RoundHalfEvenUnique(2.5, 2);
    RoundHalfEvenUnique(3.5, 4);
    RoundHalfEvenUnique(-0.5, 0);
  }

  /**
   * `x` rounded half-to-even to a whole number of units of size `1/p`; it
   * lies within half a unit of `x`.
   */
  function RoundToUnits(x: real, p: real): (y: real)
    requires p > 0.0
    ensures -0.5 <= (y - x) * p <= 0.5
  {
    var n := RoundHalfEven(x * p);
    var y := n as real / p;
    assert y * p == n as real;
    assert (y - x) * p == y * p - x * p;
    y
  }

  /** Scaled back up, the result is a whole number of units: the integer nearest `x * p`. */
  lemma {:induction false} RoundToUnitsWhole(x: real, p: real)
    requires p > 0.0
    ensures RoundToUnits(x, p) * p == RoundHalfEven(x * p) as real
  {
    var n := RoundHalfEven(x * p);
    var y := RoundToUnits(x, p);
    assert y == n as real / p;
  }

  lemma {:induction false} RoundToUnitsExact(x: real, p: real)
    requires p > 0.0
    requires (x * p).Floor as real == x * p
    ensures RoundToUnits(x, p) == x
  {
    var k := (x * p).Floor;
    assert x * p == k as real;
    RoundHalfEvenUnique(x * p, k);
    assert RoundToUnits(x, p) == k as real / p;
    assert (x * p) / p == x;
  }

  /**
   * Python's `round(x, d)`: `x` rounded half-to-even at the `d`-th decimal
   * place (at the `-d`-th place left of the point when `d` is negative); it
   * lies within half a unit of that place from `x`.
   */
  function RoundTo(x: real, d: int): (y: real)
    ensures -0.5 <= (y - x) * Pow10R(d) <= 0.5
  {
    RoundToUnits(x, Pow10R(d))
  }

  /** `round(x, d)` has at most `d` decimals: scaled by 10^d it is a whole number, the one nearest `x` scaled by 10^d. */
  lemma RoundToWholeUnits(x: real, d: int)
    ensures RoundTo(x, d) * Pow10R(d) == RoundHalfEven(x * Pow10R(d)) as real
  {
    RoundToUnitsWhole(x, Pow10R(d));
    assert RoundTo(x, d) == RoundToUnits(x, Pow10R(d));
  }

  /** A value that already has at most `d` decimals is kept as it is by `round(x, d)`. */
  lemma RoundToExact(x: real, d: int)
    requires (x * Pow10R(d)).Floor as real == x * Pow10R(d)
    ensures RoundTo(x, d) == x
  {
    RoundToUnitsExact(x, Pow10R(d));
    assert RoundTo(x, d) == RoundToUnits(x, Pow10R(d));
  }
}
