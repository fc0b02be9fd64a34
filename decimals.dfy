/**
 * Exact decimal amounts and the rounding that Python's `Decimal.quantize` performs under
 * the default context (ROUND_HALF_EVEN). Quantizing a real `x` to `d` places rounds it to
 * the nearest whole number of 10^-d units, ties going to the even number of units.
 */
module Decimals {

  /** 10 to the power d. */
  function Pow10(d: nat): (p: nat)
    ensures p >= 1
  {
    if d == 0 then 1 else 10 * Pow10(d - 1)
  }

  /** 10^-d as a fraction: the value of one unit at d places. */
  function Scale(d: nat): (p: real)
    ensures p >= 1.0
  {
    Pow10(d) as real
  }

  /** A real with no fractional part. */
  predicate IsIntegral(y: real) {
    y.Floor as real == y
  }

  lemma IntegralInt(n: int)
    ensures IsIntegral(n as real)
  {
  }

  /**
   * Round to an integer, halves going to the even neighbour. The result is within one half
   * of `y`, equals `y` when `y` is already whole, and is even whenever `y` lies exactly
   * half-way between two integers.
   */
  function RoundHalfEven(y: real): (n: int)
    ensures -0.5 <= y - n as real <= 0.5
    ensures IsIntegral(y) ==> n as real == y
    ensures (y - n as real == 0.5 || n as real - y == 0.5) ==> n % 2 == 0
  {
    var f := y.Floor;
    var frac := y - f as real;
    if frac < 0.5 then f
    else if frac > 0.5 then f + 1
    else if f % 2 == 0 then f
    else f + 1
  }

  /**
   * The three properties of RoundHalfEven determine it: any integer within one half of `y`
   * that is even on ties is RoundHalfEven(y).
   */
  lemma RoundHalfEvenUnique(y: real, n: int)
    requires -0.5 <= y - n as real <= 0.5
    requires (y - n as real == 0.5 || n as real - y == 0.5) ==> n % 2 == 0
    ensures n == RoundHalfEven(y)
  {
  }

  /** Rounding a whole number gives that number back. */
  lemma RoundHalfEvenInt(n: int)
    ensures RoundHalfEven(n as real) == n
  {
    IntegralInt(n);
  }

  /** Rounding half-even is symmetric about zero. */
  lemma RoundHalfEvenNegate(y: real)
    ensures RoundHalfEven(-y) == -RoundHalfEven(y)
  {
    RoundHalfEvenUnique(-y, -RoundHalfEven(y));
  }

  /** Rounding half-even is monotone. */
  lemma RoundHalfEvenMonotone(y: real, z: real)
    requires y <= z
    ensures RoundHalfEven(y) <= RoundHalfEven(z)
  {
  }

  /** The number of 10^-d units nearest to `x`, ties to even. */
  function ToUnits(x: real, d: nat): (n: int)
    ensures -0.5 <= x * Scale(d) - n as real <= 0.5
  {
    RoundHalfEven(x * Scale(d))
  }

  /** The value of `n` units of 10^-d. */
  function FromUnits(n: int, d: nat): real {
    n as real / Scale(d)
  }

  /** Reading units back and rounding again gives the same units. */
  lemma {:induction false} UnitsRoundTrip(n: int, d: nat)
    ensures ToUnits(FromUnits(n, d), d) == n
  {
    var p := Scale(d);
    assert (n as real / p) * p == n as real;
    RoundHalfEvenInt(n);
  }

  /** Unit counts are added by adding their values. */
  lemma FromUnitsAdd(a: int, b: int, d: nat)
    ensures FromUnits(a, d) + FromUnits(b, d) == FromUnits(a + b, d)
    ensures -FromUnits(a, d) == FromUnits(-a, d)
  {
    var p := Scale(d);
    assert a as real / p + b as real / p == (a + b) as real / p;
    assert -(a as real / p) == (-a) as real / p;
  }

  /** Comparing unit counts at one precision is comparing their values. */
  lemma FromUnitsOrder(a: int, b: int, d: nat)
    ensures a <= b <==> FromUnits(a, d) <= FromUnits(b, d)
    ensures a == b <==> FromUnits(a, d) == FromUnits(b, d)
  {
    var p := Scale(d);
    assert FromUnits(b, d) - FromUnits(a, d) == (b - a) as real / p;
  }

  /**
   * `x.quantize(Decimal(10) ** -d)`: the multiple of 10^-d nearest to `x`, ties to even,
   * within half a unit of `x`.
   */
  function Quantize(x: real, d: nat): (q: real)
    ensures -0.5 <= (x - q) * Scale(d) <= 0.5
  {
    var p := Scale(d);
    var n := ToUnits(x, d);
    assert (x - n as real / p) * p == x * p - n as real;
    FromUnits(n, d)
  }

  /** A value that is already a whole number of units is left alone by quantizing. */
  lemma {:induction false} QuantizeUnits(n: int, d: nat)
    ensures Quantize(FromUnits(n, d), d) == FromUnits(n, d)
  {
    UnitsRoundTrip(n, d);
  }

  /** Zero is a whole number of units at any precision. */
  lemma {:induction false} QuantizeZero(d: nat)
    ensures Quantize(0.0, d) == 0.0
  {
    assert FromUnits(0, d) == 0.0;
    QuantizeUnits(0, d);
  }

  /** Quantizing twice is quantizing once; converting a quantized value to units is exact. */
  lemma {:induction false} QuantizeIdempotent(x: real, d: nat)
    ensures Quantize(Quantize(x, d), d) == Quantize(x, d)
    ensures ToUnits(Quantize(x, d), d) == ToUnits(x, d)
  {
    QuantizeUnits(ToUnits(x, d), d);
    UnitsRoundTrip(ToUnits(x, d), d);
  }

  /** Quantizing preserves order. */
  lemma {:induction false} QuantizeMonotone(x: real, y: real, d: nat)
    requires x <= y
    ensures ToUnits(x, d) <= ToUnits(y, d)
    ensures Quantize(x, d) <= Quantize(y, d)
  {
    assert x * Scale(d) <= y * Scale(d) by {
      assert y * Scale(d) - x * Scale(d) == (y - x) * Scale(d);
    }
    RoundHalfEvenMonotone(x * Scale(d), y * Scale(d));
    FromUnitsOrder(ToUnits(x, d), ToUnits(y, d), d);
  }

  /** Quantizing commutes with negation (half-even rounding has no bias). */
  lemma {:induction false} QuantizeNegate(x: real, d: nat)
    ensures ToUnits(-x, d) == -ToUnits(x, d)
    ensures Quantize(-x, d) == -Quantize(x, d)
  {
    var p := Scale(d);
    assert -x * p == -(x * p);
    RoundHalfEvenNegate(x * p);
    FromUnitsAdd(ToUnits(x, d), 0, d);
  }

  /** Multiplying the value of `n` units by a whole number `k` is exact. */
  lemma FromUnitsScale(n: int, k: int, d: nat)
    ensures FromUnits(n, d) * k as real == FromUnits(n * k, d)
  {
    var p := Scale(d);
    assert (n as real) * (k as real) == (n * k) as real;
    assert (n as real / p) * k as real == ((n as real) * (k as real)) / p;
  }

  /** 10^(d + e) is 10^d times 10^e. */
  lemma {:induction false} Pow10Add(d: nat, e: nat)
    ensures Pow10(d + e) == Pow10(d) * Pow10(e)
  {
    if e > 0 {
      Pow10Add(d, e - 1);
      assert Pow10(d + e) == 10 * Pow10(d + e - 1);
    }
  }

  lemma CastMul(a: int, b: int)
    ensures (a * b) as real == a as real * b as real
  {
  }

  lemma Cancel(a: real, p: real, k: real)
    requires p >= 1.0 && k >= 1.0
    ensures (a * k) / (p * k) == a / p
  {
  }

  /** A whole number of units at d places is a whole number of units at any e >= d. */
  lemma {:induction false} FromUnitsRefine(n: int, d: nat, e: nat)
    requires d <= e
    ensures FromUnits(n, d) == FromUnits(n * Pow10(e - d), e)
  {
    Pow10Add(d, e - d);
    CastMul(n, Pow10(e - d));
    CastMul(Pow10(d), Pow10(e - d));
    Cancel(n as real, Scale(d), Pow10(e - d) as real);
  }
}
