/**
 * Money amounts. The server keeps balances and payouts as floating-point
 * numbers and rounds them with `Math.round(x * 100) / 100`. Here amounts are
 * exact reals and that rounding is the function `Round2`.
 */
module Money {

  /** `x` is a whole number of cents. */
  predicate IsCents(x: real) {
    (x * 100.0).Floor as real == x * 100.0
  }

  /**
   * `Math.round(x * 100) / 100`: `Math.round` rounds half-way cases up
   * (towards +infinity), which is `floor(y + 0.5)`.
   * The result is the whole number of cents nearest to `x`, ties going up.
   */
  function Round2(x: real): (r: real)
    ensures IsCents(r)
    ensures r - 0.005 <= x < r + 0.005
  {
    var k := (x * 100.0 + 0.5).Floor;
    assert k as real <= x * 100.0 + 0.5 < k as real + 1.0;
    k as real / 100.0
  }

  /** Round2 is the only whole-cents value within half a cent of `x` (ties up). */
  lemma Round2Unique(x: real, c: real)
    requires IsCents(c)
    requires c - 0.005 <= x < c + 0.005
    ensures Round2(x) == c
  {
    var k := (c * 100.0).Floor;
    assert k as real == c * 100.0;
    assert k as real - 0.5 <= x * 100.0 < k as real + 0.5;
    assert (x * 100.0 + 0.5).Floor == k;
  }

  /** Rounding an amount that is already in cents changes nothing. */
  lemma Round2OfCents(c: real)
    requires IsCents(c)
    ensures Round2(c) == c
  {
    Round2Unique(c, c);
  }

  /** Rounding twice is rounding once. */
  lemma Round2Idempotent(x: real)
    ensures Round2(Round2(x)) == Round2(x)
  {
    Round2OfCents(Round2(x));
  }

  /** Rounding never turns a non-negative amount negative. */
  lemma Round2NonNegative(x: real)
    requires 0.0 <= x
    ensures 0.0 <= Round2(x)
  {
    var r := Round2(x);
    var k := (r * 100.0).Floor;
    assert k as real == r * 100.0;
    assert -0.5 < k as real;
  }

  /** Rounding preserves the order of amounts. */
  lemma Round2Monotone(x: real, y: real)
    requires x <= y
    ensures Round2(x) <= Round2(y)
  {
    var a := (x * 100.0 + 0.5).Floor;
    var b := (y * 100.0 + 0.5).Floor;
    assert x * 100.0 <= y * 100.0;
    assert a as real < b as real + 1.0;
    assert a <= b;
    assert Round2(x) == a as real / 100.0 && Round2(y) == b as real / 100.0;
  }
}
