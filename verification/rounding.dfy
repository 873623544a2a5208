/**
 * PHP `round($x, 2)` on exact reals: the nearest multiple of 0.01, with
 * halves rounded away from zero. Floating-point error is not modelled.
 */
module Rounding {

  /** `x` is a whole number of hundredths. */
  predicate IsCents(x: real) {
    (x * 100.0).Floor as real == x * 100.0
  }

  /**
   * Nearest integer to `y`, halves away from zero: the interval of width
   * one around `y` is closed on the side away from zero, so a tie picks the
   * integer farther from zero.
   */
  function RoundHalfAway(y: real): (k: int)
    ensures y >= 0.0 ==> y - 0.5 < k as real <= y + 0.5
    ensures y < 0.0 ==> y - 0.5 <= k as real < y + 0.5
    ensures y >= 0.0 ==> k >= 0
  {
    if y >= 0.0 then (y + 0.5).Floor else -((-y) + 0.5).Floor
  }

  /** `round(x, 2)`: the nearest whole number of cents, a half cent rounded away from zero. */
  function Round2(x: real): (r: real)
    ensures IsCents(r)
    ensures x >= 0.0 ==> x - 0.005 < r <= x + 0.005
    ensures x < 0.0 ==> x - 0.005 <= r < x + 0.005
    ensures x >= 0.0 ==> r >= 0.0
  {
    var k := RoundHalfAway(x * 100.0);
    assert (k as real / 100.0) * 100.0 == k as real;
    k as real / 100.0
  }

  /** On a half-cent tie `round` goes away from zero: 4.125 becomes 4.13, -4.125 becomes -4.13. */
  lemma HalfCentRoundsAway()
    ensures Round2(4.125) == 4.13
    ensures Round2(-4.125) == -4.13
  {
    assert RoundHalfAway(412.5) == 413;
    assert RoundHalfAway(-412.5) == -413;
  }

  /** Rounding preserves order. */
  lemma Round2Monotone(x: real, y: real)
    requires x <= y
    ensures Round2(x) <= Round2(y)
  {
    var a, b := x * 100.0, y * 100.0;
    assert a <= b;
    if a >= 0.0 {
      FloorMonotone(a + 0.5, b + 0.5);
    } else if b < 0.0 {
      FloorMonotone(-b + 0.5, -a + 0.5);
    }
  }

  /** A whole number of hundredths rounds to itself. */
  lemma Round2Cents(x: real)
    requires IsCents(x)
    ensures Round2(x) == x
  {
    var k := (x * 100.0).Floor;
    assert x * 100.0 == k as real;
    assert RoundHalfAway(x * 100.0) == k;
    assert k as real / 100.0 == x;
  }

  lemma FloorMonotone(a: real, b: real)
    requires a <= b
    ensures a.Floor <= b.Floor
  {
  }
}
