/**
 * Python 2's `round(x, 4)` over exact reals: the value is scaled to units of
 * 1e-4, rounded to the nearest integer with halves going away from zero, and
 * scaled back. IEEE rounding of the intermediate values is not modelled.
 */
module Rounding {

  /** Number of key units per unit of momentum: four decimal places. */
  const Scale: real := 10000.0

  function Abs(x: real): (r: real)
    ensures r >= 0.0
    ensures r == x || r == -x
  {
    if x < 0.0 then -x else x
  }

  /** True when `x` is an integer multiple of 1e-4. */
  predicate OnGrid(x: real) {
    (x * Scale).Floor as real == x * Scale
  }

  /** The rounded value in units of 1e-4: nearest integer, halves away from zero. */
  function RoundUnits(x: real): (n: int)
    ensures x >= 0.0 ==> n >= 0
    ensures x <= 0.0 ==> n <= 0
    ensures x >= 0.0 ==> -0.5 < n as real - x * Scale <= 0.5
    ensures x < 0.0 ==> -0.5 <= n as real - x * Scale < 0.5
  {
    if x >= 0.0 then (x * Scale + 0.5).Floor else -((-x * Scale + 0.5).Floor)
  }

  /**
   * The nearest multiple of 1e-4, keeping the sign of `x`; a value exactly
   * half-way between two multiples goes to the one farther from zero.
   */
  function Round4(x: real): (r: real)
    ensures OnGrid(r)
    ensures Abs(r - x) <= 0.00005
    ensures Abs(r - x) == 0.00005 ==> Abs(r) > Abs(x)
    ensures x >= 0.0 ==> r >= 0.0
    ensures x <= 0.0 ==> r <= 0.0
  {
    var n := RoundUnits(x);
    assert (n as real / Scale) * Scale == n as real;
    n as real / Scale
  }

  /** Rounding is odd: rounding `-x` gives the negation of rounding `x`. */
  lemma Round4Odd(x: real)
    ensures Round4(-x) == -Round4(x)
  {
    if x == 0.0 {
      assert -x == 0.0;
    }
  }

  /** A value already on the 1e-4 grid is its own rounding. */
  lemma Round4OnGrid(x: real)
    requires OnGrid(x)
    ensures Round4(x) == x
  {
    var m := (x * Scale).Floor;
    if x >= 0.0 {
      assert (x * Scale + 0.5).Floor == m;
    } else {
      assert (-x * Scale + 0.5).Floor == -m;
    }
  }

  /** Rounding twice is the same as rounding once. */
  lemma Round4Idempotent(x: real)
    ensures Round4(Round4(x)) == Round4(x)
  {
    Round4OnGrid(Round4(x));
  }

  /** Rounding is monotone: it never reorders two momentum differences. */
  lemma Round4Monotone(x: real, y: real)
    requires x <= y
    ensures Round4(x) <= Round4(y)
  {
    if 0.0 <= x {
      assert (x * Scale + 0.5).Floor <= (y * Scale + 0.5).Floor;
    } else if y < 0.0 {
      assert (-y * Scale + 0.5).Floor <= (-x * Scale + 0.5).Floor;
    }
  }

  /** Differences of 0.00004 and 0.00006 fall into the keys 0 and 0.0001. */
  lemma Round4Boundary()
    ensures Round4(0.00004) == 0.0
    ensures Round4(0.00006) == 0.0001
    ensures Round4(0.00005) == 0.0001
  {
    assert (0.00004 * Scale + 0.5).Floor == 0;
    assert (0.00006 * Scale + 0.5).Floor == 1;
    assert (0.00005 * Scale + 0.5).Floor == 1;
  }
}
