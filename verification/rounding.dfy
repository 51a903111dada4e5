/**
 * `Math.round` applied to a quotient of integers, computed exactly:
 * the integer nearest to a / b, with halves rounded up (towards +infinity).
 */
module Rounding {

  /** Math.round(a / b) for a non-zero divisor. */
  function RoundQuotient(a: int, b: int): (r: int)
    requires b != 0
    ensures b > 0 ==> b * (2 * r - 1) <= 2 * a < b * (2 * r + 1)
    ensures b < 0 ==> b * (2 * r + 1) < 2 * a <= b * (2 * r - 1)
  {
    // round(x) = floor(x + 1/2) = floor((2a + b) / (2b)); Dafny's `/` is the
    // floor for a positive divisor, so move the sign of b onto the dividend.
    if b > 0 then
      var q := (2 * a + b) / (2 * b);
      FloorDivBounds(2 * a + b, 2 * b);
      q
    else
      var q := (-2 * a - b) / (-2 * b);
      FloorDivBounds(-2 * a - b, -2 * b);
      q
  }

  lemma FloorDivBounds(n: int, d: int)
    requires d > 0
    ensures d * (n / d) <= n < d * (n / d) + d
  {
  }

  /** Math.round(c / t * 100), the integer percentage of c out of t. */
  function Percentage(c: int, t: int): (r: int)
    requires t != 0
    // r is the integer nearest to 100 * c / t, halves rounded up.
    ensures t > 0 ==> t * (2 * r - 1) <= 200 * c < t * (2 * r + 1)
    ensures t < 0 ==> t * (2 * r + 1) < 200 * c <= t * (2 * r - 1)
  {
    RoundQuotient(100 * c, t)
  }

  /** A share between none and all rounds to a percentage between 0 and 100. */
  lemma PercentageBounds(c: int, t: int)
    requires 0 <= c <= t && t > 0
    ensures 0 <= Percentage(c, t) <= 100
  {
    var r := Percentage(c, t);
    MulCancel(t, -1, 2 * r + 1);
    MulCancel(t, 2 * r - 1, 201);
  }

  /** All of t rounds to exactly 100. */
  lemma PercentageFull(t: int)
    requires t > 0
    ensures Percentage(t, t) == 100
  {
    var r := Percentage(t, t);
    MulCancel(t, 199, 2 * r + 1);
    MulCancel(t, 2 * r - 1, 201);
  }

  /** None of t rounds to 0, whatever the sign of t. */
  lemma PercentageNone(t: int)
    requires t != 0
    ensures Percentage(0, t) == 0
  {
  }

  /** More completed items never lower the percentage. */
  lemma PercentageMonotonic(c1: int, c2: int, t: int)
    requires c1 <= c2 && t > 0
    ensures Percentage(c1, t) <= Percentage(c2, t)
  {
    var r1, r2 := Percentage(c1, t), Percentage(c2, t);
    MulCancel(t, 2 * r1 - 1, 2 * r2 + 1);
  }

  lemma MulCancel(t: int, x: int, y: int)
    requires t > 0 && t * x < t * y
    ensures x < y
  {
    if x >= y {
      MulMonotone(t, y, x);
      assert false;
    }
  }

  lemma MulMonotone(t: int, x: int, y: int)
    requires t >= 0 && x <= y
    ensures t * x <= t * y
  {
  }
}
