/**
 * `Math.round(part / whole * 100)`, the percentage shown on the storage card
 * and the two provider screens, in exact integer arithmetic.
 *
 * JavaScript's `Math.round` returns the integer nearest to its argument and
 * rounds halves up (towards +infinity). Floating-point error is not modelled.
 */
module Rounding {
  import opened Wrappers

  /**
   * `r` is `Math.round(100 * part / whole)`: `r - 1/2 <= 100 * part / whole < r + 1/2`,
   * stated with both sides multiplied by `2 * |whole|`.
   */
  ghost predicate IsRoundedPercent(part: int, whole: int, r: int)
    requires whole != 0
  {
    var n := if whole > 0 then part else -part;
    var d := if whole > 0 then whole else -whole;
    d * (2 * r - 1) <= 200 * n < d * (2 * r + 1)
  }

  /**
   * The rounded percentage of `part` in `whole`. A zero `whole` makes JavaScript
   * produce `NaN` or an infinity, which `None` stands for.
   */
  function RoundedPercent(part: int, whole: int): (r: Option<int>)
    ensures r.None? <==> whole == 0
    ensures r.Some? ==> IsRoundedPercent(part, whole, r.value)
  {
    if whole == 0 then None
    else
      RoundHalfUpCorrect(part, whole);
      Some(RoundHalfUp(part, whole))
  }

  /** Floor of `100 * part / whole + 1/2`, computed on a positive denominator. */
  function RoundHalfUp(part: int, whole: int): int
    requires whole != 0
  {
    var n := if whole > 0 then part else -part;
    var d := if whole > 0 then whole else -whole;
    (200 * n + d) / (2 * d)
  }

  lemma RoundHalfUpCorrect(part: int, whole: int)
    requires whole != 0
    ensures IsRoundedPercent(part, whole, RoundHalfUp(part, whole))
  {
    var n := if whole > 0 then part else -part;
    var d := if whole > 0 then whole else -whole;
    var q := RoundHalfUp(part, whole);
    var m := (200 * n + d) % (2 * d);
    assert 200 * n + d == 2 * d * q + m && 0 <= m < 2 * d;
    assert d * (2 * q - 1) == 2 * d * q - d && d * (2 * q + 1) == 2 * d * q + d;
  }

  /** For `0 <= part <= whole`, the percentage lies in `[0, 100]`. */
  lemma RoundedPercentInRange(part: int, whole: int)
    requires 0 <= part <= whole && whole > 0
    ensures RoundedPercent(part, whole).Some?
    ensures 0 <= RoundedPercent(part, whole).value <= 100
  {
    var q := RoundedPercent(part, whole).value;
    assert q == (200 * part + whole) / (2 * whole);
    DivBounds(200 * part + whole, 2 * whole, 0, 100);
  }

  /** `lo <= a / b <= hi` whenever `b * lo <= a < b * (hi + 1)`. */
  lemma DivBounds(a: int, b: int, lo: int, hi: int)
    requires b > 0 && b * lo <= a < b * (hi + 1)
    ensures lo <= a / b <= hi
  {
    var q, m := a / b, a % b;
    assert a == b * q + m && 0 <= m < b;
    MulMonotone(b, q, lo - 1);
    MulMonotone(b, hi + 1, q);
  }

  /** Multiplying by a positive number keeps `x <= y`. */
  lemma MulMonotone(b: int, x: int, y: int)
    requires b > 0
    ensures x <= y ==> b * x <= b * y
  {
    if x <= y {
      assert b * y - b * x == b * (y - x);
    }
  }

  /** A larger part of the same positive whole never rounds to a smaller percentage. */
  lemma RoundedPercentMonotone(part1: int, part2: int, whole: int)
    requires part1 <= part2 && whole > 0
    ensures RoundedPercent(part1, whole).value <= RoundedPercent(part2, whole).value
  {
    assert RoundedPercent(part1, whole).value == (200 * part1 + whole) / (2 * whole);
    assert RoundedPercent(part2, whole).value == (200 * part2 + whole) / (2 * whole);
    DivMonotone(200 * part1 + whole, 200 * part2 + whole, 2 * whole);
  }

  /** Division by a positive number keeps `a1 <= a2`. */
  lemma DivMonotone(a1: int, a2: int, d: int)
    requires a1 <= a2 && d > 0
    ensures a1 / d <= a2 / d
  {
    var q1, q2 := a1 / d, a2 / d;
    assert a1 == d * q1 + a1 % d && a2 == d * q2 + a2 % d;
    MulMonotone(d, q2 + 1, q1);
  }
}
