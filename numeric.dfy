/** The JavaScript number operations the components rely on, over exact integers and reals. */
module Numeric {

  function Min(a: int, b: int): int { if a <= b then a else b }

  function Max(a: int, b: int): int { if a >= b then a else b }

  /**
   * `Math.round(a / b)` for a positive divisor. `Math.round(x)` is `floor(x + 1/2)`
   * (halves go towards +infinity, also for negative x), which is `(2a + b) div (2b)`.
   * `RoundDivBounds` says that the result is within half a unit of `a / b`.
   */
  function RoundDiv(a: int, b: int): int
    requires b > 0
  {
    (2 * a + b) / (2 * b)
  }

  lemma RoundDivBounds(a: int, b: int)
    requires b > 0
    ensures 2 * b * RoundDiv(a, b) - b <= 2 * a < 2 * b * RoundDiv(a, b) + b
  {
    DivBounds(2 * a + b, 2 * b);
  }

  /** `Math.round(x)` on an exact real. */
  function RoundReal(x: real): (r: int)
    ensures r as real - 0.5 <= x < r as real + 0.5
  {
    (x + 0.5).Floor
  }

  /** Euclidean division by a positive divisor is the floor: `q * d <= a < q * d + d`. */
  lemma DivBounds(a: int, d: int)
    requires d > 0
    ensures d * (a / d) <= a < d * (a / d) + d
  {
  }

  /** Rounding is monotone in the dividend. */
  lemma RoundDivMonotone(a: int, a': int, b: int)
    requires b > 0 && a <= a'
    ensures RoundDiv(a, b) <= RoundDiv(a', b)
  {
    var r, r' := RoundDiv(a, b), RoundDiv(a', b);
    MulMonotoneIf(2 * b, r' + 1, r);
  }

  lemma MulMonotone(k: int, x: int, y: int)
    requires k >= 0 && x <= y
    ensures k * x <= k * y
  {
  }

  /** `MulMonotone` as an implication, for ruling out a case without a branch on it. */
  lemma MulMonotoneIf(k: int, x: int, y: int)
    requires k >= 0
    ensures x <= y ==> k * x <= k * y
  {
    if x <= y {
      MulMonotone(k, x, y);
    }
  }

  /** Adding one divisor to the dividend adds one to the rounded quotient. */
  lemma RoundDivShift(a: int, b: int)
    requires b > 0
    ensures RoundDiv(a + b, b) == RoundDiv(a, b) + 1
  {
    var r, r' := RoundDiv(a, b), RoundDiv(a + b, b);
    assert 2 * b * (r + 1) - b <= 2 * (a + b) < 2 * b * (r + 1) + b;
    RoundDivUnique(a + b, b, r + 1);
  }

  /** The rounded quotient is the only integer within half a unit of `a / b`. */
  lemma RoundDivUnique(a: int, b: int, k: int)
    requires b > 0
    requires 2 * b * k - b <= 2 * a < 2 * b * k + b
    ensures RoundDiv(a, b) == k
  {
    var r := RoundDiv(a, b);
    MulMonotoneIf(2 * b, r + 1, k);
    MulMonotoneIf(2 * b, k + 1, r);
  }

  /** An exact quotient rounds to itself. */
  lemma RoundDivExact(k: int, b: int)
    requires b > 0
    ensures RoundDiv(k * b, b) == k
  {
    RoundDivUnique(k * b, b, k);
  }

  /** Rounding never exceeds the floor quotient by more than one. */
  lemma RoundDivAtMostFloorPlusOne(a: int, b: int)
    requires b > 0
    ensures RoundDiv(a, b) <= a / b + 1
  {
    var q, r := a / b, RoundDiv(a, b);
    DivBounds(a, b);
    RoundDivBounds(a, b);
    assert 2 * b * r < 2 * b * q + 3 * b;
    MulMonotoneIf(2 * b, q + 2, r);
  }

  lemma DivMonotone(a: int, a': int, d: int)
    requires d > 0 && a <= a'
    ensures a / d <= a' / d
  {
    DivBounds(a, d);
    DivBounds(a', d);
    MulMonotoneIf(d, a' / d + 1, a / d);
  }

  lemma DivUnique(a: int, d: int, q: int)
    requires d > 0 && d * q <= a < d * q + d
    ensures a / d == q
  {
    DivBounds(a, d);
    MulMonotoneIf(d, a / d + 1, q);
    MulMonotoneIf(d, q + 1, a / d);
  }

  /** A common positive factor cancels in a floor quotient. */
  lemma DivCancel(a: int, b: int, c: int)
    requires b > 0 && c > 0
    ensures (c * a) / (c * b) == a / b
  {
    var q := a / b;
    DivBounds(a, b);
    assert c * (b * q) <= c * a by { MulMonotone(c, b * q, a); }
    assert c * a < c * (b * q + b) by { StrictMul(c, a, b * q + b); }
    assert c * (b * q) == (c * b) * q && c * (b * q + b) == (c * b) * q + c * b;
    DivUnique(c * a, c * b, q);
  }

  lemma RoundDivCancel(a: int, b: int, c: int)
    requires b > 0 && c > 0
    ensures RoundDiv(c * a, c * b) == RoundDiv(a, b)
  {
    var k := RoundDiv(a, b);
    assert c * (2 * b * k - b) <= c * (2 * a) by { MulMonotone(c, 2 * b * k - b, 2 * a); }
    assert c * (2 * a) < c * (2 * b * k + b) by { StrictMul(c, 2 * a, 2 * b * k + b); }
    assert c * (2 * b * k - b) == 2 * (c * b) * k - c * b;
    assert c * (2 * b * k + b) == 2 * (c * b) * k + c * b;
    assert c * (2 * a) == 2 * (c * a);
    RoundDivUnique(c * a, c * b, k);
  }

  lemma StrictMul(c: int, x: int, y: int)
    requires c > 0 && x < y
    ensures c * x < c * y
  {
    MulMonotone(c, x + 1, y);
  }

  /** Rounding to the nearest never gives less than the floor. */
  lemma RoundDivAtLeastFloor(a: int, b: int)
    requires b > 0
    ensures a / b <= RoundDiv(a, b)
  {
    DivBounds(a, b);
    var r := RoundDiv(a, b);
    MulMonotoneIf(b, r + 1, a / b);
  }


  lemma MulSucc(n: int, m: int)
    ensures (n + 1) * m == n * m + m
  {
  }
}
