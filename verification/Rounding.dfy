/** Rounding of money and prices: half away from zero, on exact reals. */
module Rounding {

  /** The nearest integer; an exact half goes away from zero. */
  function Round(x: real): (r: int)
    ensures -0.5 <= x - r as real <= 0.5
    ensures x - r as real == 0.5 ==> x < 0.0
    ensures x - r as real == -0.5 ==> x > 0.0
  {
    if x >= 0.0 then (x + 0.5).Floor else -((-x + 0.5).Floor)
  }

  /** True when x lies exactly between two integers. */
  predicate IsHalf(x: real) {
    x - x.Floor as real == 0.5
  }

  lemma RoundWhole(n: int)
    ensures Round(n as real) == n
  {
  }

  lemma RoundNearest(x: real, n: int)
    requires -0.5 < x - n as real < 0.5
    ensures Round(x) == n
  {
  }

  lemma RoundMonotone(x: real, y: real)
    requires x <= y
    ensures Round(x) <= Round(y)
  {
  }

  /** Splitting an amount in two moves the rounded total by at most one unit. */
  lemma RoundSplit(x: real, y: real)
    ensures -1 <= Round(x) + Round(y) - Round(x + y) <= 1
  {
  }

  /** Rounding after adding a whole number agrees with adding the rounded
      amount exactly when no half is rounded the other way by the shift. */
  lemma RoundShift(n: int, x: real)
    ensures Round(n as real + x) == n + Round(x)
            <==> !IsHalf(x) || (n as real + x > 0.0 <==> x > 0.0)
  {
    var m := x.Floor;
    assert (n as real + x).Floor == n + m;
    if IsHalf(x) {
      assert n as real + x == (n + m) as real + 0.5;
      assert x > 0.0 <==> m >= 0;
      assert n as real + x > 0.0 <==> n + m >= 0;
      RoundHalf(m);
      RoundHalf(n + m);
    } else if x - m as real < 0.5 {
      RoundNearest(x, m);
      RoundNearest(n as real + x, n + m);
    } else {
      RoundNearest(x, m + 1);
      RoundNearest(n as real + x, n + m + 1);
    }
  }

  lemma RoundHalf(m: int)
    ensures Round(m as real + 0.5) == if m >= 0 then m + 1 else m
  {
  }

  /** A whole amount that covers a withdrawal covers the rounded withdrawal. */
  lemma RoundCovered(n: int, free: int, x: real)
    requires free as real + x >= 0.0
    ensures free + Round(n as real + x) - n >= 0
  {
    var r := Round(n as real + x);
    assert (free + r - n) as real >= -0.5;
  }
}
