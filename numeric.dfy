/**
 * Rounding as the two runtimes do it, on exact reals: JavaScript's
 * `Math.round` (nearest integer, halves upwards), `Math.round(x * 100) / 100`,
 * and Python's `round(x, 2)` (nearest hundredth, halves to even).
 */
module Numeric {

  /** `Math.round(x)`. */
  function JsRound(x: real): (r: int)
    ensures x - 0.5 < r as real <= x + 0.5
  {
    (x + 0.5).Floor
  }

  lemma JsRoundMonotone(x: real, y: real)
    requires x <= y
    ensures JsRound(x) <= JsRound(y)
  {
  }

  lemma JsRoundOfInt(n: int)
    ensures JsRound(n as real) == n
  {
  }

  /** A value in [lo, hi] with integer bounds rounds into [lo, hi]. */
  lemma JsRoundWithin(x: real, lo: int, hi: int)
    requires lo as real <= x <= hi as real
    ensures lo <= JsRound(x) <= hi
  {
  }

  /** `Math.round(x * 100) / 100`. */
  function JsRound2(x: real): (r: real)
    ensures x - 0.005 < r <= x + 0.005
  {
    JsRound(x * 100.0) as real / 100.0
  }

  lemma JsRound2Monotone(x: real, y: real)
    requires x <= y
    ensures JsRound2(x) <= JsRound2(y)
  {
    JsRoundMonotone(x * 100.0, y * 100.0);
  }

  /** Python's `round(x, 2)`: the nearest hundredth, a tie going to the even one. */
  function PyRound2(x: real): (r: real)
    ensures x - 0.005 <= r <= x + 0.005
  {
    PyRoundHundredths(x * 100.0) as real / 100.0
  }

  /** The integer nearest to y, a tie going to the even one. */
  function PyRoundHundredths(y: real): (k: int)
    ensures y - 0.5 <= k as real <= y + 0.5
  {
    var n := y.Floor;
    var frac := y - n as real;
    if frac > 0.5 then n + 1
    else if frac < 0.5 then n
    else if n % 2 == 0 then n else n + 1
  }

  lemma PyRound2Monotone(x: real, y: real)
    requires x <= y
    ensures PyRound2(x) <= PyRound2(y)
  {
    var a, b := x * 100.0, y * 100.0;
    if a.Floor < b.Floor {
      assert PyRoundHundredths(a) <= a.Floor + 1 <= b.Floor <= PyRoundHundredths(b);
    } else {
      assert a.Floor == b.Floor;
      assert PyRoundHundredths(a) <= PyRoundHundredths(b);
    }
  }

  /** Percentage `Math.round(part / total * 100)` guarded so that a total of 0 gives 0. */
  function GuardedPercent(part: real, total: real): int {
    if total > 0.0 then JsRound(part / total * 100.0) else 0
  }

  /** A part between 0 and its total is between 0 % and 100 %. */
  lemma GuardedPercentBounds(part: real, total: real)
    requires 0.0 <= part <= total
    ensures 0 <= GuardedPercent(part, total) <= 100
  {
    if total > 0.0 {
      var q := part / total;
      assert q * total == part;
      assert 0.0 <= q <= 1.0;
      JsRoundWithin(q * 100.0, 0, 100);
    }
  }

  /** Two complementary parts round to percentages that add up to 100 or 101. */
  lemma GuardedPercentPair(a: real, b: real)
    requires a + b > 0.0
    ensures var s := GuardedPercent(a, a + b) + GuardedPercent(b, a + b); s == 100 || s == 101
  {
    var t := a + b;
    var x := a / t * 100.0;
    var y := b / t * 100.0;
    assert x + y == 100.0 by {
      assert a / t + b / t == (a + b) / t;
    }
  }

  lemma ScaleMonotone(a: real, b: real, c: real)
    requires a >= 0.0 && b <= c
    ensures a * b <= a * c
  {
    assert a * c - a * b == a * (c - b);
  }

  /** An average of values bounded by m is bounded by m. */
  lemma MeanAtMost(total: real, n: real, m: real)
    requires n > 0.0 && total <= n * m
    ensures total / n <= m
  {
    assert total / n * n == total;
  }

  lemma MeanAtLeastZero(total: real, n: real)
    requires n > 0.0 && total >= 0.0
    ensures total / n >= 0.0
  {
  }

  /** A value between 0 and m stays between them once all three are rounded to hundredths. */
  lemma RoundedBetween(x: real, m: real)
    requires 0.0 <= x <= m
    ensures 0.0 <= JsRound2(x) <= JsRound2(m)
  {
    JsRound2Monotone(x, m);
    JsRound2Monotone(0.0, x);
    JsRoundOfInt(0);
  }
}
