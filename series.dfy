/**
 * Reductions over a series of hourly values that several charts share:
 * the running sum, the maximum seeded at zero, the count of hours above a
 * capacity and the index of the first maximum. Each is defined the way the
 * source's left-to-right `reduce` computes it, so a prefix of the series
 * gives the accumulator after that many steps.
 */
module Series {
  import opened Wrappers

  /** `x || 0` / `x ?? 0` on a possibly missing number. */
  function OrZero(p: Option<real>): real {
    p.GetOr(0.0)
  }

  function OrZeros(ps: seq<Option<real>>): (r: seq<real>)
    ensures |r| == |ps|
    ensures forall i | 0 <= i < |ps| :: r[i] == OrZero(ps[i])
  {
    seq(|ps|, i requires 0 <= i < |ps| => OrZero(ps[i]))
  }

  /** `s.reduce((a, v) => a + v, 0)`. */
  function Sum(s: seq<real>): real {
    if s == [] then 0.0 else Sum(s[..|s| - 1]) + s[|s| - 1]
  }

  lemma {:induction false} SumAppend(a: seq<real>, b: seq<real>)
    ensures Sum(a + b) == Sum(a) + Sum(b)
  {
    if b != [] {
      assert (a + b)[..|a + b| - 1] == a + b[..|b| - 1];
      SumAppend(a, b[..|b| - 1]);
    } else {
      assert a + b == a;
    }
  }

  predicate AllNonNegative(s: seq<real>) {
    forall i | 0 <= i < |s| :: s[i] >= 0.0
  }

  lemma {:induction false} SumNonNegative(s: seq<real>)
    requires AllNonNegative(s)
    ensures Sum(s) >= 0.0
    ensures forall i | 0 <= i < |s| :: s[i] <= Sum(s)
  {
    if s != [] {
      SumNonNegative(s[..|s| - 1]);
    }
  }

  /** `s.reduce((m, v) => Math.max(m, v), 0)`: the largest value, or 0 if all are below 0. */
  function Max0(s: seq<real>): (r: real)
    ensures r >= 0.0
    ensures forall i | 0 <= i < |s| :: s[i] <= r
    ensures r == 0.0 || exists i | 0 <= i < |s| :: s[i] == r
  {
    if s == [] then 0.0
    else
      var m := Max0(s[..|s| - 1]);
      var v := s[|s| - 1];
      assert forall i | 0 <= i < |s| - 1 :: s[..|s| - 1][i] == s[i];
      if m >= v then m else v
  }

  /** With non-negative values the maximum never exceeds the sum. */
  lemma MaxAtMostSum(s: seq<real>)
    requires AllNonNegative(s)
    ensures Max0(s) <= Sum(s)
  {
    SumNonNegative(s);
  }

  /** A sum of values each at most m is at most |s|·m. */
  lemma {:induction false} SumAtMostCountTimes(s: seq<real>, m: real)
    requires forall i | 0 <= i < |s| :: s[i] <= m
    ensures Sum(s) <= |s| as real * m
  {
    if s != [] {
      SumAtMostCountTimes(s[..|s| - 1], m);
      assert |s| as real * m == (|s| - 1) as real * m + m;
    }
  }

  /** `s.filter(v => v > cap).length`. */
  function OverloadCount(s: seq<real>, cap: real): (n: nat)
    ensures n <= |s|
  {
    if s == [] then 0
    else OverloadCount(s[..|s| - 1], cap) + (if s[|s| - 1] > cap then 1 else 0)
  }

  /** No hour is counted exactly when every value is at most the capacity. */
  lemma {:induction false} OverloadCountZero(s: seq<real>, cap: real)
    ensures OverloadCount(s, cap) == 0 <==> forall i | 0 <= i < |s| :: s[i] <= cap
  {
    if s != [] {
      OverloadCountZero(s[..|s| - 1], cap);
      assert forall i | 0 <= i < |s| - 1 :: s[..|s| - 1][i] == s[i];
    }
  }

  /** Every hour is counted exactly when every value is above the capacity. */
  lemma {:induction false} OverloadCountAll(s: seq<real>, cap: real)
    ensures OverloadCount(s, cap) == |s| <==> forall i | 0 <= i < |s| :: s[i] > cap
  {
    if s != [] {
      OverloadCountAll(s[..|s| - 1], cap);
      assert forall i | 0 <= i < |s| - 1 :: s[..|s| - 1][i] == s[i];
    }
  }

  /** A higher capacity never counts more overloaded hours. */
  lemma {:induction false} OverloadCountAntitone(s: seq<real>, c1: real, c2: real)
    requires c1 <= c2
    ensures OverloadCount(s, c2) <= OverloadCount(s, c1)
  {
    if s != [] {
      OverloadCountAntitone(s[..|s| - 1], c1, c2);
    }
  }

  /**
   * The accumulator of `s.reduce((m, v, i) => v > s[m] ? i : m, 0)` after
   * the first n steps: the first index holding the maximum of s[..n].
   */
  function PeakIndex(s: seq<real>, n: nat): (m: nat)
    requires 0 < n <= |s|
    ensures m < n
    ensures forall j | 0 <= j < n :: s[j] <= s[m]
    ensures forall j | 0 <= j < m :: s[j] < s[m]
  {
    if n == 1 then 0
    else
      var m := PeakIndex(s, n - 1);
      if s[n - 1] > s[m] then n - 1 else m
  }

  /** The index of the first maximum of s, or 0 when s is empty. */
  function FirstMaxIndex(s: seq<real>): (m: nat)
    ensures s == [] ==> m == 0
    ensures s != [] ==> m < |s| && (forall j | 0 <= j < |s| :: s[j] <= s[m]) && (forall j | 0 <= j < m :: s[j] < s[m])
  {
    if s == [] then 0 else PeakIndex(s, |s|)
  }
}
