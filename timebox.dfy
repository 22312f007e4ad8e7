/**
 * `next_n_hours`: the next n whole hours from the current local time. The
 * clock reading `now_local()` is a parameter here.
 */
module Timebox {
  import opened Calendar

  /** `[start + timedelta(hours=i) for i in range(n)]`, start being now with minutes, seconds and microseconds zeroed. */
  function NextNHours(now: DateTime, n: int): (r: seq<DateTime>)
    requires Valid(now)
    ensures |r| == if n <= 0 then 0 else n
    ensures n > 0 ==> r[0] == Truncate(now)
  {
    var start := Truncate(now);
    seq(if n <= 0 then 0 else n, i requires 0 <= i => AddHours(start, i))
  }

  /** Every element is a valid whole hour, element i lying i hours after the hour of now. */
  lemma NextNHoursStamps(now: DateTime, n: int)
    requires Valid(now)
    ensures var r := NextNHours(now, n);
      forall i | 0 <= i < |r| :: Valid(r[i]) && OnTheHour(r[i]) && HourIndex(r[i]) == HourIndex(now) + i
  {
    var r := NextNHours(now, n);
    forall i | 0 <= i < |r|
      ensures Valid(r[i]) && OnTheHour(r[i]) && HourIndex(r[i]) == HourIndex(now) + i
    {
      AddHoursIndex(Truncate(now), i);
    }
  }

  /** Consecutive elements are exactly one hour apart. */
  lemma NextNHoursStep(now: DateTime, n: int)
    requires Valid(now)
    ensures var r := NextNHours(now, n);
      forall i | 0 <= i < |r| - 1 :: r[i + 1] == NextHour(r[i])
  {
  }

  /** The list is strictly increasing in Python's datetime order. */
  lemma NextNHoursIncreasing(now: DateTime, n: int)
    requires Valid(now)
    ensures var r := NextNHours(now, n);
      forall i, j | 0 <= i < j < |r| :: Before(r[i], r[j])
  {
    var r := NextNHours(now, n);
    forall i, j | 0 <= i < j < |r|
      ensures Before(r[i], r[j])
    {
      AddHoursOrder(Truncate(now), i, j);
    }
  }
}
