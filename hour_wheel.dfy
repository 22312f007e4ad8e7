/**
 * The hour wheel: 24 bars, one per clock hour, each the rounded pred given
 * for that hour (the last one given wins), an empty state, and a colour
 * per bar by its share of the tallest bar.
 */
module HourWheel {
  import opened Numeric

  /** One entry of the hourly input. */
  datatype HourPred = HourPred(hour: int, pred: real)

  /** The wheel's arrays: the 24 hours, their values, the empty flag and the tallest value. */
  datatype Wheel = Wheel(hours: seq<int>, values: seq<int>, isEmpty: bool, maxValue: int)

  /** `Array.from({ length: 24 }, (_, i) => i)`. */
  function ClockHours(): (r: seq<int>)
    ensures |r| == 24 && forall i | 0 <= i < 24 :: r[i] == i
  {
    seq(24, i => i)
  }

  /** `new Map(hourly.map(h => [h.hour, h.pred])).get(h) || 0`: the last pred given for h, or 0. */
  function LastPred(hourly: seq<HourPred>, h: int): (r: real)
    ensures (forall i | 0 <= i < |hourly| :: hourly[i].hour != h) ==> r == 0.0
    ensures forall k | 0 <= k < |hourly| && hourly[k].hour == h ::
      (forall j | k < j < |hourly| :: hourly[j].hour != h) ==> r == hourly[k].pred
    ensures r == 0.0 || exists k | 0 <= k < |hourly| :: hourly[k].hour == h && r == hourly[k].pred
  {
    if hourly == [] then 0.0
    else
      var init, last := hourly[..|hourly| - 1], hourly[|hourly| - 1];
      if last.hour == h then last.pred
      else
        var r := LastPred(init, h);
        assert forall i | 0 <= i < |init| :: init[i] == hourly[i];
        assert r == 0.0 || exists k | 0 <= k < |hourly| :: hourly[k].hour == h && r == hourly[k].pred by {
          if r != 0.0 {
            var k :| 0 <= k < |init| && init[k].hour == h && r == init[k].pred;
            assert hourly[k] == init[k];
          }
        }
        r
  }

  /** `Math.max(...values)`. */
  function MaxInt(s: seq<int>): (m: int)
    requires s != []
    ensures m in s && forall i | 0 <= i < |s| :: s[i] <= m
  {
    if |s| == 1 then s[0]
    else
      var m := MaxInt(s[..|s| - 1]);
      assert forall i | 0 <= i < |s| - 1 :: s[..|s| - 1][i] == s[i];
      if s[|s| - 1] > m then s[|s| - 1] else m
  }

  function WheelOf(hourly: seq<HourPred>): Wheel {
    if hourly == [] then Wheel(ClockHours(), seq(24, _ => 0), true, 0)
    else
      var values := seq(24, h => JsRound(LastPred(hourly, h)));
      var isEmpty := MaxInt(values) == 0;
      Wheel(ClockHours(), values, isEmpty, if isEmpty then 0 else MaxInt(values))
  }

  /** The bar colours, from the source's palette. */
  datatype BarTone = Grey | Slate | Red | Amber | Blue | Green | Indigo

  function Hex(t: BarTone): string {
    match t
    case Grey => "#374151"
    case Slate => "#475569"
    case Red => "#ef4444"
    case Amber => "#f59e0b"
    case Blue => "#3b82f6"
    case Green => "#10b981"
    case Indigo => "#6366f1"
  }

  /** A bar's colour: grey when the wheel is empty, else by its share of the tallest bar. */
  function BarColour(isEmpty: bool, value: int, maxValue: int): BarTone {
    if isEmpty then Grey
    else if maxValue == 0 then Slate
    else
      var intensity := value as real / maxValue as real;
      if intensity >= 0.8 then Red
      else if intensity >= 0.6 then Amber
      else if intensity >= 0.4 then Blue
      else if intensity >= 0.2 then Green
      else if value > 0 then Indigo
      else Grey
  }

  /** The colours from hottest to coldest. */
  function Heat(t: BarTone): nat {
    match t
    case Red => 5
    case Amber => 4
    case Blue => 3
    case Green => 2
    case Indigo => 1
    case _ => 0
  }

  /**
   * The axis is always the 24 hours 0..23, and bar h is the rounded last
   * pred given for hour h, or 0 when none is (entries for other hours are
   * ignored).
   */
  lemma WheelBars(hourly: seq<HourPred>)
    ensures var w := WheelOf(hourly);
      && w.hours == ClockHours() && |w.values| == 24
      && forall h | 0 <= h < 24 :: w.values[h] == JsRound(LastPred(hourly, h))
  {
    if hourly == [] {
      forall h | 0 <= h < 24 ensures LastPred(hourly, h) == 0.0 {
      }
      JsRoundOfInt(0);
    }
  }

  /**
   * With non-negative preds the wheel is empty exactly when the input is
   * empty or every bar rounds to 0; otherwise its tallest value is the
   * largest bar and above 0.
   */
  lemma EmptyMeaning(hourly: seq<HourPred>)
    requires forall i | 0 <= i < |hourly| :: hourly[i].pred >= 0.0
    ensures var w := WheelOf(hourly);
      && (w.isEmpty <==> hourly == [] || forall h | 0 <= h < 24 :: w.values[h] == 0)
      && (!w.isEmpty ==> w.maxValue > 0 && w.maxValue in w.values && forall h | 0 <= h < 24 :: w.values[h] <= w.maxValue)
  {
    var w := WheelOf(hourly);
    if hourly != [] {
      forall h | 0 <= h < 24 ensures w.values[h] >= 0 {
        var p := LastPred(hourly, h);
        assert p >= 0.0 by {
          if p != 0.0 {
            var k :| 0 <= k < |hourly| && hourly[k].hour == h && p == hourly[k].pred;
          }
        }
        JsRoundMonotone(0.0, p);
        JsRoundOfInt(0);
      }
    }
  }

  /** The tallest bar of a non-empty wheel is red: its share of itself is 1. */
  lemma TallestIsRed(maxValue: int)
    requires maxValue != 0
    ensures BarColour(false, maxValue, maxValue) == Red
  {
    var m := maxValue as real;
    assert m / m == 1.0;
  }

  /** A taller bar is never a colder colour than a shorter one. */
  lemma ColourMonotone(isEmpty: bool, v1: int, v2: int, maxValue: int)
    requires v1 <= v2 && maxValue > 0
    ensures Heat(BarColour(isEmpty, v1, maxValue)) <= Heat(BarColour(isEmpty, v2, maxValue))
  {
    var m := maxValue as real;
    assert v2 as real / m - v1 as real / m == (v2 - v1) as real / m;
  }
}
