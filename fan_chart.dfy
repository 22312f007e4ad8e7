/**
 * The forecast fan chart: the predicted line with missing preds as 0, the
 * overload bars above the fixed capacity of 100, the marked peak and the
 * confidence band, drawn only when there are both upper and lower values.
 */
module FanChart {
  import opened Wrappers
  import opened Numeric
  import opened Series

  /** The fields of a forecast row the chart reads. */
  datatype FanRow = FanRow(pred: Option<real>, lower: Option<real>, upper: Option<real>)

  /** The capacity line the chart draws under every hour. */
  const ChartCapacity: real := 100.0

  /** `rows.map(r => r.pred ?? 0)`. */
  function Line(rows: seq<FanRow>): (y: seq<real>)
    ensures |y| == |rows|
    ensures forall i | 0 <= i < |rows| :: y[i] == OrZero(rows[i].pred)
  {
    seq(|rows|, i requires 0 <= i < |rows| => OrZero(rows[i].pred))
  }

  /** The overload bars: the value where it is above the capacity, no bar elsewhere. */
  function OverloadBars(y: seq<real>): (r: seq<Option<real>>)
    ensures |r| == |y|
    ensures forall i | 0 <= i < |y| :: (r[i].Some? <==> y[i] > ChartCapacity) && (r[i].Some? ==> r[i].value == y[i])
  {
    seq(|y|, i requires 0 <= i < |y| => if y[i] > ChartCapacity then Some(y[i]) else None)
  }

  /** `haveBand`: some upper value and some lower value are present. */
  predicate HaveBand(rows: seq<FanRow>) {
    (exists i | 0 <= i < |rows| :: rows[i].upper.Some?) && (exists j | 0 <= j < |rows| :: rows[j].lower.Some?)
  }

  /** The series drawn, by name: the band's two edges first when there is a band. */
  function SeriesNames(rows: seq<FanRow>): (r: seq<string>)
    ensures HaveBand(rows) ==> r == ["Upper", "Lower", "Predicted", "Overload", "Capacity"]
    ensures !HaveBand(rows) ==> r == ["Predicted", "Overload", "Capacity"]
  {
    (if HaveBand(rows) then ["Upper", "Lower"] else []) + ["Predicted", "Overload", "Capacity"]
  }

  /** The peak marker: the index of the first largest value and that value rounded, none without rows. */
  function PeakMark(y: seq<real>): (r: Option<(nat, int)>)
    ensures y == [] <==> r.None?
    ensures r.Some? ==> (r.value.0 < |y| && r.value.1 == JsRound(y[r.value.0])
      && (forall j | 0 <= j < |y| :: y[j] <= y[r.value.0])
      && (forall j | 0 <= j < r.value.0 :: y[j] < y[r.value.0]))
  {
    if y == [] then None else var m := FirstMaxIndex(y); Some((m, JsRound(y[m])))
  }

  /** The band's edges are drawn exactly when the chart has a band. */
  lemma BandDrawnIffBoth(rows: seq<FanRow>)
    ensures "Upper" in SeriesNames(rows) <==> HaveBand(rows)
    ensures "Lower" in SeriesNames(rows) <==> HaveBand(rows)
  {
    var tail := ["Predicted", "Overload", "Capacity"];
    assert "Upper" !in tail by {
      assert "Upper"[0] != tail[0][0] && "Upper"[0] != tail[1][0] && "Upper"[0] != tail[2][0];
    }
    assert "Lower" !in tail by {
      assert "Lower"[0] != tail[0][0] && "Lower"[0] != tail[1][0] && "Lower"[0] != tail[2][0];
    }
  }
}
