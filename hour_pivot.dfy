/**
 * The hourly line charts pivot points into one series per category over
 * the ascending distinct hours: the move-type trend (categories IN and
 * OUT) and the desig stacked area (the sorted distinct desigs, or a fixed
 * skeleton when there are no points).
 */
module HourPivot {
  import opened Numeric
  import opened Collections

  /** A point's hour, its move type or desig, and its pred. */
  datatype HourPoint = HourPoint(hour: int, category: string, pred: real)

  /** The chart's arrays: the hour axis, the category names, and one series per category. */
  datatype Pivot = Pivot(hours: seq<int>, names: seq<string>, series: seq<seq<int>>)

  function PointHours(points: seq<HourPoint>): seq<int> {
    seq(|points|, i requires 0 <= i < |points| => points[i].hour)
  }

  function Categories(points: seq<HourPoint>): seq<string> {
    seq(|points|, i requires 0 <= i < |points| => points[i].category)
  }

  /** The rounded pred of the first point of hour h and category c, or 0 when there is none. */
  function FirstValue(points: seq<HourPoint>, h: int, c: string): (r: int)
    ensures (forall i | 0 <= i < |points| :: !(points[i].hour == h && points[i].category == c)) ==> r == 0
    ensures forall k | 0 <= k < |points| && points[k].hour == h && points[k].category == c ::
      (forall j | 0 <= j < k :: !(points[j].hour == h && points[j].category == c)) ==> r == JsRound(points[k].pred)
  {
    var k := FirstMatch(points, (p: HourPoint) => p.hour == h && p.category == c);
    if k < 0 then 0 else JsRound(points[k].pred)
  }

  /** The series of category c: one value per axis hour. */
  function SeriesOf(points: seq<HourPoint>, hours: seq<int>, c: string): (r: seq<int>)
    ensures |r| == |hours|
    ensures forall i | 0 <= i < |hours| :: r[i] == FirstValue(points, hours[i], c)
  {
    seq(|hours|, i requires 0 <= i < |hours| => FirstValue(points, hours[i], c))
  }

  /** The move-type trend: IN then OUT, matched exactly. */
  function MoveTypeTrend(points: seq<HourPoint>): Pivot {
    var hours := SortedDistinctInts(PointHours(points));
    Pivot(hours, ["IN", "OUT"], [SeriesOf(points, hours, "IN"), SeriesOf(points, hours, "OUT")])
  }

  /** The desig stacked area: a skeleton of three zero series over four hours when there are no points. */
  function DesigStackedArea(points: seq<HourPoint>): Pivot {
    if points == [] then
      Pivot([0, 6, 12, 18], ["EXP", "FULL", "EMPTY"], [[0, 0, 0, 0], [0, 0, 0, 0], [0, 0, 0, 0]])
    else
      var hours := SortedDistinctInts(PointHours(points));
      var desigs := SortedDistinctText(Categories(points));
      Pivot(hours, desigs, seq(|desigs|, i requires 0 <= i < |desigs| => SeriesOf(points, hours, desigs[i])))
  }

  /** The pivot is rectangular: one series per name, each with one value per hour. */
  predicate Rectangular(p: Pivot) {
    |p.series| == |p.names| && forall i | 0 <= i < |p.series| :: |p.series[i]| == |p.hours|
  }

  /** The hour axis is the distinct hours of the points, ascending. */
  lemma HourAxis(points: seq<HourPoint>)
    ensures var hours := SortedDistinctInts(PointHours(points));
      && StrictlyIncreasing(hours)
      && forall h :: h in hours <==> exists i | 0 <= i < |points| :: points[i].hour == h
  {
    var hours := SortedDistinctInts(PointHours(points));
    forall h ensures h in hours <==> exists i | 0 <= i < |points| :: points[i].hour == h {
      if h in hours {
        var i :| 0 <= i < |points| && PointHours(points)[i] == h;
      }
      if exists i | 0 <= i < |points| :: points[i].hour == h {
        var i :| 0 <= i < |points| && points[i].hour == h;
        assert PointHours(points)[i] == h;
      }
    }
  }

  /** The trend has two series, IN and OUT, each with a value for every hour. */
  lemma TrendShape(points: seq<HourPoint>)
    ensures var p := MoveTypeTrend(points);
      && Rectangular(p)
      && p.hours == SortedDistinctInts(PointHours(points))
      && forall i | 0 <= i < |p.hours| ::
        p.series[0][i] == FirstValue(points, p.hours[i], "IN") && p.series[1][i] == FirstValue(points, p.hours[i], "OUT")
  {
  }

  /**
   * The stacked area is rectangular; without points it is three zero
   * series (EXP, FULL, EMPTY) over hours 0, 6, 12 and 18, and otherwise one
   * series per distinct desig in string order.
   */
  lemma AreaShape(points: seq<HourPoint>)
    ensures var p := DesigStackedArea(points);
      && Rectangular(p)
      && (points == [] ==>
        && p.hours == [0, 6, 12, 18] && p.names == ["EXP", "FULL", "EMPTY"]
        && forall i, j | 0 <= i < 3 && 0 <= j < 4 :: p.series[i][j] == 0)
      && (points != [] ==>
        && StrictlyIncreasingText(p.names)
        && (forall d :: d in p.names <==> d in Categories(points))
        && forall i, j | 0 <= i < |p.names| && 0 <= j < |p.hours| :: p.series[i][j] == FirstValue(points, p.hours[j], p.names[i]))
  {
  }

  /**
   * Categories are matched exactly: a point whose category is not c (such
   * as "in" for "IN") never changes the value read for c.
   */
  lemma CaseSensitiveMoveType(a: seq<HourPoint>, e: HourPoint, b: seq<HourPoint>, h: int, c: string)
    requires e.category != c
    ensures FirstValue(a + [e] + b, h, c) == FirstValue(a + b, h, c)
  {
    var w, u := a + [e] + b, a + b;
    assert forall i | 0 <= i < |u| :: u[i] == w[if i < |a| then i else i + 1];
    var k := FirstMatch(u, (p: HourPoint) => p.hour == h && p.category == c);
    if k < 0 {
      forall i | 0 <= i < |w| ensures !(w[i].hour == h && w[i].category == c) {
        if i < |a| {
          assert w[i] == u[i];
        } else if i > |a| {
          assert w[i] == u[i - 1];
        }
      }
    } else {
      var k' := if k < |a| then k else k + 1;
      assert w[k'] == u[k];
      forall j | 0 <= j < k' ensures !(w[j].hour == h && w[j].category == c) {
        if j < |a| {
          assert w[j] == u[j];
        } else if j > |a| {
          assert w[j] == u[j - 1];
        }
      }
    }
  }

  /** A point whose move type is "in" does not count as IN. */
  lemma LowerCaseInIsNotIn()
    ensures MoveTypeTrend([HourPoint(9, "in", 40.0)]).series[0] == [0]
  {
    var points := [HourPoint(9, "in", 40.0)];
    assert "in" != "IN" by {
      assert "in"[0] != "IN"[0];
    }
    assert SortedDistinctInts(PointHours(points)) == [9] by {
      assert PointHours(points) == [9];
    }
  }
}
