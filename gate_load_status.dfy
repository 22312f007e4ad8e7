/**
 * The gate-load panel: per-hour IN/OUT shares of the validated points, or
 * eight empty hours from the current one when there are no points, and
 * the latest row as the current status. The current hour is a parameter.
 */
module GateLoadStatus {
  import opened Wrappers
  import opened Text
  import opened Numeric
  import opened Collections
  import opened DataUtils

  /** A point's fields besides its prediction. */
  datatype GatePoint = GatePoint(date: string, hour: int, moveType: string)

  /** One bar: the hour label, the IN and OUT percentages and the rounded total. */
  datatype GateRow = GateRow(time: string, inbound: int, outbound: int, total: int)

  const ZeroRow := GateRow("00:00", 0, 0, 0)

  /** `String(h).padStart(2, "0")`: a negative number already has two characters. */
  function HourText(h: int): (s: string)
    ensures 0 <= h < 100 ==> |s| == 2 && AllDigits(s) && DigitsValue(s) == h
  {
    if h >= 0 then Pad2(h) else IntToString(h)
  }

  function ClockLabel(h: int): string {
    HourText(h) + ":00"
  }

  /** `formatNumber(x, 0)` read back with `parseFloat`: the nearest whole number. */
  lemma FixedWholeValue(x: real)
    requires x >= 0.0
    ensures ParseNat(FormatNumber(Num(x), 0)) == Some(JsRound(x))
  {
    var n := JsRound(x);
    assert Pow10(0) == 1;
    assert (x * Pow10(0) as real + 0.5).Floor == n;
    assert ToFixed(x, 0) == NatToString(n);
    ParseNatRoundTrip(n);
  }

  /** The row's total: `parseFloat(formatNumber(total, 0))`. */
  function ShownTotal(t: real): (r: int)
    requires t >= 0.0
    ensures r == JsRound(t)
  {
    FixedWholeValue(t);
    ParseNat(FormatNumber(Num(t), 0)).value
  }

  /** Point k is the first of hour h whose move type is exactly mt. */
  predicate FirstOfHour(v: seq<CleanItem<GatePoint>>, h: int, mt: string, k: int) {
    && 0 <= k < |v| && v[k].fields.hour == h && v[k].fields.moveType == mt
    && forall j | 0 <= j < k :: !(v[j].fields.hour == h && v[j].fields.moveType == mt)
  }

  /** `?.pred || 0` of the first point of hour h whose move type is exactly mt. */
  function FirstPred(v: seq<CleanItem<GatePoint>>, h: int, mt: string): (r: real)
    requires forall i | 0 <= i < |v| :: v[i].pred >= 0.0
    ensures r >= 0.0
    ensures (forall i | 0 <= i < |v| :: !(v[i].fields.hour == h && v[i].fields.moveType == mt)) ==> r == 0.0
    ensures r != 0.0 ==> exists k | 0 <= k < |v| ::
      && v[k].fields.hour == h && v[k].fields.moveType == mt && r == v[k].pred
      && forall j | 0 <= j < k :: !(v[j].fields.hour == h && v[j].fields.moveType == mt)
    ensures forall k | FirstOfHour(v, h, mt, k) :: r == v[k].pred
  {
    var k := FirstMatch(v, (p: CleanItem<GatePoint>) => p.fields.hour == h && p.fields.moveType == mt);
    if k < 0 then 0.0 else v[k].pred
  }

  /** The row of hour h. */
  function HourRow(v: seq<CleanItem<GatePoint>>, h: int): GateRow
    requires forall i | 0 <= i < |v| :: v[i].pred >= 0.0
  {
    var inbound := FirstPred(v, h, "in");
    var outbound := FirstPred(v, h, "out");
    var total := inbound + outbound;
    GateRow(ClockLabel(h), GuardedPercent(inbound, total), GuardedPercent(outbound, total), ShownTotal(total))
  }

  function Hours(v: seq<CleanItem<GatePoint>>): seq<int> {
    seq(|v|, i requires 0 <= i < |v| => v[i].fields.hour)
  }

  /**
   * How the empty rows are labelled: as GateLoadStatus.tsx:27 writes it,
   * the current hour plus i with no wrap past 23, or wrapped to a clock hour.
   */
  datatype LabelRule = Unwrapped | Wrapped

  /** The label of the i-th empty row, as written: the current hour plus i, with no wrap past 23. */
  function EmptyLabelAsWritten(nowHour: int, i: int): string {
    ClockLabel(nowHour + i)
  }

  /** The label of the i-th empty row, wrapped to a clock hour. */
  function EmptyLabel(nowHour: int, i: int): (s: string)
    ensures |s| == 5 && AllDigits(s[..2]) && DigitsValue(s[..2]) < 24 && s[2..] == ":00"
  {
    var s := ClockLabel((nowHour + i) % 24);
    assert s[..2] == HourText((nowHour + i) % 24);
    s
  }

  /** The label of the i-th empty row under a label rule. */
  function RowLabel(rule: LabelRule, nowHour: int, i: int): string {
    match rule
    case Unwrapped => EmptyLabelAsWritten(nowHour, i)
    case Wrapped => EmptyLabel(nowHour, i)
  }

  /** The eight empty rows (`zeroFillHours(start, 8, [])` is used only for its length). */
  function EmptyRows(rule: LabelRule, nowHour: int): seq<GateRow> {
    seq(8, i requires 0 <= i < 8 => GateRow(RowLabel(rule, nowHour, i), 0, 0, 0))
  }

  /**
   * `processedData`: validated points by ascending distinct hour, or the
   * empty rows. Unwrapped is the component as written; Wrapped the
   * corrected labels.
   */
  function ProcessedData(rule: LabelRule, points: ApiData<GatePoint>, nowHour: int): seq<GateRow> {
    var v := ValidateApiData(points);
    if |v| == 0 then EmptyRows(rule, nowHour)
    else
      var hours := SortedDistinctInts(Hours(v));
      seq(|hours|, k requires 0 <= k < |hours| => HourRow(v, hours[k]))
  }

  /** `currentStatus`: the latest row, or all zeros at "00:00" when there is none. */
  function CurrentStatus(rows: seq<GateRow>): (r: GateRow)
    ensures rows != [] ==> r == rows[|rows| - 1]
    ensures rows == [] ==> r.inbound == 0 && r.outbound == 0 && r.total == 0
  {
    if |rows| > 0 then rows[|rows| - 1] else ZeroRow
  }

  /**
   * Empty or non-array input gives exactly eight all-zero rows, labelled
   * with the current hour plus i under the rule in force.
   */
  lemma EmptyInputShape(rule: LabelRule, points: ApiData<GatePoint>, nowHour: int)
    requires ValidateApiData(points) == []
    ensures var rows := ProcessedData(rule, points, nowHour);
      |rows| == 8 && forall i | 0 <= i < 8 :: rows[i] == GateRow(RowLabel(rule, nowHour, i), 0, 0, 0)
  {
  }

  /**
   * Otherwise there is one row per distinct hour of the points, in
   * ascending hour order, each built from that hour's points.
   */
  lemma HourRowsAscending(rule: LabelRule, points: ApiData<GatePoint>, nowHour: int)
    requires ValidateApiData(points) != []
    ensures var v := ValidateApiData(points);
      var hours := SortedDistinctInts(Hours(v));
      var rows := ProcessedData(rule, points, nowHour);
      && StrictlyIncreasing(hours)
      && (forall i | 0 <= i < |v| :: v[i].fields.hour in hours)
      && (forall h | h in hours :: exists i | 0 <= i < |v| :: v[i].fields.hour == h)
      && |rows| == |hours|
      && forall k | 0 <= k < |rows| :: rows[k] == HourRow(v, hours[k])
  {
    var v := ValidateApiData(points);
    var hs := Hours(v);
    forall i | 0 <= i < |v| ensures v[i].fields.hour in SortedDistinctInts(hs) {
      assert hs[i] == v[i].fields.hour;
    }
    forall h | h in SortedDistinctInts(hs) ensures exists i | 0 <= i < |v| :: v[i].fields.hour == h {
      var i :| 0 <= i < |hs| && hs[i] == h;
    }
  }

  /**
   * Each percentage of a row lies in [0, 100], both are 0 when the hour's
   * IN and OUT sum to 0, and otherwise they add up to 100 or, when both
   * round up, 101.
   */
  lemma {:induction false} HourRowPercents(v: seq<CleanItem<GatePoint>>, h: int)
    requires forall i | 0 <= i < |v| :: v[i].pred >= 0.0
    ensures var r := HourRow(v, h);
      var total := FirstPred(v, h, "in") + FirstPred(v, h, "out");
      && 0 <= r.inbound <= 100 && 0 <= r.outbound <= 100
      && (total == 0.0 ==> r.inbound == 0 && r.outbound == 0)
      && (total > 0.0 ==> r.inbound + r.outbound == 100 || r.inbound + r.outbound == 101)
      && r.total == JsRound(total)
  {
    var a, b := FirstPred(v, h, "in"), FirstPred(v, h, "out");
    assert HourRow(v, h) == GateRow(ClockLabel(h), GuardedPercent(a, a + b), GuardedPercent(b, a + b), ShownTotal(a + b));
    SharePercents(a, b);
  }

  /** The IN and OUT shares of two non-negative amounts. */
  lemma SharePercents(a: real, b: real)
    requires a >= 0.0 && b >= 0.0
    ensures var p, q := GuardedPercent(a, a + b), GuardedPercent(b, a + b);
      && 0 <= p <= 100 && 0 <= q <= 100
      && (a + b == 0.0 ==> p == 0 && q == 0)
      && (a + b > 0.0 ==> p + q == 100 || p + q == 101)
  {
    GuardedPercentBounds(a, a + b);
    GuardedPercentBounds(b, a + b);
    if a + b > 0.0 {
      GuardedPercentPair(a, b);
    }
  }

  /**
   * Move types are matched exactly: a point whose move type is not mt
   * (such as "IN" for "in") never changes the value read for mt.
   */
  lemma MoveTypeMatchIsExact(a: seq<CleanItem<GatePoint>>, e: CleanItem<GatePoint>, b: seq<CleanItem<GatePoint>>, h: int, mt: string)
    requires forall i | 0 <= i < |a + [e] + b| :: (a + [e] + b)[i].pred >= 0.0
    requires e.fields.moveType != mt
    ensures forall i | 0 <= i < |a + b| :: (a + b)[i].pred >= 0.0
    ensures FirstPred(a + [e] + b, h, mt) == FirstPred(a + b, h, mt)
  {
    var w, u := a + [e] + b, a + b;
    assert forall i | 0 <= i < |u| :: u[i] == w[if i < |a| then i else i + 1];
    var k := FirstMatch(u, (p: CleanItem<GatePoint>) => p.fields.hour == h && p.fields.moveType == mt);
    if k < 0 {
      forall i | 0 <= i < |w| ensures !(w[i].fields.hour == h && w[i].fields.moveType == mt) {
        if i < |a| {
          assert w[i] == u[i];
        } else if i > |a| {
          assert w[i] == u[i - 1];
        }
      }
    } else {
      var k' := if k < |a| then k else k + 1;
      assert w[k'] == u[k];
      forall j | 0 <= j < k' ensures !(w[j].fields.hour == h && w[j].fields.moveType == mt) {
        if j < |a| {
          assert w[j] == u[j];
        } else if j > |a| {
          assert w[j] == u[j - 1];
        }
      }
    }
  }

  /** "IN" is not "in": a point of move type "IN" is not counted as inbound. */
  lemma UpperCaseInIsNotInbound()
    ensures FirstPred([CleanItem(GatePoint("2025-08-12", 9, "IN"), 5.0)], 9, "in") == 0.0
  {
    assert "IN" != "in" by {
      assert "IN"[0] != "in"[0];
    }
    MoveTypeMatchIsExact([], CleanItem(GatePoint("2025-08-12", 9, "IN"), 5.0), [], 9, "in");
  }

  /**
   * For a current hour from 0 to 23 (what `getHours()` returns), the label
   * as written and the wrapped label of row i agree exactly when the
   * current hour plus i is still before midnight.
   */
  lemma LabelsAgree(nowHour: int, i: int)
    requires 0 <= nowHour < 24 && 0 <= i < 8
    ensures EmptyLabelAsWritten(nowHour, i) == EmptyLabel(nowHour, i) <==> nowHour + i < 24
  {
    if nowHour + i >= 24 {
      var s := EmptyLabelAsWritten(nowHour, i);
      assert s[..2] == HourText(nowHour + i);
      assert DigitsValue(s[..2]) == nowHour + i;
    }
  }

  /** The empty-branch labels as written run past 23: at 20:00 the fifth row reads "24:00". */
  lemma EmptyLabelAsWrittenPastMidnight()
    ensures EmptyLabelAsWritten(20, 4) == "24:00"
    ensures EmptyLabel(20, 4) == "00:00"
  {
    assert NatToString(24) == "24" by {
      assert NatToString(2) == "2";
    }
    assert NatToString(0) == "0";
  }
}
