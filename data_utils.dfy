/**
 * The frontend guardrail library: zero-filling an hourly series, the IN/OUT
 * flow balance, the three-tier risk classifier, peak and total volume,
 * capacity utilisation, the API array validator, the number and percentage
 * formatters and the "Nd Mh" window description.
 *
 * A `pred` that may not be a number at run time is an `Option<real>`
 * (None for anything `typeof` does not call a number) or, where NaN is
 * treated differently, a `Raw` value.
 */
module DataUtils {
  import opened Wrappers
  import opened Text
  import opened Numeric
  import opened Calendar
  import opened Series
  import opened Collections

  // ------------------------------------------------------------ zero fill

  /** An input point: its local date string, local hour and prediction. */
  datatype HourlyPoint = HourlyPoint(date: string, hour: int, pred: real)

  /** An output slot: the UTC instant it is stamped with, the prediction and the local hour. */
  datatype ZeroFilledHour = ZeroFilledHour(ts: DateTime, pred: real, hour: int)

  /** The `YYYY-MM-DD` part of an ISO rendering of dt. */
  function IsoDate(dt: DateTime): (s: string)
    requires Valid(dt)
    ensures |s| >= 10
  {
    Pad4(dt.year) + "-" + Pad2(dt.month) + "-" + Pad2(dt.day)
  }

  /** The lookup key of a data point, `${date}-${hour}`. */
  function PointKey(p: HourlyPoint): string {
    p.date + "-" + IntToString(p.hour)
  }

  /** The key of the slot at UTC instant utc, in a zone `offset` hours east of UTC: local date and local hour. */
  function SlotKey(utc: DateTime, offset: nat): string
    requires Valid(utc)
  {
    var local := AddHours(utc, offset);
    IsoDate(local) + "-" + IntToString(local.hour)
  }

  /** The key as dataUtils.ts builds it: the UTC date with the local hour. */
  function SlotKeyAsWritten(utc: DateTime, offset: nat): string
    requires Valid(utc)
  {
    IsoDate(utc) + "-" + IntToString(AddHours(utc, offset).hour)
  }

  /**
   * Which date a slot's lookup key carries: the UTC date of its instant, as
   * dataUtils.ts:57 builds it with `toISOString()`, or the local date that
   * matches the points' own dates.
   */
  datatype DateRule = UtcDate | LocalDate

  /** The lookup key of the slot at UTC instant utc under a date rule; the hour is local either way. */
  function KeyFor(rule: DateRule, utc: DateTime, offset: nat): string
    requires Valid(utc)
  {
    match rule
    case UtcDate => SlotKeyAsWritten(utc, offset)
    case LocalDate => SlotKey(utc, offset)
  }

  /** The sum of pred over the points whose key is `key`. */
  function SumAt(data: seq<HourlyPoint>, key: string): (r: real)
  {
    if data == [] then 0.0
    else
      var last := data[|data| - 1];
      SumAt(data[..|data| - 1], key) + (if PointKey(last) == key then last.pred else 0.0)
  }

  /** A key no point carries sums to 0. */
  lemma {:induction false} SumAtAbsent(data: seq<HourlyPoint>, key: string)
    requires forall j | 0 <= j < |data| :: PointKey(data[j]) != key
    ensures SumAt(data, key) == 0.0
  {
    if data != [] {
      SumAtAbsent(data[..|data| - 1], key);
    }
  }

  /** Duplicate keys add up: the sum over a concatenation is the sum of the sums. */
  lemma {:induction false} SumAtAppend(a: seq<HourlyPoint>, b: seq<HourlyPoint>, key: string)
    ensures SumAt(a + b, key) == SumAt(a, key) + SumAt(b, key)
  {
    if b == [] {
      assert a + b == a;
    } else {
      assert (a + b)[..|a + b| - 1] == a + b[..|b| - 1];
      SumAtAppend(a, b[..|b| - 1], key);
    }
  }

  /** The slot stamped at UTC instant utc: the sum filed under its key and its local hour. */
  function FilledAt(rule: DateRule, utc: DateTime, offset: nat, data: seq<HourlyPoint>): ZeroFilledHour
    requires Valid(utc)
  {
    ZeroFilledHour(utc, SumAt(data, KeyFor(rule, utc, offset)), AddHours(utc, offset).hour)
  }

  /** The slot stamped start + i hours. */
  function SlotAt(rule: DateRule, start: DateTime, offset: nat, data: seq<HourlyPoint>): nat --> ZeroFilledHour {
    (i: nat) requires Valid(start) => FilledAt(rule, AddHours(start, i), offset, data)
  }

  /** The first n slots of the zero-filled series starting at start. */
  function ZeroFill(rule: DateRule, start: DateTime, n: nat, offset: nat, data: seq<HourlyPoint>): (r: seq<ZeroFilledHour>)
    requires Valid(start)
    ensures |r| == n
  {
    Tabulate(n, SlotAt(rule, start, offset, data))
  }

  /** Slot i of the series is stamped start + i hours and holds the sum filed under its key. */
  lemma ZeroFillEntries(rule: DateRule, start: DateTime, n: nat, offset: nat, data: seq<HourlyPoint>)
    requires Valid(start)
    ensures forall i | 0 <= i < n :: ZeroFill(rule, start, n, offset, data)[i] == FilledAt(rule, AddHours(start, i), offset, data)
  {
    TabulateAt(n, SlotAt(rule, start, offset, data));
  }

  /**
   * `zeroFillHours`: one slot per hour from start, each holding the summed
   * prediction of the points filed under that slot's key, or 0 when there
   * are none. With UtcDate this is the function as written; with LocalDate
   * it is the corrected fill.
   */
  method ZeroFillHours(rule: DateRule, start: DateTime, hours: int, offset: nat, data: seq<HourlyPoint>) returns (out: seq<ZeroFilledHour>)
    requires Valid(start)
    ensures |out| == if hours <= 0 then 0 else hours
    ensures out == ZeroFill(rule, start, |out|, offset, data)
  {
    var byKey := SumsByKey(data);
    var n := if hours <= 0 then 0 else hours;
    out := [];
    for i := 0 to n
      invariant out == ZeroFill(rule, start, i, offset, data)
    {
      var slot := SlotFromTable(rule, start, i, offset, data, byKey);
      ZeroFillAppend(rule, start, i, offset, data, slot);
      out := out + [slot];
    }
  }

  /** The loop body: slot i, read from the per-key sums. */
  method SlotFromTable(rule: DateRule, start: DateTime, i: nat, offset: nat, data: seq<HourlyPoint>, byKey: map<string, real>) returns (slot: ZeroFilledHour)
    requires Valid(start) && IsSumTable(byKey, data)
    ensures slot == FilledAt(rule, AddHours(start, i), offset, data)
  {
    var current := AddHours(start, i);
    slot := SlotFromSums(rule, current, offset, byKey);
    SlotFromSumsFilled(rule, current, offset, data, byKey);
  }

  /** byKey holds the per-key sums of data, and every key it lacks sums to 0. */
  ghost predicate IsSumTable(byKey: map<string, real>, data: seq<HourlyPoint>) {
    && (forall k :: k in byKey ==> byKey[k] == SumAt(data, k))
    && (forall k :: k !in byKey ==> SumAt(data, k) == 0.0)
  }

  /** One slot of the loop: the sum looked up under the slot's key, or 0, and the local hour. */
  function SlotFromSums(rule: DateRule, current: DateTime, offset: nat, byKey: map<string, real>): (h: ZeroFilledHour)
    requires Valid(current)
    ensures h.ts == current
  {
    var key := KeyFor(rule, current, offset);
    ZeroFilledHour(current, if key in byKey then byKey[key] else 0.0, AddHours(current, offset).hour)
  }

  /** The slot built from the per-key sums is the specified slot. */
  lemma SlotFromSumsFilled(rule: DateRule, current: DateTime, offset: nat, data: seq<HourlyPoint>, byKey: map<string, real>)
    requires Valid(current) && IsSumTable(byKey, data)
    ensures SlotFromSums(rule, current, offset, byKey) == FilledAt(rule, current, offset, data)
  {
  }

  lemma ZeroFillAppend(rule: DateRule, start: DateTime, i: nat, offset: nat, data: seq<HourlyPoint>, e: ZeroFilledHour)
    requires Valid(start) && e == FilledAt(rule, AddHours(start, i), offset, data)
    ensures ZeroFill(rule, start, i, offset, data) + [e] == ZeroFill(rule, start, i + 1, offset, data)
  {
    var f := SlotAt(rule, start, offset, data);
    assert f(i) == e;
    assert Tabulate(i + 1, f) == Tabulate(i, f) + [f(i)];
  }

  lemma SumAtStep(data: seq<HourlyPoint>, j: nat, key: string)
    requires j < |data|
    ensures SumAt(data[..j + 1], key) == SumAt(data[..j], key) + (if PointKey(data[j]) == key then data[j].pred else 0.0)
  {
    assert data[..j + 1][..j] == data[..j];
  }

  /** The `dataByHour` reduce: the summed prediction per key, absent keys summing to 0. */
  method SumsByKey(data: seq<HourlyPoint>) returns (byKey: map<string, real>)
    ensures IsSumTable(byKey, data)
  {
    byKey := map[];
    for j := 0 to |data|
      invariant IsSumTable(byKey, data[..j])
    {
      var key := PointKey(data[j]);
      var prior := if key in byKey then byKey[key] else 0.0;
      var next := byKey[key := prior + data[j].pred];
      forall k ensures k in next ==> next[k] == SumAt(data[..j + 1], k)
        ensures k !in next ==> SumAt(data[..j + 1], k) == 0.0
      {
        SumAtStep(data, j, k);
      }
      byKey := next;
    }
    assert data[..|data|] == data;
  }

  /** Consecutive slots are stamped exactly one hour apart. */
  lemma ZeroFillStep(rule: DateRule, start: DateTime, i: nat, offset: nat, data: seq<HourlyPoint>)
    requires Valid(start)
    ensures HourIndex(FilledAt(rule, AddHours(start, i + 1), offset, data).ts) == HourIndex(FilledAt(rule, AddHours(start, i), offset, data).ts) + 1
    ensures HourIndex(FilledAt(rule, AddHours(start, i), offset, data).ts) == HourIndex(start) + i
  {
    AddHoursIndex(start, i);
    NextHourIndex(AddHours(start, i));
  }

  /**
   * With the corrected key, a point dated with a slot's local date and hour
   * is filed under that slot, and no other point is.
   */
  lemma SlotKeyMatches(p: HourlyPoint, utc: DateTime, offset: nat)
    requires Valid(utc)
    requires |p.date| == |IsoDate(AddHours(utc, offset))|
    ensures PointKey(p) == SlotKey(utc, offset) <==>
      p.date == IsoDate(AddHours(utc, offset)) && p.hour == AddHours(utc, offset).hour
  {
    var local := AddHours(utc, offset);
    var d := IsoDate(local);
    if PointKey(p) == SlotKey(utc, offset) {
      var n := |p.date|;
      assert PointKey(p)[..n] == p.date;
      assert SlotKey(utc, offset)[..n] == d;
      assert PointKey(p)[n + 1..] == IntToString(p.hour);
      assert SlotKey(utc, offset)[n + 1..] == IntToString(local.hour);
      ParseIntRoundTrip(p.hour);
      ParseIntRoundTrip(local.hour);
    }
  }

  /**
   * With the key as written, a point is filed under a slot exactly when it
   * carries the slot's UTC date and its local hour.
   */
  lemma SlotKeyAsWrittenMatches(p: HourlyPoint, utc: DateTime, offset: nat)
    requires Valid(utc)
    requires |p.date| == |IsoDate(utc)|
    ensures PointKey(p) == SlotKeyAsWritten(utc, offset) <==>
      p.date == IsoDate(utc) && p.hour == AddHours(utc, offset).hour
  {
    var h := AddHours(utc, offset).hour;
    if PointKey(p) == SlotKeyAsWritten(utc, offset) {
      var n := |p.date|;
      assert PointKey(p)[..n] == p.date;
      assert SlotKeyAsWritten(utc, offset)[..n] == IsoDate(utc);
      assert PointKey(p)[n + 1..] == IntToString(p.hour);
      assert SlotKeyAsWritten(utc, offset)[n + 1..] == IntToString(h);
      ParseIntRoundTrip(p.hour);
      ParseIntRoundTrip(h);
    }
  }

  /** The two keys of a slot coincide exactly when its UTC date is its local date. */
  lemma KeysAgree(utc: DateTime, offset: nat)
    requires Valid(utc)
    ensures SlotKeyAsWritten(utc, offset) == SlotKey(utc, offset) <==>
      IsoDate(utc) == IsoDate(AddHours(utc, offset))
  {
    var a, b := IsoDate(utc), IsoDate(AddHours(utc, offset));
    var tail := "-" + IntToString(AddHours(utc, offset).hour);
    if SlotKeyAsWritten(utc, offset) == SlotKey(utc, offset) {
      var h := IntToString(AddHours(utc, offset).hour);
      assert SlotKeyAsWritten(utc, offset) == a + "-" + h;
      assert SlotKey(utc, offset) == b + "-" + h;
      assert a + "-" + h == a + tail && b + "-" + h == b + tail;
      assert |a| == |b|;
      assert (a + tail)[..|a|] == a;
      assert (b + tail)[..|b|] == b;
    }
  }

  /**
   * The fill as written and the corrected fill give the same series over
   * any stretch of slots whose UTC dates are their local dates.
   */
  lemma FillsAgree(start: DateTime, n: nat, offset: nat, data: seq<HourlyPoint>)
    requires Valid(start)
    requires forall i | 0 <= i < n :: IsoDate(AddHours(start, i)) == IsoDate(AddHours(AddHours(start, i), offset))
    ensures ZeroFill(UtcDate, start, n, offset, data) == ZeroFill(LocalDate, start, n, offset, data)
  {
    ZeroFillEntries(UtcDate, start, n, offset, data);
    ZeroFillEntries(LocalDate, start, n, offset, data);
    forall i | 0 <= i < n
      ensures FilledAt(UtcDate, AddHours(start, i), offset, data) == FilledAt(LocalDate, AddHours(start, i), offset, data)
    {
      KeysAgree(AddHours(start, i), offset);
    }
  }

  /** In a zone at UTC itself the fill as written is the corrected fill. */
  lemma FillsAgreeAtUtc(start: DateTime, n: nat, data: seq<HourlyPoint>)
    requires Valid(start)
    ensures ZeroFill(UtcDate, start, n, 0, data) == ZeroFill(LocalDate, start, n, 0, data)
  {
    FillsAgree(start, n, 0, data);
  }

  /**
   * The key dataUtils.ts builds disagrees with the local one: in a zone four
   * hours east of UTC, the slot at 2025-08-11T22:00Z is local 02:00 on
   * 2025-08-12, yet a point for that local hour is not filed under it; it
   * is filed under the slot 24 hours later instead.
   */
  lemma SlotKeyAsWrittenMisfiles()
    ensures var utc := DateTime(2025, 8, 11, 22, 0, 0, 0);
            var later := DateTime(2025, 8, 12, 22, 0, 0, 0);
            var p := HourlyPoint("2025-08-12", 2, 5.0);
            && HourIndex(later) == HourIndex(utc) + 24
            && PointKey(p) == SlotKey(utc, 4)
            && PointKey(p) != SlotKeyAsWritten(utc, 4)
            && PointKey(p) == SlotKeyAsWritten(later, 4)
  {
    var utc := DateTime(2025, 8, 11, 22, 0, 0, 0);
    var later := DateTime(2025, 8, 12, 22, 0, 0, 0);
    var p := HourlyPoint("2025-08-12", 2, 5.0);
    FourHoursLater();
    AugustIsoDates();
    assert IntToString(2) == "2";
    assert PointKey(p) == "2025-08-12" + "-" + "2";
    assert SlotKey(utc, 4) == "2025-08-12" + "-" + "2";
    assert SlotKeyAsWritten(later, 4) == "2025-08-12" + "-" + "2";
    assert SlotKeyAsWritten(utc, 4) == "2025-08-11" + "-" + "2";
    assert PointKey(p)[9] != SlotKeyAsWritten(utc, 4)[9];
  }

  lemma FourHoursLater()
    ensures AddHours(DateTime(2025, 8, 11, 22, 0, 0, 0), 4) == DateTime(2025, 8, 12, 2, 0, 0, 0)
    ensures AddHours(DateTime(2025, 8, 12, 22, 0, 0, 0), 4) == DateTime(2025, 8, 13, 2, 0, 0, 0)
    ensures HourIndex(DateTime(2025, 8, 12, 22, 0, 0, 0)) == HourIndex(DateTime(2025, 8, 11, 22, 0, 0, 0)) + 24
  {
    var utc := DateTime(2025, 8, 11, 22, 0, 0, 0);
    var later := DateTime(2025, 8, 12, 22, 0, 0, 0);
    assert AddHours(utc, 1) == DateTime(2025, 8, 11, 23, 0, 0, 0);
    assert AddHours(utc, 2) == DateTime(2025, 8, 12, 0, 0, 0, 0);
    assert AddHours(utc, 3) == DateTime(2025, 8, 12, 1, 0, 0, 0);
    assert AddHours(later, 1) == DateTime(2025, 8, 12, 23, 0, 0, 0);
    assert AddHours(later, 2) == DateTime(2025, 8, 13, 0, 0, 0, 0);
    assert AddHours(later, 3) == DateTime(2025, 8, 13, 1, 0, 0, 0);
  }

  lemma AugustIsoDates()
    ensures IsoDate(DateTime(2025, 8, 11, 22, 0, 0, 0)) == "2025-08-11"
    ensures IsoDate(DateTime(2025, 8, 12, 22, 0, 0, 0)) == "2025-08-12"
    ensures IsoDate(DateTime(2025, 8, 12, 2, 0, 0, 0)) == "2025-08-12"
    ensures IsoDate(DateTime(2025, 8, 13, 2, 0, 0, 0)) == "2025-08-13"
  {
    AugustDigits();
  }

  lemma AugustDigits()
    ensures Pad4(2025) == "2025" && Pad2(8) == "08"
    ensures Pad2(11) == "11" && Pad2(12) == "12" && Pad2(13) == "13"
  {
    assert Pad4(2025) == "2025" by {
      assert NatToString(2025) == "2025" by {
        assert NatToString(2) == "2";
        assert NatToString(20) == "20";
        assert NatToString(202) == "202";
      }
    }
    assert Pad2(8) == "08";
    assert NatToString(1) == "1";
    assert Pad2(11) == "11";
    assert Pad2(12) == "12";
    assert Pad2(13) == "13";
  }

  // ---------------------------------------------------------- flow balance

  datatype FlowPoint = FlowPoint(move_type: string, pred: real)

  datatype FlowBalance = FlowBalance(inPercent: int, outPercent: int, totalFlow: real, inFlow: real, outFlow: real)

  /** The sum of pred over the points whose lower-cased move type is `name`. */
  function FlowTotal(data: seq<FlowPoint>, name: string): (r: real)
    ensures (forall j | 0 <= j < |data| :: Lower(data[j].move_type) != name) ==> r == 0.0
  {
    if data == [] then 0.0
    else
      var last := data[|data| - 1];
      FlowTotal(data[..|data| - 1], name) + (if Lower(last.move_type) == name then last.pred else 0.0)
  }

  /** totals holds the per-move-type sums of data, and every move type it lacks sums to 0. */
  ghost predicate IsFlowTable(totals: map<string, real>, data: seq<FlowPoint>) {
    && (forall k :: k in totals ==> totals[k] == FlowTotal(data, k))
    && (forall k :: k !in totals ==> FlowTotal(data, k) == 0.0)
  }

  /** The `totals` loop: the summed pred per lower-cased move type. */
  method FlowTotals(data: seq<FlowPoint>) returns (totals: map<string, real>)
    ensures IsFlowTable(totals, data)
  {
    totals := map[];
    for j := 0 to |data|
      invariant IsFlowTable(totals, data[..j])
    {
      var moveType := Lower(data[j].move_type);
      var prior := if moveType in totals then totals[moveType] else 0.0;
      var next := totals[moveType := prior + data[j].pred];
      forall k ensures k in next ==> next[k] == FlowTotal(data[..j + 1], k)
        ensures k !in next ==> FlowTotal(data[..j + 1], k) == 0.0
      {
        FlowTotalStep(data, j, k);
      }
      totals := next;
    }
    assert data[..|data|] == data;
  }

  /** `calculateFlowBalance`: totals per lower-cased move type, then guarded percentages. */
  method CalculateFlowBalance(data: seq<FlowPoint>) returns (r: FlowBalance)
    ensures r.inFlow == FlowTotal(data, "in") && r.outFlow == FlowTotal(data, "out")
    ensures r.totalFlow == r.inFlow + r.outFlow
    ensures r.inPercent == GuardedPercent(r.inFlow, r.totalFlow)
    ensures r.outPercent == GuardedPercent(r.outFlow, r.totalFlow)
  {
    var totals := FlowTotals(data);
    var inFlow := if "in" in totals then totals["in"] else 0.0;
    var outFlow := if "out" in totals then totals["out"] else 0.0;
    var totalFlow := inFlow + outFlow;
    var inPercent := if totalFlow > 0.0 then JsRound(inFlow / totalFlow * 100.0) else 0;
    var outPercent := if totalFlow > 0.0 then JsRound(outFlow / totalFlow * 100.0) else 0;
    r := FlowBalance(inPercent, outPercent, totalFlow, inFlow, outFlow);
  }

  lemma FlowTotalStep(data: seq<FlowPoint>, j: nat, name: string)
    requires j < |data|
    ensures FlowTotal(data[..j + 1], name) == FlowTotal(data[..j], name) + (if Lower(data[j].move_type) == name then data[j].pred else 0.0)
  {
    assert data[..j + 1][..j] == data[..j];
  }

  lemma {:induction false} FlowTotalNonNegative(data: seq<FlowPoint>, name: string)
    requires forall j | 0 <= j < |data| :: data[j].pred >= 0.0
    ensures FlowTotal(data, name) >= 0.0
  {
    if data != [] {
      FlowTotalNonNegative(data[..|data| - 1], name);
    }
  }

  /**
   * With non-negative predictions both percentages lie in [0, 100]; when
   * there is any flow they add up to 100 (101 when both halves round up);
   * with no flow both are 0.
   */
  lemma FlowBalancePercents(data: seq<FlowPoint>)
    requires forall j | 0 <= j < |data| :: data[j].pred >= 0.0
    ensures var i, o := FlowTotal(data, "in"), FlowTotal(data, "out");
            && 0 <= GuardedPercent(i, i + o) <= 100 && 0 <= GuardedPercent(o, i + o) <= 100
            && (i + o == 0.0 ==> GuardedPercent(i, i + o) == 0 && GuardedPercent(o, i + o) == 0)
            && (i + o > 0.0 ==> GuardedPercent(i, i + o) + GuardedPercent(o, i + o) in {100, 101})
  {
    var i, o := FlowTotal(data, "in"), FlowTotal(data, "out");
    FlowTotalNonNegative(data, "in");
    FlowTotalNonNegative(data, "out");
    if i + o > 0.0 {
      GuardedPercentBounds(i, i + o);
      GuardedPercentBounds(o, i + o);
      GuardedPercentPair(i, o);
    }
  }

  lemma LowerUpperChar(c: char)
    ensures LowerChar(UpperChar(c)) == LowerChar(c)
  {
  }

  /** Matching is case-insensitive: upper-casing every move type changes no total. */
  lemma {:induction false} FlowTotalCaseInsensitive(data: seq<FlowPoint>, name: string)
    ensures FlowTotal(data, name) == FlowTotal(UpperMoveTypes(data), name)
  {
    if data != [] {
      var last := data[|data| - 1];
      assert UpperMoveTypes(data)[..|data| - 1] == UpperMoveTypes(data[..|data| - 1]);
      FlowTotalCaseInsensitive(data[..|data| - 1], name);
      forall i | 0 <= i < |last.move_type| ensures Lower(Upper(last.move_type))[i] == Lower(last.move_type)[i] {
        LowerUpperChar(last.move_type[i]);
      }
      assert Lower(Upper(last.move_type)) == Lower(last.move_type);
    }
  }

  function UpperMoveTypes(data: seq<FlowPoint>): (r: seq<FlowPoint>)
    ensures |r| == |data|
    ensures forall j | 0 <= j < |data| :: r[j] == data[j].(move_type := Upper(data[j].move_type))
  {
    seq(|data|, j requires 0 <= j < |data| => data[j].(move_type := Upper(data[j].move_type)))
  }

  /** A point whose move type is neither in nor out (in any case) changes neither total. */
  lemma FlowTotalIgnoresOthers(data: seq<FlowPoint>, p: FlowPoint, name: string)
    requires Lower(p.move_type) != name
    ensures FlowTotal(data + [p], name) == FlowTotal(data, name)
  {
    assert (data + [p])[..|data|] == data;
  }

  // ---------------------------------------------------------------- risk

  datatype RiskLevel = RiskLevel(level: string, desc: string, color: string)

  /** `calculateRiskLevel`: High Risk, Warning or Safe by the first threshold met. */
  function CalculateRiskLevel(overloadHours: int, maxUtilization: real): (r: RiskLevel)
    ensures r == RiskLevel("High Risk", "Immediate action needed", "red")
            || r == RiskLevel("Warning", "Monitor closely", "orange")
            || r == RiskLevel("Safe", "All systems normal", "green")
    ensures r.level == "High Risk" <==> maxUtilization >= 1.2 || overloadHours >= 3
    ensures r.level == "Warning" <==> !(maxUtilization >= 1.2 || overloadHours >= 3) && (maxUtilization >= 1.0 || overloadHours >= 1)
    ensures r.level == "Safe" <==> maxUtilization < 1.0 && overloadHours < 1
  {
    if maxUtilization >= 1.2 || overloadHours >= 3 then
      RiskLevel("High Risk", "Immediate action needed", "red")
    else if maxUtilization >= 1.0 || overloadHours >= 1 then
      RiskLevel("Warning", "Monitor closely", "orange")
    else
      RiskLevel("Safe", "All systems normal", "green")
  }

  function RiskRank(r: RiskLevel): (n: nat)
  {
    if r.level == "High Risk" then 2 else if r.level == "Warning" then 1 else 0
  }

  /** More overload hours or a higher peak utilisation never lowers the tier. */
  lemma RiskMonotone(o1: int, u1: real, o2: int, u2: real)
    requires o1 <= o2 && u1 <= u2
    ensures RiskRank(CalculateRiskLevel(o1, u1)) <= RiskRank(CalculateRiskLevel(o2, u2))
  {
  }

  // -------------------------------------------------------- peak, volume

  /** `calculatePeakHour`: the largest numeric pred, seeded at 0; non-numbers count as 0. */
  function CalculatePeakHour(preds: seq<Option<real>>): (r: real)
    ensures r >= 0.0
    ensures forall i | 0 <= i < |preds| :: preds[i].Some? ==> preds[i].value <= r
    ensures r == 0.0 || exists i | 0 <= i < |preds| :: preds[i] == Some(r)
  {
    var r := Max0(OrZeros(preds));
    assert r != 0.0 ==> exists i | 0 <= i < |preds| :: OrZeros(preds)[i] == r;
    r
  }

  /** `calculateTotalVolume`: the sum of the numeric preds. */
  function CalculateTotalVolume(preds: seq<Option<real>>): (r: real)
  {
    Sum(OrZeros(preds))
  }

  /** Total volume is additive over a split of the hours. */
  lemma TotalVolumeAppend(a: seq<Option<real>>, b: seq<Option<real>>)
    ensures CalculateTotalVolume(a + b) == CalculateTotalVolume(a) + CalculateTotalVolume(b)
  {
    assert OrZeros(a + b) == OrZeros(a) + OrZeros(b);
    SumAppend(OrZeros(a), OrZeros(b));
  }

  /** With non-negative preds the peak hour never exceeds the total volume. */
  lemma PeakAtMostTotal(preds: seq<Option<real>>)
    requires forall i | 0 <= i < |preds| :: preds[i].Some? ==> preds[i].value >= 0.0
    ensures 0.0 <= CalculatePeakHour(preds) <= CalculateTotalVolume(preds)
  {
    MaxAtMostSum(OrZeros(preds));
  }

  // ------------------------------------------------------ capacity metrics

  datatype CapacityMetrics = CapacityMetrics(overloadHours: int, maxUtilization: real, avgUtilization: real)

  function Utilizations(values: seq<real>, capacity: real): (r: seq<real>)
    requires capacity > 0.0
    ensures |r| == |values|
    ensures forall i | 0 <= i < |values| :: r[i] == values[i] / capacity
  {
    seq(|values|, i requires 0 <= i < |values| => values[i] / capacity)
  }

  /** What `calculateCapacityMetrics` returns. */
  function CapacityMetricsOf(preds: seq<Option<real>>, capacity: real): CapacityMetrics
  {
    if preds == [] || capacity <= 0.0 then CapacityMetrics(0, 0.0, 0.0)
    else
      var values := OrZeros(preds);
      var u := Utilizations(values, capacity);
      CapacityMetrics(OverloadCount(values, capacity), JsRound2(Max0(u)), JsRound2(Sum(u) / |preds| as real))
  }

  /** One hour of the metrics pass: each running figure takes in hour i. */
  lemma CapacityStep(values: seq<real>, u: seq<real>, capacity: real, i: nat)
    requires i < |values| == |u|
    ensures OverloadCount(values[..i + 1], capacity) == OverloadCount(values[..i], capacity) + (if values[i] > capacity then 1 else 0)
    ensures Sum(u[..i + 1]) == Sum(u[..i]) + u[i]
    ensures Max0(u[..i + 1]) == if Max0(u[..i]) >= u[i] then Max0(u[..i]) else u[i]
  {
    assert values[..i + 1][..i] == values[..i];
    assert u[..i + 1][..i] == u[..i];
  }

  /**
   * `calculateCapacityMetrics`: counts the hours strictly above capacity
   * and tracks the largest and the total utilisation in one pass.
   */
  method CalculateCapacityMetrics(preds: seq<Option<real>>, capacity: real) returns (r: CapacityMetrics)
    ensures r == CapacityMetricsOf(preds, capacity)
  {
    if preds == [] || capacity <= 0.0 {
      return CapacityMetrics(0, 0.0, 0.0);
    }
    var values := OrZeros(preds);
    ghost var u := Utilizations(values, capacity);
    var overloadHours := 0;
    var maxUtilization := 0.0;
    var totalUtilization := 0.0;
    for i := 0 to |preds|
      invariant overloadHours == OverloadCount(values[..i], capacity)
      invariant maxUtilization == Max0(u[..i])
      invariant totalUtilization == Sum(u[..i])
    {
      var pred := match preds[i] case Some(x) => x case None => 0.0;
      var utilization := pred / capacity;
      CapacityStep(values, u, capacity, i);
      if pred > capacity {
        overloadHours := overloadHours + 1;
      }
      maxUtilization := if maxUtilization >= utilization then maxUtilization else utilization;
      totalUtilization := totalUtilization + utilization;
    }
    assert values[..|preds|] == values;
    assert u[..|preds|] == u;
    var avgUtilization := totalUtilization / |preds| as real;
    r := CapacityMetrics(overloadHours, JsRound2(maxUtilization), JsRound2(avgUtilization));
  }

  /**
   * No hours or no capacity give all zeros; the overload count never exceeds
   * the number of hours; with non-negative preds the peak utilisation is at
   * least the average, which is at least 0.
   */
  lemma {:induction false} CapacityMetricsBounds(preds: seq<Option<real>>, capacity: real)
    requires forall i | 0 <= i < |preds| :: preds[i].Some? ==> preds[i].value >= 0.0
    ensures var m := CapacityMetricsOf(preds, capacity);
            && (preds == [] || capacity <= 0.0 ==> m == CapacityMetrics(0, 0.0, 0.0))
            && 0 <= m.overloadHours <= |preds| && m.maxUtilization >= m.avgUtilization >= 0.0
  {
    if preds != [] && capacity > 0.0 {
      var u := Utilizations(OrZeros(preds), capacity);
      UtilizationsNonNegative(preds, capacity);
      MeanWithin(u);
      assert |u| == |preds|;
      RoundedBetween(Sum(u) / |preds| as real, Max0(u));
    }
  }

  lemma UtilizationsNonNegative(preds: seq<Option<real>>, capacity: real)
    requires capacity > 0.0
    requires forall i | 0 <= i < |preds| :: preds[i].Some? ==> preds[i].value >= 0.0
    ensures AllNonNegative(Utilizations(OrZeros(preds), capacity))
  {
    var values := OrZeros(preds);
    forall i | 0 <= i < |values| ensures values[i] / capacity >= 0.0 {
      assert values[i] >= 0.0;
    }
  }

  /** With non-negative values the mean lies between 0 and the largest value. */
  lemma {:induction false} MeanWithin(u: seq<real>)
    requires u != [] && AllNonNegative(u)
    ensures 0.0 <= Sum(u) / |u| as real <= Max0(u)
  {
    var n := |u| as real;
    SumAtMostCountTimes(u, Max0(u));
    SumNonNegative(u);
    MeanAtMost(Sum(u), n, Max0(u));
    MeanAtLeastZero(Sum(u), n);
  }



  /** The guardrail test case: [120, 80, 150] against 100 gives 2 overload hours and a 1.5 peak. */
  lemma CapacityMetricsExample()
    ensures var m := CapacityMetricsOf([Some(120.0), Some(80.0), Some(150.0)], 100.0);
            m.overloadHours == 2 && m.maxUtilization == 1.5
  {
    var preds := [Some(120.0), Some(80.0), Some(150.0)];
    var values := OrZeros(preds);
    assert values == [120.0, 80.0, 150.0];
    var u := Utilizations(values, 100.0);
    assert u == [1.2, 0.8, 1.5];
    assert u[..2][..1] == [1.2];
    assert Max0(u) == 1.5;
    assert values[..2] == [120.0, 80.0];
    assert values[..2][..1] == [120.0];
    assert [120.0][..0] == [];
    assert OverloadCount([120.0], 100.0) == 1;
    assert OverloadCount(values[..2], 100.0) == 1;
    assert OverloadCount(values, 100.0) == 2;
    JsRoundOfInt(150);
  }

  /** A Safe rating from these metrics means no hour's pred exceeds capacity. */
  lemma SafeMeansNoOverload(preds: seq<Option<real>>, capacity: real)
    requires capacity > 0.0
    requires var m := CapacityMetricsOf(preds, capacity);
             CalculateRiskLevel(m.overloadHours, m.maxUtilization).level == "Safe"
    ensures forall i | 0 <= i < |preds| :: OrZero(preds[i]) <= capacity
  {
    if preds != [] {
      OverloadCountZero(OrZeros(preds), capacity);
    }
  }

  // ------------------------------------------------------------ validation

  /** A JavaScript value in a numeric slot: a number, NaN, or not a number at all. */
  datatype Raw = Num(x: real) | NaN | NonNumber

  datatype ApiItem<F> = ApiItem(fields: F, pred: Raw)
  datatype CleanItem<F> = CleanItem(fields: F, pred: real)
  datatype ApiData<F> = NotArray | Array(items: seq<ApiItem<F>>)

  function Clamp(p: Raw): (r: real)
    ensures r >= 0.0
    ensures p.Num? && p.x >= 0.0 ==> r == p.x
    ensures !(p.Num? && p.x >= 0.0) ==> r == 0.0
  {
    match p
    case Num(x) => if x >= 0.0 then x else 0.0
    case _ => 0.0
  }

  /** `validateApiData`: [] for a non-array, otherwise every item with its pred clamped to a number >= 0. */
  function ValidateApiData<F>(data: ApiData<F>): (r: seq<CleanItem<F>>)
    ensures data.NotArray? ==> r == []
    ensures data.Array? ==> |r| == |data.items|
    ensures data.Array? ==> forall i | 0 <= i < |r| ::
      r[i].fields == data.items[i].fields && r[i].pred >= 0.0
      && (data.items[i].pred.Num? && data.items[i].pred.x >= 0.0 ==> r[i].pred == data.items[i].pred.x)
      && (!(data.items[i].pred.Num? && data.items[i].pred.x >= 0.0) ==> r[i].pred == 0.0)
  {
    match data
    case NotArray => []
    case Array(items) =>
      seq(|items|, i requires 0 <= i < |items| => CleanItem(items[i].fields, Clamp(items[i].pred)))
  }

  function AsApiData<F>(items: seq<CleanItem<F>>): (r: ApiData<F>)
    ensures r.Array? && |r.items| == |items|
    ensures forall i | 0 <= i < |items| :: r.items[i] == ApiItem(items[i].fields, Num(items[i].pred))
  {
    Array(seq(|items|, i requires 0 <= i < |items| => ApiItem(items[i].fields, Num(items[i].pred))))
  }

  /** Validating already validated data changes nothing. */
  lemma ValidateIdempotent<F>(data: ApiData<F>)
    ensures ValidateApiData(AsApiData(ValidateApiData(data))) == ValidateApiData(data)
  {
  }

  // ------------------------------------------------------------ formatting

  function Pow10(d: nat): (p: nat)
    ensures p >= 1
  {
    if d == 0 then 1 else 10 * Pow10(d - 1)
  }

  /**
   * `x.toFixed(d)`: the sign, then the integer nearest |x|·10^d (ties away
   * from zero) written with exactly d digits after the point.
   */
  function ToFixed(x: real, d: nat): (s: string)
    ensures d > 0 ==> |s| >= d + 2 && s[|s| - d - 1] == '.' && AllDigits(s[|s| - d..])
    ensures d == 0 && x >= 0.0 ==> AllDigits(s)
  {
    (if x < 0.0 then "-" else "") + PlacePoint(NatToString(ScaledMagnitude(x, d)), d)
  }

  /** The integer nearest |x|·10^d, ties away from zero. */
  function ScaledMagnitude(x: real, d: nat): (n: nat)
    ensures var m := (if x < 0.0 then -x else x) * Pow10(d) as real;
      n as real - 0.5 <= m < n as real + 0.5
  {
    var a := if x < 0.0 then -x else x;
    (a * Pow10(d) as real + 0.5).Floor
  }

  /** Writes a digit string with its last d digits after a point, zero-padding to one digit before it. */
  function PlacePoint(digits: string, d: nat): (s: string)
    requires AllDigits(digits) && |digits| >= 1
    ensures d == 0 ==> s == digits
    ensures d > 0 ==> |s| >= d + 2 && s[|s| - d - 1] == '.' && AllDigits(s[|s| - d..]) && AllDigits(s[..|s| - d - 1])
  {
    if d == 0 then digits else Pointed(PadDigits(digits, d), d)
  }

  /** t with a point before its last d characters. */
  function Pointed(t: string, d: nat): (s: string)
    requires 0 < d < |t| && AllDigits(t)
    ensures |s| >= d + 2 && s[|s| - d - 1] == '.' && AllDigits(s[|s| - d..]) && AllDigits(s[..|s| - d - 1])
  {
    var s := t[..|t| - d] + "." + t[|t| - d..];
    assert s[..|s| - d - 1] == t[..|t| - d];
    assert s[|s| - d..] == t[|t| - d..];
    s
  }

  /** digits with zeros in front, up to at least d + 1 of them. */
  function PadDigits(digits: string, d: nat): (p: string)
    requires AllDigits(digits)
    ensures AllDigits(p) && |p| >= d + 1
  {
    if |digits| <= d then
      var z := Repeat('0', d + 1 - |digits|);
      assert AllDigits(z);
      z + digits
    else digits
  }

  /** s with its sign dropped. */
  function Unsigned(s: string): string {
    if |s| > 0 && s[0] == '-' then s[1..] else s
  }

  /** s with the point before its last d characters dropped. */
  function Unpointed(s: string, d: nat): string {
    if d == 0 || |s| < d + 1 then s else s[..|s| - d - 1] + s[|s| - d..]
  }

  /** Placing the point changes only the layout: without it, the digits are worth what they were. */
  lemma PlacePointValue(digits: string, d: nat)
    requires AllDigits(digits) && |digits| >= 1
    ensures var u := Unpointed(PlacePoint(digits, d), d);
      AllDigits(u) && DigitsValue(u) == DigitsValue(digits)
  {
    if d > 0 {
      var padded := PadDigits(digits, d);
      if |digits| <= d {
        LeadingZeros(d + 1 - |digits|, digits);
      }
      DropPoint(padded, d);
    }
  }

  /** Dropping the point placed before the last d characters gives back the string. */
  lemma DropPoint(t: string, d: nat)
    requires 0 < d < |t| && AllDigits(t)
    ensures Unpointed(Pointed(t, d), d) == t
  {
    var m := |t| - d;
    var s := Pointed(t, d);
    assert s == t[..m] + "." + t[m..];
    assert |s| == m + 1 + d;
    assert s[..m] == t[..m];
    assert s[m + 1..] == t[m..];
    assert t[..m] + t[m..] == t;
  }

  /**
   * `x.toFixed(d)` is signed exactly when x is negative, and without its
   * sign and point its digits are worth the integer nearest |x|·10^d.
   */
  lemma ToFixedValue(x: real, d: nat)
    ensures var s := ToFixed(x, d);
      && ((|s| > 0 && s[0] == '-') <==> x < 0.0)
      && AllDigits(Unpointed(Unsigned(s), d))
      && DigitsValue(Unpointed(Unsigned(s), d)) == ScaledMagnitude(x, d)
  {
    var n := ScaledMagnitude(x, d);
    var p := PlacePoint(NatToString(n), d);
    assert IsDigit(p[0]);
    if x < 0.0 {
      assert ToFixed(x, d) == "-" + p;
      assert Unsigned(ToFixed(x, d)) == p;
    } else {
      assert ToFixed(x, d) == "" + p == p;
    }
    PlacePointValue(NatToString(n), d);
    NatToStringValue(n);
  }

  /** `formatNumber(123.456, 1)` is "123.5". */
  lemma FormatNumberExample()
    ensures FormatNumber(Num(123.456), 1) == "123.5"
  {
    assert Pow10(1) == 10;
    assert (123.456 * 10.0 + 0.5).Floor == 1235;
    assert NatToString(1235) == "1235" by {
      assert NatToString(1) == "1";
      assert NatToString(12) == "12";
      assert NatToString(123) == "123";
    }
    assert PlacePoint("1235", 1) == "123" + "." + "5";
  }

  /** `formatNumber`: "0" for NaN and non-numbers, `toFixed` otherwise. */
  function FormatNumber(value: Raw, decimals: nat): (s: string)
    ensures !value.Num? ==> s == "0"
    ensures value.Num? ==> s == ToFixed(value.x, decimals)
  {
    match value
    case Num(x) => ToFixed(x, decimals)
    case _ => "0"
  }

  /** `formatNumber(value)` with its default of one decimal: one digit after the point. */
  function FormatNumberDefault(value: Raw): (s: string)
    ensures !value.Num? ==> s == "0"
    ensures value.Num? ==> |s| >= 3 && s[|s| - 2] == '.' && IsDigit(s[|s| - 1])
  {
    FormatNumber(value, 1)
  }

  /** `formatPercentage`: "0%" when the denominator is 0 or either side is not a number. */
  function FormatPercentage(numerator: Raw, denominator: Raw): (s: string)
    ensures |s| >= 2 && s[|s| - 1] == '%'
  {
    if denominator == Num(0.0) || numerator.NonNumber? || denominator.NonNumber? then "0%"
    else if numerator.NaN? || denominator.NaN? then "NaN%"
    else IntToString(JsRound(numerator.x / denominator.x * 100.0)) + "%"
  }

  /** Reading back the digits before "%" gives the rounded percentage, and a zero denominator gives 0. */
  lemma FormatPercentageValue(n: real, d: real)
    ensures var s := FormatPercentage(Num(n), Num(d));
            ParseInt(s[..|s| - 1]) == Some(if d == 0.0 then 0 else JsRound(n / d * 100.0))
  {
    var s := FormatPercentage(Num(n), Num(d));
    if d == 0.0 {
      assert s[..|s| - 1] == "0";
      assert ParseNat("0") == Some(0);
    } else {
      var k := JsRound(n / d * 100.0);
      assert s[..|s| - 1] == IntToString(k);
      ParseIntRoundTrip(k);
    }
  }

  // ---------------------------------------------------- window description

  /** `getTimeWindowDescription`: "Nh" below a day, else "Dd" or "Dd Rh". */
  function GetTimeWindowDescription(windowHours: int): (s: string)
    ensures |s| >= 2
  {
    if windowHours == 8 then "8h"
    else if windowHours == 24 then "24h"
    else if windowHours < 24 then IntToString(windowHours) + "h"
    else
      var days := windowHours / 24;
      var remainingHours := windowHours % 24;
      if remainingHours == 0 then NatToString(days) + "d"
      else NatToString(days) + "d " + NatToString(remainingHours) + "h"
  }

  function FindChar(s: string, c: char): (i: int)
    ensures -1 <= i < |s|
    ensures i >= 0 ==> s[i] == c && forall j | 0 <= j < i :: s[j] != c
    ensures i == -1 ==> forall j | 0 <= j < |s| :: s[j] != c
  {
    if s == [] then -1
    else if s[0] == c then 0
    else
      var k := FindChar(s[1..], c);
      if k == -1 then -1 else k + 1
  }

  /** Reads a window description back into a number of hours. */
  function ParseWindowDescription(s: string): (r: Option<int>)
  {
    var k := FindChar(s, 'd');
    if k == -1 then
      if |s| >= 1 && s[|s| - 1] == 'h' then ParseInt(s[..|s| - 1]) else None
    else
      match ParseNat(s[..k])
      case None => None
      case Some(days) =>
        if k == |s| - 1 then Some(days * 24)
        else if k + 2 < |s| && s[k + 1] == ' ' && s[|s| - 1] == 'h' then
          match ParseNat(s[k + 2..|s| - 1])
          case None => None
          case Some(h) => Some(days * 24 + h)
        else None
  }

  lemma NoLetterInNumber(x: int)
    ensures FindChar(IntToString(x), 'd') == -1
  {
    var s := IntToString(x);
    forall j | 0 <= j < |s| ensures s[j] != 'd' {
      if x < 0 {
        if j > 0 {
          assert s[j] == NatToString(-x)[j - 1];
        }
      }
    }
  }

  lemma HoursRoundTrip(w: int)
    ensures ParseWindowDescription(IntToString(w) + "h") == Some(w)
  {
    var s := IntToString(w) + "h";
    NoLetterInNumber(w);
    assert FindChar(s, 'd') == -1 by {
      assert forall j | 0 <= j < |s| - 1 :: s[j] == IntToString(w)[j];
    }
    assert s[..|s| - 1] == IntToString(w);
    ParseIntRoundTrip(w);
  }

  lemma DaysRoundTrip(days: nat)
    ensures ParseWindowDescription(NatToString(days) + "d") == Some(days * 24)
  {
    var ds := NatToString(days);
    var s := ds + "d";
    assert FindChar(s, 'd') == |ds| by {
      assert s[|ds|] == 'd';
      assert forall j | 0 <= j < |ds| :: s[j] == ds[j] && IsDigit(ds[j]);
    }
    assert s[..|ds|] == ds;
    ParseNatRoundTrip(days);
  }

  lemma {:induction false} DaysHoursRoundTrip(days: nat, h: nat)
    ensures ParseWindowDescription(NatToString(days) + "d " + NatToString(h) + "h") == Some(days * 24 + h)
  {
    var ds := NatToString(days);
    var hs := NatToString(h);
    var s := ds + ("d " + hs + "h");
    assert s == NatToString(days) + "d " + NatToString(h) + "h";
    var k := |ds|;
    assert FindChar(s, 'd') == k by {
      assert s[k] == 'd';
      assert forall j | 0 <= j < k :: s[j] == ds[j] && IsDigit(ds[j]);
    }
    assert s[..k] == ds && s[k + 2..|s| - 1] == hs;
    ParseNatRoundTrip(days);
    ParseNatRoundTrip(h);
    ParseDaysHours(s, k, days, h);
  }

  lemma ParseDaysHours(s: string, k: nat, days: nat, h: nat)
    requires FindChar(s, 'd') == k && k + 2 < |s|
    requires s[k + 1] == ' ' && s[|s| - 1] == 'h'
    requires ParseNat(s[..k]) == Some(days) && ParseNat(s[k + 2..|s| - 1]) == Some(h)
    ensures ParseWindowDescription(s) == Some(days * 24 + h)
  {
  }

  /**
   * The description determines the window: reading it back gives the hours,
   * so a shown day count D and remainder R satisfy D·24 + R = N.
   */
  lemma WindowDescriptionRoundTrip(windowHours: int)
    ensures ParseWindowDescription(GetTimeWindowDescription(windowHours)) == Some(windowHours)
  {
    if windowHours <= 24 {
      ShortWindowRoundTrip(windowHours);
    } else if windowHours % 24 == 0 {
      WholeDaysRoundTrip(windowHours);
    } else {
      DaysAndHoursRoundTrip(windowHours);
    }
  }

  lemma ShortWindowRoundTrip(windowHours: int)
    requires windowHours <= 24
    ensures ParseWindowDescription(GetTimeWindowDescription(windowHours)) == Some(windowHours)
  {
    ShortDescription(windowHours);
    HoursRoundTrip(windowHours);
  }

  lemma WholeDaysRoundTrip(windowHours: int)
    requires windowHours > 24 && windowHours % 24 == 0
    ensures ParseWindowDescription(GetTimeWindowDescription(windowHours)) == Some(windowHours)
  {
    var days := windowHours / 24;
    assert days * 24 == windowHours;
    assert GetTimeWindowDescription(windowHours) == NatToString(days) + "d";
    DaysRoundTrip(days);
  }

  lemma DaysAndHoursRoundTrip(windowHours: int)
    requires windowHours > 24 && windowHours % 24 != 0
    ensures ParseWindowDescription(GetTimeWindowDescription(windowHours)) == Some(windowHours)
  {
    var days, rest := windowHours / 24, windowHours % 24;
    assert days * 24 + rest == windowHours;
    assert GetTimeWindowDescription(windowHours) == NatToString(days) + "d " + NatToString(rest) + "h";
    DaysHoursRoundTrip(days, rest);
  }

  /** Up to a day, the two literal cases agree with the general hours form. */
  lemma ShortDescription(windowHours: int)
    requires windowHours <= 24
    ensures GetTimeWindowDescription(windowHours) == IntToString(windowHours) + "h"
  {
    if windowHours == 8 {
      assert IntToString(8) == "8";
    } else if windowHours == 24 {
      assert NatToString(2) == "2";
      assert IntToString(24) == "24";
    }
  }
}
