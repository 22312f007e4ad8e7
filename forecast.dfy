/**
 * The forecast router: the move-type and designation normalisers, the
 * shaping of a stored row into a forecast point, the guard on a requested
 * window, and the two hour-grid builders (the range window's while loop and
 * the next-8-hours for loop). The SQL around them is not modelled: the rows
 * the query returns are a parameter.
 */
module Forecast {
  import opened Wrappers
  import opened Text
  import opened Calendar
  import opened Collections

  /** A token count: the response schema rejects a negative prediction. */
  type Count = x: real | x >= 0.0

  datatype ForecastPoint = ForecastPoint(
    ts: DateTime,
    moveType: string,
    desig: string,
    terminalId: string,
    pred: Count,
    actual: Option<real>)

  datatype HttpError = HttpError(status: int, detail: string)

  // ------------------------------------------------------------ normalisers

  lemma UpperCharKeepsSpace(c: char)
    ensures IsSpace(UpperChar(c)) <==> IsSpace(c)
    ensures UpperChar(UpperChar(c)) == UpperChar(c)
  {
  }

  /** Upper-casing keeps whitespace where it was and is idempotent. */
  lemma UpperShape(u: string)
    ensures Upper(u) == [] || (IsSpace(Upper(u)[0]) <==> IsSpace(u[0]))
    ensures Upper(u) == [] || (IsSpace(Upper(u)[|u| - 1]) <==> IsSpace(u[|u| - 1]))
    ensures Upper(Upper(u)) == Upper(u)
  {
    var t := Upper(u);
    if t != [] {
      UpperCharKeepsSpace(u[0]);
      UpperCharKeepsSpace(u[|u| - 1]);
    }
    forall i | 0 <= i < |t| ensures Upper(t)[i] == t[i] {
      UpperCharKeepsSpace(u[i]);
    }
  }

  /** `s.strip().upper()`: the form both normalisers compare. */
  function Canonical(s: string): (t: string)
    ensures t == [] || (!IsSpace(t[0]) && !IsSpace(t[|t| - 1]))
    ensures Upper(t) == t
  {
    UpperShape(Trim(s));
    Upper(Trim(s))
  }

  /** A string without outer whitespace and without lower-case letters is its own canonical form. */
  lemma CanonicalKeeps(w: string)
    requires w == [] || (!IsSpace(w[0]) && !IsSpace(w[|w| - 1]))
    requires Upper(w) == w
    ensures Canonical(w) == w
  {
    assert TrimLeft(w) == w;
    assert TrimRight(w) == w;
  }

  /** A canonical string is its own canonical form. */
  lemma CanonicalFixed(s: string)
    ensures Canonical(Canonical(s)) == Canonical(s)
  {
    CanonicalKeeps(Canonical(s));
  }

  /** The canonical names the normalisers produce are their own canonical forms. */
  lemma CanonicalWord(w: string)
    requires w == "IN" || w == "OUT" || w == "EXP"
    ensures Canonical(w) == w
  {
    assert Upper(w) == w by {
      assert forall i | 0 <= i < |w| :: UpperChar(w[i]) == w[i];
    }
    CanonicalKeeps(w);
  }

  /** Python's truthiness of an optional string: present and non-empty. */
  predicate Truthy(o: Option<string>) {
    o.Some? && o.value != []
  }

  /** `o or d`. */
  function OrDefault(o: Option<string>, d: string): (r: string)
    ensures Truthy(o) ==> r == o.value
    ensures !Truthy(o) ==> r == d
  {
    if Truthy(o) then o.value else d
  }

  /** "ALL" and "ANY" select every value, so they add no filter. */
  predicate IsWildcard(t: string) {
    t == "ALL" || t == "ANY"
  }

  /**
   * `norm_move_type`: a missing or empty filter and "ALL"/"ANY" mean no
   * filter; INWARD and OUTWARD are aliases of IN and OUT; anything else is
   * passed on trimmed and upper-cased.
   */
  function NormMoveType(s: Option<string>): (r: Option<string>)
    ensures r.None? <==> !Truthy(s) || IsWildcard(Canonical(s.value))
    ensures r == Some("IN") <==> Truthy(s) && (Canonical(s.value) == "IN" || Canonical(s.value) == "INWARD")
    ensures r == Some("OUT") <==> Truthy(s) && (Canonical(s.value) == "OUT" || Canonical(s.value) == "OUTWARD")
    ensures r.Some? && r.value != Canonical(s.value) ==> Canonical(s.value) == "INWARD" || Canonical(s.value) == "OUTWARD"
  {
    if !Truthy(s) then None
    else
      var t := Canonical(s.value);
      if IsWildcard(t) then None
      else if t == "IN" || t == "INWARD" then Some("IN")
      else if t == "OUT" || t == "OUTWARD" then Some("OUT")
      else Some(t)
  }

  /** Normalising a non-empty normalised move type changes nothing. */
  lemma {:induction false} NormMoveTypeIdempotent(s: Option<string>)
    requires Truthy(NormMoveType(s))
    ensures NormMoveType(NormMoveType(s)) == NormMoveType(s)
  {
    var w := NormMoveType(s).value;
    assert Canonical(w) == w by {
      if w == "IN" || w == "OUT" {
        CanonicalWord(w);
      } else {
        CanonicalFixed(s.value);
      }
    }
  }

  /**
   * `norm_desig`: a missing or empty filter and "ALL"/"ANY" mean no filter;
   * EXPORT is an alias of EXP; anything else is passed on trimmed and
   * upper-cased.
   */
  function NormDesig(s: Option<string>): (r: Option<string>)
    ensures r.None? <==> !Truthy(s) || IsWildcard(Canonical(s.value))
    ensures r == Some("EXP") <==> Truthy(s) && (Canonical(s.value) == "EXP" || Canonical(s.value) == "EXPORT")
    ensures r.Some? && r.value != Canonical(s.value) ==> Canonical(s.value) == "EXPORT"
  {
    if !Truthy(s) then None
    else
      var t := Canonical(s.value);
      if IsWildcard(t) then None
      else Some(DesigAlias(t))
  }

  /** The designation mapping: EMPTY, FULL and EXP map to themselves, EXPORT to EXP, others pass. */
  function DesigAlias(t: string): (r: string)
    ensures r == "EXP" <==> t == "EXP" || t == "EXPORT"
    ensures r != t ==> t == "EXPORT"
  {
    var mapping := map["EMPTY" := "EMPTY", "FULL" := "FULL", "EXP" := "EXP", "EXPORT" := "EXP"];
    if t in mapping then mapping[t] else t
  }

  /** Normalising a non-empty normalised designation changes nothing. */
  lemma {:induction false} NormDesigIdempotent(s: Option<string>)
    requires Truthy(NormDesig(s))
    ensures NormDesig(NormDesig(s)) == NormDesig(s)
  {
    var w := NormDesig(s).value;
    assert Canonical(w) == w by {
      if w == "EXP" {
        CanonicalWord(w);
      } else {
        CanonicalFixed(s.value);
      }
    }
  }

  // ------------------------------------------------------------ row shaping

  /** One row of the forecast table as the query returns it. */
  datatype DbRow = DbRow(
    terminal: string,
    moveType: Option<string>,
    desig: Option<string>,
    year: int, month: int, day: int, hour: int,
    pred: Option<real>,
    actual: Option<real>)

  /** `str(v).upper()`: a NULL column prints as "None". */
  function ColumnText(v: Option<string>): (r: string)
    ensures v.None? ==> r == "NONE"
    ensures v.Some? ==> r == Upper(v.value)
  {
    Upper(if v.None? then "None" else v.value)
  }

  /**
   * The prediction of a stored row: a NULL count becomes 0.0; a negative
   * count fails the response schema's `pred >= 0`, which the server reports
   * as an internal error.
   */
  function PredFromDb(raw: Option<real>): (r: Result<Count, HttpError>)
    ensures raw.None? ==> r == Ok(0.0)
    ensures r.Ok? <==> raw.None? || raw.value >= 0.0
    ensures r.Ok? && raw.Some? ==> r.value == raw.value
    ensures r.Err? ==> r.error.status == 500
  {
    var v := if raw.None? then 0.0 else raw.value;
    if v < 0.0 then Err(HttpError(500, "pred must be greater than or equal to 0")) else Ok(v)
  }

  /**
   * A stored row as a forecast point stamped at its date and hour. An hour
   * outside 0..23 makes `replace(hour=...)` raise, an internal error.
   */
  function RowToPoint(row: DbRow): (r: Result<ForecastPoint, HttpError>)
    ensures r.Ok? <==> Valid(DateTime(row.year, row.month, row.day, row.hour, 0, 0, 0)) && PredFromDb(row.pred).Ok?
    ensures r.Ok? ==> r.value.ts == DateTime(row.year, row.month, row.day, row.hour, 0, 0, 0)
    ensures r.Ok? ==> r.value.pred == (if row.pred.None? then 0.0 else row.pred.value)
    ensures r.Ok? ==> r.value.moveType == ColumnText(row.moveType) && r.value.desig == ColumnText(row.desig)
    ensures r.Ok? ==> r.value.terminalId == row.terminal && r.value.actual == row.actual
  {
    var ts := DateTime(row.year, row.month, row.day, row.hour, 0, 0, 0);
    if !Valid(ts) then Err(HttpError(500, "hour must be in 0..23"))
    else
      match PredFromDb(row.pred)
      case Err(e) => Err(e)
      case Ok(p) => Ok(ForecastPoint(ts, ColumnText(row.moveType), ColumnText(row.desig), row.terminal, p, row.actual))
  }

  // ------------------------------------------------------------ range guard

  /**
   * The range endpoint's window: both ends parsed and truncated to the hour
   * in the dashboard's zone, then rejected with 422 if either does not
   * parse, if the end is before the start, or if the whole-day difference
   * exceeds 14.
   */
  function RangeWindow(startIso: string, endIso: string): (r: Result<(DateTime, DateTime), HttpError>)
    ensures r.Err? ==> r.error.status == 422
    ensures r.Ok? ==> ParseLocalHour(startIso) == Some(r.value.0) && ParseLocalHour(endIso) == Some(r.value.1)
    ensures r.Ok? ==> AtOrBefore(r.value.0, r.value.1) && HourIndex(r.value.1) - HourIndex(r.value.0) < 15 * 24
    ensures ParseLocalHour(startIso).Some? && ParseLocalHour(endIso).Some?
      && AtOrBefore(ParseLocalHour(startIso).value, ParseLocalHour(endIso).value)
      && HourIndex(ParseLocalHour(endIso).value) - HourIndex(ParseLocalHour(startIso).value) < 15 * 24
      ==> r.Ok?
  {
    var s := ParseLocalHour(startIso);
    var e := ParseLocalHour(endIso);
    if s.None? || e.None? then Err(HttpError(422, "Bad start/end: invalid isoformat string"))
    else
      var start, end := s.value, e.value;
      OrderByIndex(start, end);
      BeforeTotal(start, end);
      if Before(end, start) then Err(HttpError(422, "Bad start/end: end before start"))
      else if DaysBetween(start, end) > 14 then Err(HttpError(422, "Bad start/end: window too large"))
      else Ok((start, end))
  }

  // --------------------------------------------------------- range gap fill

  /** The point emitted for an hour no stored row covers. */
  function Filler(ts: DateTime, mt: Option<string>, dg: Option<string>, terminal: string): (p: ForecastPoint)
    ensures p.ts == ts && p.pred == 0.0 && p.actual.None? && p.terminalId == terminal
    ensures p.moveType == OrDefault(mt, "IN") && p.desig == OrDefault(dg, "EXP")
  {
    ForecastPoint(ts, OrDefault(mt, "IN"), OrDefault(dg, "EXP"), terminal, 0.0, None)
  }

  /** The test `x.ts == ts` of the range fill's search. */
  function StampedAt(ts: DateTime): ForecastPoint -> bool {
    (x: ForecastPoint) => x.ts == ts
  }

  /** The range fill's entry for hour ts: the first row stamped ts, else a filler. */
  function RangeEntry(rows: seq<ForecastPoint>, ts: DateTime, mt: Option<string>, dg: Option<string>, terminal: string): (p: ForecastPoint)
    ensures p.ts == ts
  {
    var k := FirstMatch(rows, StampedAt(ts));
    if k >= 0 then rows[k] else Filler(ts, mt, dg, terminal)
  }

  /** An hour takes the first stored row with that timestamp, and a filler only when there is none. */
  lemma RangeEntryChoice(rows: seq<ForecastPoint>, ts: DateTime, mt: Option<string>, dg: Option<string>, terminal: string)
    ensures var p := RangeEntry(rows, ts, mt, dg, terminal);
      ((forall i | 0 <= i < |rows| :: rows[i].ts != ts) ==> p == Filler(ts, mt, dg, terminal))
      && ((exists i | 0 <= i < |rows| :: rows[i].ts == ts) ==>
        exists i | 0 <= i < |rows| :: rows[i] == p && forall j | 0 <= j < i :: rows[j].ts != ts)
  {
    var k := FirstMatch(rows, StampedAt(ts));
    if k >= 0 {
      assert rows[k] == RangeEntry(rows, ts, mt, dg, terminal);
    }
  }

  /** The range fill's entry for start + i hours. */
  function EntryAt(rows: seq<ForecastPoint>, start: DateTime, mt: Option<string>, dg: Option<string>, terminal: string): nat --> ForecastPoint {
    (i: nat) requires Valid(start) => RangeEntry(rows, AddHours(start, i), mt, dg, terminal)
  }

  /** The first n entries of the range fill from start. */
  function RangeFill(rows: seq<ForecastPoint>, start: DateTime, n: nat, mt: Option<string>, dg: Option<string>, terminal: string): (r: seq<ForecastPoint>)
    requires Valid(start)
    ensures |r| == n
  {
    Tabulate(n, EntryAt(rows, start, mt, dg, terminal))
  }

  /** Entry i of the range fill is the entry for start + i hours. */
  lemma RangeFillEntries(rows: seq<ForecastPoint>, start: DateTime, n: nat, mt: Option<string>, dg: Option<string>, terminal: string)
    requires Valid(start)
    ensures forall i | 0 <= i < n :: RangeFill(rows, start, n, mt, dg, terminal)[i] == RangeEntry(rows, AddHours(start, i), mt, dg, terminal)
  {
    TabulateAt(n, EntryAt(rows, start, mt, dg, terminal));
  }

  /** One step of the cursor: `cursor.replace(minute=0, ...) + timedelta(hours=1)`. */
  lemma CursorStep(start: DateTime, n: nat, cursor: DateTime)
    requires Valid(start) && OnTheHour(start) && cursor == AddHours(start, n)
    ensures NextHour(Truncate(cursor)) == AddHours(start, n + 1)
  {
  }

  /** The loop test `cursor <= end` at start + n hours, as an hour count. */
  lemma CursorTest(start: DateTime, end: DateTime, n: nat)
    requires Valid(start) && OnTheHour(start) && Valid(end) && OnTheHour(end)
    ensures AtOrBefore(AddHours(start, n), end) <==> n <= HourIndex(end) - HourIndex(start)
  {
    AddHoursIndex(start, n);
    OrderByIndex(AddHours(start, n), end);
  }

  /** Appending the entry for the next hour extends the range fill by one. */
  lemma RangeFillStep(rows: seq<ForecastPoint>, start: DateTime, n: nat, mt: Option<string>, dg: Option<string>, terminal: string, e: ForecastPoint)
    requires Valid(start)
    requires e == RangeEntry(rows, AddHours(start, n), mt, dg, terminal)
    ensures RangeFill(rows, start, n, mt, dg, terminal) + [e] == RangeFill(rows, start, n + 1, mt, dg, terminal)
  {
    var f := EntryAt(rows, start, mt, dg, terminal);
    assert f(n) == e;
    assert Tabulate(n + 1, f) == Tabulate(n, f) + [f(n)];
  }

  /** The last entry of a fill that reaches end's hour index is stamped end. */
  lemma RangeFillLast(rows: seq<ForecastPoint>, start: DateTime, end: DateTime, n: nat, mt: Option<string>, dg: Option<string>, terminal: string)
    requires Valid(start) && OnTheHour(start) && Valid(end) && OnTheHour(end)
    requires n > 0 && HourIndex(end) == HourIndex(start) + n - 1
    ensures RangeFill(rows, start, n, mt, dg, terminal)[n - 1].ts == end
  {
    RangeFillEntries(rows, start, n, mt, dg, terminal);
    AddHoursIndex(start, n - 1);
    OrderByIndex(AddHours(start, n - 1), end);
  }

  /** One pass of the range fill's loop: the hour is within the window, the entry extends the fill, the cursor advances one hour. */
  lemma RangeLoopStep(rows: seq<ForecastPoint>, start: DateTime, end: DateTime, n: nat, cursor: DateTime, mt: Option<string>, dg: Option<string>, terminal: string)
    requires Valid(start) && OnTheHour(start) && Valid(end) && OnTheHour(end)
    requires cursor == AddHours(start, n) && AtOrBefore(cursor, end)
    ensures n <= HourIndex(end) - HourIndex(start)
    ensures Valid(cursor) && Valid(Truncate(cursor))
    ensures NextHour(Truncate(cursor)) == AddHours(start, n + 1)
    ensures RangeFill(rows, start, n, mt, dg, terminal) + [RangeEntry(rows, cursor, mt, dg, terminal)] == RangeFill(rows, start, n + 1, mt, dg, terminal)
  {
    CursorTest(start, end, n);
    CursorStep(start, n, cursor);
    RangeFillStep(rows, start, n, mt, dg, terminal, RangeEntry(rows, cursor, mt, dg, terminal));
  }

  /** Leaving the range fill's loop: the fill covers start through end, and its last entry is stamped end. */
  lemma RangeLoopExit(rows: seq<ForecastPoint>, start: DateTime, end: DateTime, n: nat, cursor: DateTime, mt: Option<string>, dg: Option<string>, terminal: string)
    requires Valid(start) && OnTheHour(start) && Valid(end) && OnTheHour(end)
    requires cursor == AddHours(start, n) && !AtOrBefore(cursor, end)
    requires n == 0 || n <= HourIndex(end) - HourIndex(start) + 1
    ensures n == if HourIndex(end) < HourIndex(start) then 0 else HourIndex(end) - HourIndex(start) + 1
    ensures n > 0 ==> RangeFill(rows, start, n, mt, dg, terminal)[n - 1].ts == end
  {
    CursorTest(start, end, n);
    if n > 0 {
      RangeFillLast(rows, start, end, n, mt, dg, terminal);
    }
  }

  /**
   * One pass of the range fill's loop: the entry for the cursor's hour (the
   * first row stamped with it, or a filler) is appended and the cursor
   * moves on one hour.
   */
  method RangeStep(rows: seq<ForecastPoint>, start: DateTime, end: DateTime, mt: Option<string>, dg: Option<string>, terminal: string,
                   filled: seq<ForecastPoint>, cursor: DateTime)
    returns (filled': seq<ForecastPoint>, cursor': DateTime)
    requires Valid(start) && OnTheHour(start) && Valid(end) && OnTheHour(end)
    requires cursor == AddHours(start, |filled|) && AtOrBefore(cursor, end)
    requires filled == RangeFill(rows, start, |filled|, mt, dg, terminal)
    ensures |filled'| == |filled| + 1 && |filled| <= HourIndex(end) - HourIndex(start)
    ensures cursor' == AddHours(start, |filled'|)
    ensures filled' == RangeFill(rows, start, |filled'|, mt, dg, terminal)
  {
    RangeLoopStep(rows, start, end, |filled|, cursor, mt, dg, terminal);
    var m := FirstMatch(rows, StampedAt(cursor));
    var entry := if m >= 0 then rows[m] else Filler(cursor, mt, dg, terminal);
    filled' := filled + [entry];
    cursor' := NextHour(Truncate(cursor));
  }

  /**
   * The range endpoint's fill: from start through end inclusive, one entry
   * per hour, each the first stored row at that hour or a filler.
   */
  method RangeGapFill(start: DateTime, end: DateTime, rows: seq<ForecastPoint>, mt: Option<string>, dg: Option<string>, terminal: string)
    returns (filled: seq<ForecastPoint>)
    requires Valid(start) && Valid(end) && OnTheHour(start) && OnTheHour(end)
    ensures |filled| == if HourIndex(end) < HourIndex(start) then 0 else HourIndex(end) - HourIndex(start) + 1
    ensures filled == RangeFill(rows, start, |filled|, mt, dg, terminal)
    ensures |filled| > 0 ==> filled[|filled| - 1].ts == end
  {
    var cursor := start;
    filled := [];
    ghost var gap := HourIndex(end) - HourIndex(start);
    while AtOrBefore(cursor, end)
      invariant cursor == AddHours(start, |filled|)
      invariant |filled| == 0 || |filled| <= gap + 1
      invariant filled == RangeFill(rows, start, |filled|, mt, dg, terminal)
      decreases gap + 1 - |filled|
    {
      filled, cursor := RangeStep(rows, start, end, mt, dg, terminal, filled, cursor);
    }
    RangeLoopExit(rows, start, end, |filled|, cursor, mt, dg, terminal);
  }

  /** The range fill's entries are stamped one hour apart, strictly increasing, starting at start. */
  lemma RangeFillStamps(rows: seq<ForecastPoint>, start: DateTime, n: nat, mt: Option<string>, dg: Option<string>, terminal: string)
    requires Valid(start) && OnTheHour(start)
    ensures var r := RangeFill(rows, start, n, mt, dg, terminal);
      (forall i | 0 <= i < n :: Valid(r[i].ts) && OnTheHour(r[i].ts) && HourIndex(r[i].ts) == HourIndex(start) + i)
      && (forall i, j | 0 <= i < j < n :: Before(r[i].ts, r[j].ts))
      && (n > 0 ==> r[0].ts == start)
  {
    var r := RangeFill(rows, start, n, mt, dg, terminal);
    RangeFillEntries(rows, start, n, mt, dg, terminal);
    forall i | 0 <= i < n
      ensures HourIndex(r[i].ts) == HourIndex(start) + i
    {
      AddHoursIndex(start, i);
    }
    forall i, j | 0 <= i < j < n
      ensures Before(r[i].ts, r[j].ts)
    {
      AddHoursOrder(start, i, j);
    }
  }

  // --------------------------------------------------------- next-8h fill

  /** The test of the next-8h fill's search: the same hour once minutes are dropped. */
  function SameHour(ts: DateTime): ForecastPoint -> bool {
    (x: ForecastPoint) => Truncate(x.ts) == Truncate(ts)
  }

  /** The next-8h fill's entry for hour ts: the first row in the same hour, else a filler. */
  function HorizonEntry(rows: seq<ForecastPoint>, ts: DateTime, mt: Option<string>, dg: Option<string>, terminal: string): (p: ForecastPoint)
    ensures Truncate(p.ts) == Truncate(ts)
  {
    var k := FirstMatch(rows, SameHour(ts));
    if k >= 0 then rows[k] else Filler(ts, mt, dg, terminal)
  }

  /** An hour takes the first stored row in that hour, and a filler only when there is none. */
  lemma HorizonEntryChoice(rows: seq<ForecastPoint>, ts: DateTime, mt: Option<string>, dg: Option<string>, terminal: string)
    ensures var p := HorizonEntry(rows, ts, mt, dg, terminal);
      ((forall i | 0 <= i < |rows| :: Truncate(rows[i].ts) != Truncate(ts)) ==> p == Filler(ts, mt, dg, terminal))
      && ((exists i | 0 <= i < |rows| :: Truncate(rows[i].ts) == Truncate(ts)) ==>
        exists i | 0 <= i < |rows| :: rows[i] == p && forall j | 0 <= j < i :: Truncate(rows[j].ts) != Truncate(ts))
  {
    var k := FirstMatch(rows, SameHour(ts));
    if k >= 0 {
      assert rows[k] == HorizonEntry(rows, ts, mt, dg, terminal);
    }
  }

  /** The entries of the next-8h fill before sorting, one per horizon hour. */
  function HorizonEntries(rows: seq<ForecastPoint>, horizon: seq<DateTime>, mt: Option<string>, dg: Option<string>, terminal: string): (r: seq<ForecastPoint>)
    ensures |r| == |horizon|
    ensures forall i | 0 <= i < |horizon| :: r[i] == HorizonEntry(rows, horizon[i], mt, dg, terminal)
  {
    seq(|horizon|, i requires 0 <= i < |horizon| => HorizonEntry(rows, horizon[i], mt, dg, terminal))
  }

  /** The sort key of `sorted(..., key=lambda x: x.ts)`, negated for the descending sort. */
  function TsKey(p: ForecastPoint): real {
    if Valid(p.ts) then -(MicroIndex(p.ts) as real) else 0.0
  }

  predicate SortedByTs(s: seq<ForecastPoint>) {
    forall i, j | 0 <= i < j < |s| :: !Before(s[j].ts, s[i].ts)
  }

  /** Sorting on the negated microsecond index orders valid timestamps ascending. */
  lemma SortedByKey(s: seq<ForecastPoint>)
    requires NonIncreasingBy(s, TsKey)
    requires forall i | 0 <= i < |s| :: Valid(s[i].ts)
    ensures SortedByTs(s)
  {
    forall i, j | 0 <= i < j < |s| ensures !Before(s[j].ts, s[i].ts) {
      assert TsKey(s[i]) >= TsKey(s[j]);
      MicroIndexOrder(s[j].ts, s[i].ts);
    }
  }

  /** A permutation of entries with valid timestamps has valid timestamps. */
  lemma ValidStampsPermuted(a: seq<ForecastPoint>, b: seq<ForecastPoint>)
    requires multiset(a) == multiset(b)
    requires forall i | 0 <= i < |a| :: Valid(a[i].ts)
    ensures forall i | 0 <= i < |b| :: Valid(b[i].ts)
  {
    forall i | 0 <= i < |b| ensures Valid(b[i].ts) {
      assert b[i] in multiset(a);
      var k :| 0 <= k < |a| && a[k] == b[i];
    }
  }

  /** `sorted(s, key=lambda x: x.ts)`: a stable sort into ascending timestamps. */
  function SortByTs(s: seq<ForecastPoint>): (r: seq<ForecastPoint>)
    requires forall i | 0 <= i < |s| :: Valid(s[i].ts)
    ensures SortedByTs(r)
    ensures multiset(r) == multiset(s) && |r| == |s|
  {
    var r := SortDesc(s, TsKey);
    ValidStampsPermuted(s, r);
    SortedByKey(r);
    r
  }

  /**
   * The next-8h fill: one entry per horizon hour, then sorted by timestamp
   * (a stable sort, as Python's `sorted` is).
   */
  method Next8hFill(horizon: seq<DateTime>, rows: seq<ForecastPoint>, mt: Option<string>, dg: Option<string>, terminal: string)
    returns (result: seq<ForecastPoint>)
    requires forall i | 0 <= i < |horizon| :: Valid(horizon[i])
    requires forall i | 0 <= i < |rows| :: Valid(rows[i].ts)
    ensures |result| == |horizon|
    ensures SortedByTs(result)
    ensures multiset(result) == multiset(HorizonEntries(rows, horizon, mt, dg, terminal))
  {
    var filled: seq<ForecastPoint> := [];
    for k := 0 to |horizon|
      invariant |filled| == k
      invariant forall i | 0 <= i < k :: filled[i] == HorizonEntry(rows, horizon[i], mt, dg, terminal)
    {
      var ts := horizon[k];
      var m := FirstMatch(rows, SameHour(ts));
      if m >= 0 {
        filled := filled + [rows[m]];
      } else {
        filled := filled + [Filler(ts, mt, dg, terminal)];
      }
    }
    assert filled == HorizonEntries(rows, horizon, mt, dg, terminal);
    HorizonEntriesValid(rows, horizon, mt, dg, terminal);
    result := SortByTs(filled);
  }

  /** Every entry of the fill has a valid timestamp when the horizon and the rows do. */
  lemma HorizonEntriesValid(rows: seq<ForecastPoint>, horizon: seq<DateTime>, mt: Option<string>, dg: Option<string>, terminal: string)
    requires forall i | 0 <= i < |horizon| :: Valid(horizon[i])
    requires forall i | 0 <= i < |rows| :: Valid(rows[i].ts)
    ensures forall i | 0 <= i < |horizon| :: Valid(HorizonEntry(rows, horizon[i], mt, dg, terminal).ts)
  {
    forall i | 0 <= i < |horizon| ensures Valid(HorizonEntry(rows, horizon[i], mt, dg, terminal).ts) {
      var k := FirstMatch(rows, SameHour(horizon[i]));
      if k >= 0 {
        assert HorizonEntry(rows, horizon[i], mt, dg, terminal) == rows[k];
      }
    }
  }
}
