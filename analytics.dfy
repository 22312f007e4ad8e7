/**
 * The live analytics router: the shared WHERE/params builder, the
 * YYYYMMDDHH key bounds of a window, the composition of the WHERE clause,
 * and the IN/OUT share map. The SQL is text handed to the database; only
 * the clauses and parameters the router assembles are modelled.
 */
module Analytics {
  import opened Wrappers
  import opened Text
  import opened Calendar
  import opened Series
  import opened Forecast

  /** The column a filter clause tests. */
  datatype Filter = TerminalIs | MoveTypeIs | DesigIs

  /** A bound query parameter: a text value, a YYYYMMDDHH key or a datetime. */
  datatype Param = TextParam(text: string) | KeyParam(key: int) | TimeParam(time: DateTime)

  /** The position of a filter in the fixed order terminal, move type, desig. */
  function Rank(f: Filter): nat {
    match f
    case TerminalIs => 0
    case MoveTypeIs => 1
    case DesigIs => 2
  }

  /** `terminal_id and terminal_id.upper() not in {"ALL", ""}`. */
  predicate TerminalSelected(terminal: Option<string>) {
    terminal.Some? && terminal.value != "" && Upper(terminal.value) != "ALL" && Upper(terminal.value) != ""
  }

  /** The value bound for a filter's placeholder, given the terminal and the normalised move type and desig. */
  function ValueFor(f: Filter, terminal: string, moveType: string, desig: string): string {
    match f
    case TerminalIs => terminal
    case MoveTypeIs => moveType
    case DesigIs => desig
  }

  /**
   * Filters and parameters laid out for the three decisions: one parameter
   * per filter, index for index; the filters in the order terminal, move
   * type, desig; each filter present exactly when its decision is taken.
   */
  predicate Arranged(wheres: seq<Filter>, params: seq<Param>, useTerminal: bool, useMoveType: bool, useDesig: bool,
                     terminal: string, moveType: string, desig: string) {
    && |wheres| == |params|
    && RankOrdered(wheres)
    && (TerminalIs in wheres <==> useTerminal)
    && (MoveTypeIs in wheres <==> useMoveType)
    && (DesigIs in wheres <==> useDesig)
    && BoundTo(wheres, params, terminal, moveType, desig)
  }

  predicate RankOrdered(wheres: seq<Filter>) {
    forall i, j | 0 <= i < j < |wheres| :: Rank(wheres[i]) < Rank(wheres[j])
  }

  predicate BoundTo(wheres: seq<Filter>, params: seq<Param>, terminal: string, moveType: string, desig: string)
    requires |wheres| == |params|
  {
    forall i | 0 <= i < |wheres| :: params[i] == TextParam(ValueFor(wheres[i], terminal, moveType, desig))
  }

  /**
   * The filters and their parameters as both routers assemble them: a
   * terminal filter unless the terminal is missing, empty or "ALL" in any
   * case; a move-type or desig filter exactly when the normaliser gives a
   * non-empty value, bound to that value.
   */
  ghost predicate FiltersFor(wheres: seq<Filter>, params: seq<Param>, terminal: Option<string>, moveType: Option<string>, desig: Option<string>) {
    Arranged(wheres, params, TerminalSelected(terminal), Truthy(NormMoveType(moveType)), Truthy(NormDesig(desig)),
      terminal.GetOr(""), NormMoveType(moveType).GetOr(""), NormDesig(desig).GetOr(""))
  }

  /** `_base_where`: a clause and its parameter for each filter that applies. */
  method BaseWhere(terminal: Option<string>, moveType: Option<string>, desig: Option<string>)
    returns (wheres: seq<Filter>, params: seq<Param>)
    ensures FiltersFor(wheres, params, terminal, moveType, desig)
    ensures |wheres| <= 3
  {
    var mt := NormMoveType(moveType);
    var dg := NormDesig(desig);
    wheres, params := AppendFilters(TerminalSelected(terminal), terminal.GetOr(""), mt, dg);
  }

  /**
   * The appends of `_base_where` after the given prefix, with the move type
   * and desig already normalised: `if mt:` and `if dg:` test for a
   * non-empty value.
   */
  method AppendFilters(useTerminal: bool, terminal: string, mt: Option<string>, dg: Option<string>)
    returns (wheres: seq<Filter>, params: seq<Param>)
    ensures Arranged(wheres, params, useTerminal, Truthy(mt), Truthy(dg), terminal, mt.GetOr(""), dg.GetOr(""))
    ensures |wheres| <= 3
  {
    wheres, params := [], [];
    if useTerminal {
      wheres := wheres + [TerminalIs];
      params := params + [TextParam(terminal)];
    }
    if mt.Some? && mt.value != "" {
      wheres := wheres + [MoveTypeIs];
      params := params + [TextParam(mt.value)];
    }
    if dg.Some? && dg.value != "" {
      wheres := wheres + [DesigIs];
      params := params + [TextParam(dg.value)];
    }
    ArrangedAppends(wheres, params, useTerminal, Truthy(mt), Truthy(dg), terminal, mt.GetOr(""), dg.GetOr(""));
  }

  lemma ArrangedMoveAndDesig(w0: seq<Filter>, p0: seq<Param>, wheres: seq<Filter>, params: seq<Param>, useMoveType: bool, useDesig: bool,
                             terminal: string, moveType: string, desig: string)
    requires (w0 == [] && p0 == []) || (w0 == [TerminalIs] && p0 == [TextParam(terminal)])
    requires wheres == w0 + (if useMoveType then [MoveTypeIs] else []) + (if useDesig then [DesigIs] else [])
    requires params == p0 + (if useMoveType then [TextParam(moveType)] else []) + (if useDesig then [TextParam(desig)] else [])
    ensures Arranged(wheres, params, w0 != [], useMoveType, useDesig, terminal, moveType, desig)
  {
    ArrangedOrder(w0, wheres, useMoveType, useDesig);
    ArrangedBinding(w0, p0, wheres, params, useMoveType, useDesig, terminal, moveType, desig);
    if useMoveType {
      assert wheres[|w0|] == MoveTypeIs;
    }
    if useDesig {
      assert wheres[|wheres| - 1] == DesigIs;
    }
  }

  lemma ArrangedOrder(w0: seq<Filter>, wheres: seq<Filter>, useMoveType: bool, useDesig: bool)
    requires w0 == [] || w0 == [TerminalIs]
    requires wheres == w0 + (if useMoveType then [MoveTypeIs] else []) + (if useDesig then [DesigIs] else [])
    ensures RankOrdered(wheres)
  {
  }

  lemma ArrangedBinding(w0: seq<Filter>, p0: seq<Param>, wheres: seq<Filter>, params: seq<Param>, useMoveType: bool, useDesig: bool,
                        terminal: string, moveType: string, desig: string)
    requires (w0 == [] && p0 == []) || (w0 == [TerminalIs] && p0 == [TextParam(terminal)])
    requires wheres == w0 + (if useMoveType then [MoveTypeIs] else []) + (if useDesig then [DesigIs] else [])
    requires params == p0 + (if useMoveType then [TextParam(moveType)] else []) + (if useDesig then [TextParam(desig)] else [])
    ensures |wheres| == |params| && BoundTo(wheres, params, terminal, moveType, desig)
  {
  }

  /** The filters appended one decision after another are arranged. */
  lemma ArrangedAppends(wheres: seq<Filter>, params: seq<Param>, useTerminal: bool, useMoveType: bool, useDesig: bool,
                        terminal: string, moveType: string, desig: string)
    requires wheres == (if useTerminal then [TerminalIs] else []) + (if useMoveType then [MoveTypeIs] else []) + (if useDesig then [DesigIs] else [])
    requires params == (if useTerminal then [TextParam(terminal)] else []) + (if useMoveType then [TextParam(moveType)] else [])
      + (if useDesig then [TextParam(desig)] else [])
    ensures Arranged(wheres, params, useTerminal, useMoveType, useDesig, terminal, moveType, desig)
  {
    if useTerminal {
      ArrangedMoveAndDesig([TerminalIs], [TextParam(terminal)], wheres, params, useMoveType, useDesig, terminal, moveType, desig);
    } else {
      ArrangedMoveAndDesig([], [], wheres, params, useMoveType, useDesig, terminal, moveType, desig);
    }
  }

  /** A wildcard or empty terminal, in any letter case, adds no terminal filter. */
  lemma NoTerminalFilterForAll(terminal: string)
    requires Upper(terminal) == "ALL" || terminal == ""
    ensures !TerminalSelected(Some(terminal))
  {
  }

  // ----------------------------------------------------------- key bounds

  /** The error FastAPI returns for an exception the router does not catch. */
  const InternalError := HttpError(500, "Internal Server Error")

  /**
   * `_key_bounds`: both ends parsed and truncated to the hour; an end before
   * the start is a 422; a string that does not parse raises an uncaught
   * ValueError, a 500. The result is the pair of YYYYMMDDHH keys.
   */
  function KeyBounds(startIso: string, endIso: string): (r: Result<(int, int), HttpError>)
    ensures r.Err? ==> r.error.status == 500 || r.error.status == 422
    ensures r.Err? && r.error.status == 500 <==> ParseLocalHour(startIso).None? || ParseLocalHour(endIso).None?
    ensures r.Err? && r.error.status == 422 <==>
      ParseLocalHour(startIso).Some? && ParseLocalHour(endIso).Some? && Before(ParseLocalHour(endIso).value, ParseLocalHour(startIso).value)
    ensures r.Ok? ==> r.value.0 <= r.value.1
  {
    match ParseLocalHour(startIso)
    case None => Err(InternalError)
    case Some(start) =>
      match ParseLocalHour(endIso)
      case None => Err(InternalError)
      case Some(end) =>
        if Before(end, start) then Err(HttpError(422, "end before start"))
        else
          BeforeTotal(start, end);
          HourKeyOrder(start, end);
          Ok((HourKey(start), HourKey(end)))
  }

  /** The keys are those of the parsed hours, and for whole hours their order is the order of the hours. */
  lemma KeyBoundsKeys(startIso: string, endIso: string)
    requires KeyBounds(startIso, endIso).Ok?
    ensures var start, end := ParseLocalHour(startIso).value, ParseLocalHour(endIso).value;
      && KeyBounds(startIso, endIso).value == (HourKey(start), HourKey(end))
      && (start == end <==> HourKey(start) == HourKey(end))
  {
    var start, end := ParseLocalHour(startIso).value, ParseLocalHour(endIso).value;
    HourKeyDecode(start);
    HourKeyDecode(end);
  }

  // ------------------------------------------------------------ WHERE text

  /** The text of each filter clause in the live router. */
  function ClauseText(f: Filter): string {
    match f
    case TerminalIs => "TerminalID = ?"
    case MoveTypeIs => "MoveType = ?"
    case DesigIs => "Desig = ?"
  }

  const KeyRangeClause := "ymdh_key BETWEEN ? AND ?"

  /** The conjuncts of the WHERE clause: the filter clauses, then the key range. */
  function Conjuncts(wheres: seq<Filter>): (r: seq<string>)
    ensures |r| == |wheres| + 1
    ensures r[|wheres|] == KeyRangeClause
    ensures forall i | 0 <= i < |wheres| :: r[i] == ClauseText(wheres[i])
  {
    Texts(wheres, ClauseText) + [KeyRangeClause]
  }

  /** The WHERE clause each endpoint formats: the key range alone when there are no filters. */
  function WhereSql(wheres: seq<Filter>): string {
    if wheres != [] then Join(Conjuncts(wheres), " AND ") else KeyRangeClause
  }

  /** With or without filters, the clause is its conjuncts joined by AND. */
  lemma WhereSqlIsConjunction(wheres: seq<Filter>)
    ensures WhereSql(wheres) == Join(Conjuncts(wheres), " AND ")
  {
  }

  /** `params += [start_key, end_key]`. */
  function QueryParams(params: seq<Param>, startKey: int, endKey: int): seq<Param> {
    params + [KeyParam(startKey), KeyParam(endKey)]
  }

  lemma ClauseHasOnePlaceholder(f: Filter)
    ensures Occurrences(ClauseText(f), '?') == 1
  {
    var p := match f
      case TerminalIs => "TerminalID = "
      case MoveTypeIs => "MoveType = "
      case DesigIs => "Desig = ";
    assert ClauseText(f) == p + "?";
    OccurrencesNone(p, '?');
    OccurrencesSingle('?');
    OccurrencesAppend(p, "?", '?');
  }

  lemma KeyRangeHasTwoPlaceholders()
    ensures Occurrences(KeyRangeClause, '?') == 2
  {
    var a, b := "ymdh_key BETWEEN ", " AND ";
    assert KeyRangeClause == a + "?" + b + "?";
    OccurrencesNone(a, '?');
    OccurrencesNone(b, '?');
    OccurrencesSingle('?');
    OccurrencesAppend(a, "?", '?');
    OccurrencesAppend(a + "?", b, '?');
    OccurrencesAppend(a + "?" + b, "?", '?');
  }

  /** The clause texts of the filters, in order. */
  function Texts(wheres: seq<Filter>, text: Filter -> string): (r: seq<string>)
    ensures |r| == |wheres|
  {
    seq(|wheres|, i requires 0 <= i < |wheres| => text(wheres[i]))
  }

  /** Clauses with one placeholder each hold one placeholder per filter. */
  lemma {:induction false} TextsPlaceholders(wheres: seq<Filter>, text: Filter -> string)
    requires forall f :: Occurrences(text(f), '?') == 1
    ensures TotalOccurrences(Texts(wheres, text), '?') == |wheres|
  {
    if wheres != [] {
      assert Texts(wheres, text)[1..] == Texts(wheres[1..], text);
      TextsPlaceholders(wheres[1..], text);
    }
  }

  /**
   * Every bound value has a placeholder: the WHERE clause holds exactly as
   * many `?` as the filters' parameters plus the two keys.
   */
  lemma WhereSqlPlaceholders(wheres: seq<Filter>, params: seq<Param>, startKey: int, endKey: int)
    requires |wheres| == |params|
    ensures Occurrences(WhereSql(wheres), '?') == |QueryParams(params, startKey, endKey)|
  {
    KeyRangeHasTwoPlaceholders();
    OccurrencesNone(" AND ", '?');
    JoinOccurrences(Conjuncts(wheres), " AND ", '?');
    forall f {
      ClauseHasOnePlaceholder(f);
    }
    TextsPlaceholders(wheres, ClauseText);
    TotalOccurrencesAppend(Texts(wheres, ClauseText), [KeyRangeClause], '?');
    assert TotalOccurrences([KeyRangeClause], '?') == 2;
  }

  // --------------------------------------------------------- IN/OUT share

  /** A result row of the share query: the upper-cased move type and its sum, NULL as None. */
  datatype ShareRow = ShareRow(moveType: string, sum: Option<real>)

  /** The share recorded for key: the last row carrying it, with a NULL sum as 0, else 0. */
  function ShareOf(rows: seq<ShareRow>, key: string): real {
    if rows == [] then 0.0
    else if rows[|rows| - 1].moveType == key then OrZero(rows[|rows| - 1].sum)
    else ShareOf(rows[..|rows| - 1], key)
  }

  /** A move type no row carries keeps its default of 0. */
  lemma {:induction false} ShareOfAbsent(rows: seq<ShareRow>, key: string)
    requires forall i | 0 <= i < |rows| :: rows[i].moveType != key
    ensures ShareOf(rows, key) == 0.0
  {
    if rows != [] {
      ShareOfAbsent(rows[..|rows| - 1], key);
    }
  }

  /** When one row carries the move type, as a GROUP BY result does, the share is that row's sum. */
  lemma {:induction false} ShareOfUnique(rows: seq<ShareRow>, key: string, k: nat)
    requires k < |rows| && rows[k].moveType == key
    requires forall i | 0 <= i < |rows| && i != k :: rows[i].moveType != key
    ensures ShareOf(rows, key) == OrZero(rows[k].sum)
  {
    if k < |rows| - 1 {
      ShareOfUnique(rows[..|rows| - 1], key, k);
    } else {
      assert rows[k] == rows[|rows| - 1];
    }
  }

  /**
   * `movetype_share`'s result loop: the map starts with IN and OUT at 0.0
   * and a row overwrites the entry of its move type only when that is one
   * of the two, so any other move type is ignored.
   */
  method MoveTypeShare(rows: seq<ShareRow>) returns (out: map<string, real>)
    ensures out.Keys == {"IN", "OUT"}
    ensures out["IN"] == ShareOf(rows, "IN") && out["OUT"] == ShareOf(rows, "OUT")
  {
    out := map["IN" := 0.0, "OUT" := 0.0];
    for j := 0 to |rows|
      invariant out.Keys == {"IN", "OUT"}
      invariant out["IN"] == ShareOf(rows[..j], "IN") && out["OUT"] == ShareOf(rows[..j], "OUT")
    {
      assert rows[..j + 1][..j] == rows[..j];
      var mt := rows[j].moveType;
      if mt in out {
        out := out[mt := OrZero(rows[j].sum)];
      }
    }
    assert rows[..|rows|] == rows;
  }
}
