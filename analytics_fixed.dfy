/**
 * The deduplicating analytics router: window bounds as datetimes, the
 * filter fragments and parameters each endpoint appends after the window's
 * two bounds, the sunburst's Terminal → MoveType → Desig accumulation and its
 * conversion to value-sorted nodes, and the composition dimension fallback.
 * The database returns the grouped rows; they are parameters here.
 */
module AnalyticsFixed {
  import opened Wrappers
  import opened Text
  import opened Calendar
  import opened Series
  import opened Numeric
  import opened Collections
  import opened Forecast
  import opened Analytics
  import opened Grouping

  // ----------------------------------------------------------- time bounds

  /** `parse_local_dt` zeroes the sub-hour fields, so applying it to its own result changes nothing. */
  lemma ParseLocalDtIdempotent(s: string)
    requires ParseLocalHour(s).Some?
    ensures Truncate(ParseLocalHour(s).value) == ParseLocalHour(s).value
  {
  }

  /**
   * `_time_bounds`: both ends parsed and truncated to the hour; an end
   * before the start is a 422, an unparsable string an uncaught ValueError,
   * a 500. Otherwise the two datetimes, start at or before end.
   */
  function TimeBounds(startIso: string, endIso: string): (r: Result<(DateTime, DateTime), HttpError>)
    ensures r.Err? ==> r.error.status == 500 || r.error.status == 422
    ensures r.Err? && r.error.status == 500 <==> ParseLocalHour(startIso).None? || ParseLocalHour(endIso).None?
    ensures r.Err? && r.error.status == 422 <==>
      ParseLocalHour(startIso).Some? && ParseLocalHour(endIso).Some? && Before(ParseLocalHour(endIso).value, ParseLocalHour(startIso).value)
    ensures r.Ok? ==> r.value.0 == ParseLocalHour(startIso).value && r.value.1 == ParseLocalHour(endIso).value
    ensures r.Ok? ==> AtOrBefore(r.value.0, r.value.1)
  {
    match ParseLocalHour(startIso)
    case None => Err(InternalError)
    case Some(start) =>
      match ParseLocalHour(endIso)
      case None => Err(InternalError)
      case Some(end) =>
        if Before(end, start) then Err(HttpError(422, "end before start"))
        else
          BeforeTotal(start, end);
          Ok((start, end))
  }

  // --------------------------------------------------------------- filters

  /**
   * The filter fragments and parameters of an endpoint: the parameters
   * start with the window's two bounds, then one value per fragment, laid
   * out as in the live router. An endpoint that does not filter on a column
   * passes None for it.
   */
  method FilterParams(start: DateTime, end: DateTime, terminal: Option<string>, moveType: Option<string>, desig: Option<string>)
    returns (filters: seq<Filter>, params: seq<Param>)
    ensures |params| == |filters| + 2
    ensures params[..2] == [TimeParam(start), TimeParam(end)]
    ensures FiltersFor(filters, params[2..], terminal, moveType, desig)
  {
    var mt := NormMoveType(moveType);
    var dg := NormDesig(desig);
    var extra;
    filters, extra := AppendFilters(TerminalSelected(terminal), terminal.GetOr(""), mt, dg);
    params := [TimeParam(start), TimeParam(end)] + extra;
    assert params[2..] == extra;
  }

  /** The fragment each filter appends to the base CTE. */
  function FragmentText(f: Filter): string {
    match f
    case TerminalIs => "AND \"TerminalID\" = ?"
    case MoveTypeIs => "AND UPPER(TRIM(\"MoveType\")) = ?"
    case DesigIs => "AND UPPER(TRIM(\"Desig\")) = ?"
  }

  /** The window test of the base CTE: the stamp rebuilt from date and hour, between the two bounds. */
  const StampHead := "WHERE TIMESTAMPADD(hour, "
  const StampHour := "\"MoveHour_pred\", "
  const StampDate := "CAST(\"MoveDate_pred\" AS TIMESTAMP))"
  const WindowPrefix := StampHead + StampHour + StampDate + " BETWEEN "
  const WindowClause := WindowPrefix + "?" + " AND " + "?"

  /** `" ".join(additional_filters)` after the window test. */
  function CteFilterSql(filters: seq<Filter>): string {
    WindowClause + " " + Join(Texts(filters, FragmentText), " ")
  }

  lemma FragmentHasOnePlaceholder(f: Filter)
    ensures Occurrences(FragmentText(f), '?') == 1
  {
    var p := match f
      case TerminalIs => "AND \"TerminalID\" = "
      case MoveTypeIs => "AND UPPER(TRIM(\"MoveType\")) = "
      case DesigIs => "AND UPPER(TRIM(\"Desig\")) = ";
    assert FragmentText(f) == p + "?";
    OccurrencesNone(p, '?');
    OccurrencesSingle('?');
    OccurrencesAppend(p, "?", '?');
  }

  lemma WindowHasTwoPlaceholders()
    ensures Occurrences(WindowClause, '?') == 2
  {
    var a, b := WindowPrefix, " AND ";
    OccurrencesNone(StampHead, '?');
    OccurrencesNone(StampHour, '?');
    OccurrencesNone(StampDate, '?');
    OccurrencesNone(" BETWEEN ", '?');
    OccurrencesAppend(StampHead, StampHour, '?');
    OccurrencesAppend(StampHead + StampHour, StampDate, '?');
    OccurrencesAppend(StampHead + StampHour + StampDate, " BETWEEN ", '?');
    OccurrencesNone(b, '?');
    OccurrencesSingle('?');
    OccurrencesAppend(a, "?", '?');
    OccurrencesAppend(a + "?", b, '?');
    OccurrencesAppend(a + "?" + b, "?", '?');
  }

  /** Every parameter has its placeholder: the window test and the fragments hold exactly |params| of them. */
  lemma CteFilterPlaceholders(filters: seq<Filter>, params: seq<Param>)
    requires |params| == |filters| + 2
    ensures Occurrences(CteFilterSql(filters), '?') == |params|
  {
    WindowHasTwoPlaceholders();
    OccurrencesNone(" ", '?');
    forall f {
      FragmentHasOnePlaceholder(f);
    }
    TextsPlaceholders(filters, FragmentText);
    JoinOccurrences(Texts(filters, FragmentText), " ", '?');
    OccurrencesAppend(WindowClause, " ", '?');
    OccurrencesAppend(WindowClause + " ", Join(Texts(filters, FragmentText), " "), '?');
  }

  // ------------------------------------------------------- sunburst leaves

  /** A grouped row of the sunburst query; NULL columns are None. */
  datatype SunRow = SunRow(terminal: Option<string>, moveType: Option<string>, desig: Option<string>, sum: Option<real>)

  /** The (terminal, move type, desig) path of a leaf. */
  datatype LeafKey = LeafKey(terminal: string, moveType: string, desig: string)

  /** `str(t)`: the terminal as it is, NULL printing as "None"; it is not upper-cased. */
  function TerminalText(t: Option<string>): string {
    t.GetOr("None")
  }

  /** The leaf a row is filed under: `str(t)`, `str(mt).upper()`, `str(dg).upper()`. */
  function RowKey(r: SunRow): LeafKey {
    LeafKey(TerminalText(r.terminal), ColumnText(r.moveType), ColumnText(r.desig))
  }

  /** Each row as its leaf and its sum, NULL as 0: `float(s or 0.0)`. */
  function RowPairs(rows: seq<SunRow>): (r: seq<(LeafKey, real)>)
    ensures |r| == |rows|
  {
    seq(|rows|, i requires 0 <= i < |rows| => (RowKey(rows[i]), OrZero(rows[i].sum)))
  }

  /**
   * The sunburst's accumulation loop, with the nested dictionary laid out
   * as its leaves in first-insertion order: a row's path is added with 0.0
   * the first time it is seen (`setdefault`), and its sum, NULL as 0, is
   * added to that leaf. Every leaf holds the sum of its rows, and the leaves
   * together hold the total of all rows.
   */
  method AccumulateSunburst(rows: seq<SunRow>) returns (keys: seq<LeafKey>, values: seq<real>)
    ensures keys == DistinctInOrder(Firsts(RowPairs(rows)))
    ensures |values| == |keys|
    ensures forall i | 0 <= i < |keys| :: values[i] == GroupSum(RowPairs(rows), keys[i])
    ensures GroupTotal(RowPairs(rows), keys) == PairsTotal(RowPairs(rows))
  {
    keys, values := GroupSums(RowPairs(rows));
    GroupTotalConserves(RowPairs(rows));
  }

  // --------------------------------------------------------- sunburst nodes

  /** `{name, value, children}`; a desig node has no children. */
  datatype Node = Node(name: string, value: real, children: seq<Node>)

  function NodeValue(n: Node): real {
    n.value
  }

  /** The terminals of the leaves, in first-insertion order: `d.items()`. */
  function TerminalsOf(keys: seq<LeafKey>): seq<string> {
    DistinctInOrder(seq(|keys|, i requires 0 <= i < |keys| => keys[i].terminal))
  }

  /** The move types of the leaves under terminal t, in order with repeats. */
  function MoveTypesWith(keys: seq<LeafKey>, t: string): seq<string> {
    if keys == [] then []
    else MoveTypesWith(keys[..|keys| - 1], t) + (if keys[|keys| - 1].terminal == t then [keys[|keys| - 1].moveType] else [])
  }

  /** The move types under terminal t in first-insertion order: `mts.items()`. */
  function MoveTypesUnder(keys: seq<LeafKey>, t: string): seq<string> {
    DistinctInOrder(MoveTypesWith(keys, t))
  }

  /** `[{"name": dg, "value": round(val, 2)} for dg, val in dgs.items()]` for the leaves under (t, mt). */
  function DesigLeaves(keys: seq<LeafKey>, values: seq<real>, t: string, mt: string): (r: seq<Node>)
    requires |keys| == |values|
    ensures forall i | 0 <= i < |r| :: r[i].children == []
  {
    if keys == [] then []
    else
      var n := |keys| - 1;
      DesigLeaves(keys[..n], values[..n], t, mt)
        + (if keys[n].terminal == t && keys[n].moveType == mt then [Node(keys[n].desig, PyRound2(values[n]), [])] else [])
  }

  /** A move-type node: its desig children sorted by value, its value the rounded sum of theirs. */
  function MoveNode(keys: seq<LeafKey>, values: seq<real>, t: string, mt: string): Node
    requires |keys| == |values|
  {
    var children := SortDesc(DesigLeaves(keys, values, t, mt), NodeValue);
    Node(mt, PyRound2(SumBy(children, NodeValue)), children)
  }

  /** The move-type nodes of terminal t before sorting, in insertion order. */
  function MoveNodes(keys: seq<LeafKey>, values: seq<real>, t: string): (r: seq<Node>)
    requires |keys| == |values|
    ensures |r| == |MoveTypesUnder(keys, t)|
  {
    var mts := MoveTypesUnder(keys, t);
    seq(|mts|, i requires 0 <= i < |mts| => MoveNode(keys, values, t, mts[i]))
  }

  /** A terminal node: the rounded running total of its move-type values, and those nodes sorted by value. */
  function TerminalNode(keys: seq<LeafKey>, values: seq<real>, t: string): Node
    requires |keys| == |values|
  {
    var mtNodes := MoveNodes(keys, values, t);
    Node(t, PyRound2(SumBy(mtNodes, NodeValue)), SortDesc(mtNodes, NodeValue))
  }

  /** The terminal nodes before sorting, in insertion order. */
  function TerminalNodes(keys: seq<LeafKey>, values: seq<real>): (r: seq<Node>)
    requires |keys| == |values|
    ensures |r| == |TerminalsOf(keys)|
  {
    var ts := TerminalsOf(keys);
    seq(|ts|, i requires 0 <= i < |ts| => TerminalNode(keys, values, ts[i]))
  }

  /** What `to_nodes` returns: the terminal nodes sorted by value. */
  function Sunburst(keys: seq<LeafKey>, values: seq<real>): seq<Node>
    requires |keys| == |values|
  {
    SortDesc(TerminalNodes(keys, values), NodeValue)
  }

  /**
   * The inner loop of `to_nodes` for terminal t: for each move type, builds
   * and sorts its desig nodes, sums them into the move type's value and adds
   * that to the terminal's running total.
   */
  method MoveTypeNodes(keys: seq<LeafKey>, values: seq<real>, t: string) returns (mtNodes: seq<Node>, tTotal: real)
    requires |keys| == |values|
    ensures mtNodes == MoveNodes(keys, values, t)
    ensures tTotal == SumBy(mtNodes, NodeValue)
  {
    var mts := MoveTypesUnder(keys, t);
    mtNodes, tTotal := [], 0.0;
    for b := 0 to |mts|
      invariant mtNodes == MoveNodes(keys, values, t)[..b]
      invariant tTotal == SumBy(mtNodes, NodeValue)
    {
      var dgNodes := DesigLeaves(keys, values, t, mts[b]);
      dgNodes := SortDesc(dgNodes, NodeValue);
      var mtSum := PyRound2(SumBy(dgNodes, NodeValue));
      tTotal := tTotal + mtSum;
      var node := Node(mts[b], mtSum, dgNodes);
      assert node == MoveNodes(keys, values, t)[b];
      PrefixSnoc(MoveNodes(keys, values, t), b);
      SumBySnoc(mtNodes, node, NodeValue);
      mtNodes := mtNodes + [node];
    }
  }

  /**
   * `to_nodes`: builds each terminal's node, its value the rounded running
   * total and its move-type nodes sorted by value, then sorts the terminal
   * nodes. Python's sorts are stable, as SortDesc is.
   */
  method ToNodes(keys: seq<LeafKey>, values: seq<real>) returns (nodes: seq<Node>)
    requires |keys| == |values|
    ensures nodes == Sunburst(keys, values)
  {
    var ts := TerminalsOf(keys);
    nodes := [];
    for a := 0 to |ts|
      invariant nodes == TerminalNodes(keys, values)[..a]
    {
      var mtNodes, tTotal := MoveTypeNodes(keys, values, ts[a]);
      var node := Node(ts[a], PyRound2(tTotal), SortDesc(mtNodes, NodeValue));
      assert node == TerminalNodes(keys, values)[a];
      PrefixSnoc(TerminalNodes(keys, values), a);
      nodes := nodes + [node];
    }
    assert nodes == TerminalNodes(keys, values);
    nodes := SortDesc(nodes, NodeValue);
  }

  /** A move-type node: desig leaves sorted by value, its value the rounded sum of theirs. */
  predicate MoveNodeShaped(n: Node) {
    && NonIncreasingBy(n.children, NodeValue)
    && n.value == PyRound2(SumBy(n.children, NodeValue))
    && forall k | 0 <= k < |n.children| :: n.children[k].children == []
  }

  /** A terminal node: shaped move-type children sorted by value, its value the rounded sum of theirs. */
  predicate TerminalNodeShaped(n: Node) {
    && NonIncreasingBy(n.children, NodeValue)
    && n.value == PyRound2(SumBy(n.children, NodeValue))
    && forall j | 0 <= j < |n.children| :: MoveNodeShaped(n.children[j])
  }

  lemma MoveNodeShape(keys: seq<LeafKey>, values: seq<real>, t: string, mt: string)
    requires |keys| == |values|
    ensures MoveNodeShaped(MoveNode(keys, values, t, mt))
  {
    var leaves := DesigLeaves(keys, values, t, mt);
    var n := MoveNode(keys, values, t, mt);
    forall k | 0 <= k < |n.children| ensures n.children[k].children == [] {
      assert n.children[k] in multiset(leaves);
    }
  }

  /**
   * A terminal node's value is the rounded sum of its children's values
   * although it was summed before they were sorted.
   */
  lemma TerminalNodeShape(keys: seq<LeafKey>, values: seq<real>, t: string)
    requires |keys| == |values|
    ensures TerminalNodeShaped(TerminalNode(keys, values, t))
  {
    var mtNodes := MoveNodes(keys, values, t);
    var n := TerminalNode(keys, values, t);
    SumByPermutation(mtNodes, n.children, NodeValue);
    forall j | 0 <= j < |n.children| ensures MoveNodeShaped(n.children[j]) {
      assert n.children[j] in multiset(mtNodes);
      var q :| 0 <= q < |mtNodes| && mtNodes[q] == n.children[j];
      MoveNodeShape(keys, values, t, MoveTypesUnder(keys, t)[q]);
    }
  }

  /**
   * Every level of the tree is sorted by non-increasing value, there is one
   * root per terminal, and every inner node's value is the rounded sum of
   * its children's values.
   */
  lemma SunburstShape(keys: seq<LeafKey>, values: seq<real>)
    requires |keys| == |values|
    ensures NonIncreasingBy(Sunburst(keys, values), NodeValue)
    ensures |Sunburst(keys, values)| == |TerminalsOf(keys)|
    ensures forall i | 0 <= i < |Sunburst(keys, values)| :: TerminalNodeShaped(Sunburst(keys, values)[i])
  {
    var roots := Sunburst(keys, values);
    var unsorted := TerminalNodes(keys, values);
    forall i | 0 <= i < |roots| ensures TerminalNodeShaped(roots[i]) {
      assert roots[i] in multiset(unsorted);
      var p :| 0 <= p < |unsorted| && unsorted[p] == roots[i];
      TerminalNodeShape(keys, values, TerminalsOf(keys)[p]);
    }
  }

  // ------------------------------------------------------------ composition

  /** `composition_by_terminal`'s dimension: lower-cased, anything but "desig" or "movetype" falling back to "desig". */
  function CompositionDim(dim: string): (r: string)
    ensures r == "desig" || r == "movetype"
    ensures r == "movetype" <==> Lower(dim) == "movetype"
  {
    var d := Lower(dim);
    if d != "desig" && d != "movetype" then "desig" else d
  }

  /** A grouped composition row as the database returns it: terminal, key and sum, each possibly NULL. */
  datatype CompositionRaw = CompositionRaw(terminal: Option<string>, key: Option<string>, sum: Option<real>)

  /** A composition row of the response. */
  datatype CompositionRow = CompositionRow(terminal: string, key: string, pred: real)

  /** The response rows: `str(t)`, `str(k).upper()` and `float(s or 0.0)`, in the query's order. */
  function CompositionRows(raw: seq<CompositionRaw>): (r: seq<CompositionRow>)
    ensures |r| == |raw|
    ensures forall i | 0 <= i < |r| :: r[i].key == ColumnText(raw[i].key)
    ensures forall i | 0 <= i < |r| ::
      r[i].terminal == (if raw[i].terminal.None? then "None" else raw[i].terminal.value)
    ensures forall i | 0 <= i < |r| :: r[i].pred == (if raw[i].sum.None? then 0.0 else raw[i].sum.value)
  {
    seq(|raw|, i requires 0 <= i < |raw| =>
      var w := raw[i];
      CompositionRow(if w.terminal.None? then "None" else w.terminal.value, ColumnText(w.key),
        if w.sum.None? then 0.0 else w.sum.value))
  }

  /**
   * Every key of the response is already upper case, and keys that differ
   * only in letter case (such as "exp" and "EXP") come out the same.
   */
  lemma CompositionKeysUpper(raw: seq<CompositionRaw>)
    ensures forall i | 0 <= i < |raw| :: Upper(CompositionRows(raw)[i].key) == CompositionRows(raw)[i].key
    ensures forall i, j | 0 <= i < |raw| && 0 <= j < |raw| && raw[i].key.Some? && raw[j].key.Some? &&
      Upper(raw[i].key.value) == Upper(raw[j].key.value) :: CompositionRows(raw)[i].key == CompositionRows(raw)[j].key
  {
    var r := CompositionRows(raw);
    forall i | 0 <= i < |raw| ensures Upper(r[i].key) == r[i].key {
      UpperShape(if raw[i].key.None? then "None" else raw[i].key.value);
    }
  }
}
