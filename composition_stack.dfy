/**
 * The 100% stacked composition chart: terminals ordered by their total
 * pred, one series per key (the dimension's fixed keys first), and for
 * each terminal the key's share of that terminal's total, rounded.
 */
module CompositionStack {
  import opened Text
  import opened Numeric
  import opened Collections
  import opened Grouping

  /** One row of the composition endpoint: a terminal, a desig or move-type key, and its summed pred. */
  datatype CompRow = CompRow(terminal: string, key: string, pred: real)

  predicate NonNegativePreds(rows: seq<CompRow>) {
    forall i | 0 <= i < |rows| :: rows[i].pred >= 0.0
  }

  /** The pairs the `totalsByT` loop adds up: each row's pred under its terminal. */
  function TerminalPairs(rows: seq<CompRow>): (r: seq<(string, real)>)
    ensures |r| == |rows|
  {
    seq(|rows|, i requires 0 <= i < |rows| => (rows[i].terminal, rows[i].pred))
  }

  /** The pairs the `byTK` loop adds up: each row's pred under its (terminal, key). */
  function CellPairs(rows: seq<CompRow>): (r: seq<((string, string), real)>)
    ensures |r| == |rows|
  {
    seq(|rows|, i requires 0 <= i < |rows| => ((rows[i].terminal, rows[i].key), rows[i].pred))
  }

  function RowKeys(rows: seq<CompRow>): seq<string> {
    seq(|rows|, i requires 0 <= i < |rows| => rows[i].key)
  }

  /** The series every chart of the dimension shows, in a fixed order. */
  function WantedKeys(dim: string): (r: seq<string>)
    ensures NoDuplicates(r)
  {
    if dim == "desig" then ["EMPTY", "FULL", "EXP", "UNK"] else ["IN", "OUT"]
  }

  /** `Math.round(part / (total || 1) * 100)`. */
  function StackPercent(part: real, total: real): int {
    JsRound(part / (if total == 0.0 then 1.0 else total) * 100.0)
  }

  /** The bar label: the rounded percentage and "%", shown only above 7. */
  function BarLabel(v: int): (s: string)
    ensures s != "" <==> v > 7
    ensures v > 7 ==> s == NatToString(v) + "%"
  {
    if v > 7 then NatToString(JsRound(v as real)) + "%" else ""
  }

  /** A terminal's total, read from the finished `totalsByT` table. */
  function TotalOf(tKeys: seq<string>, tValues: seq<real>): string -> real
    requires |tValues| == |tKeys|
  {
    t => ValueOr0(tKeys, tValues, t)
  }

  /**
   * The chart's arrays: the terminal axis, the series keys, and for each
   * key the percentage of each terminal.
   */
  method Compose(dim: string, rows: seq<CompRow>) returns (terminals: seq<string>, keys: seq<string>, data: seq<seq<int>>)
    ensures multiset(terminals) == multiset(DistinctInOrder(Firsts(TerminalPairs(rows))))
    ensures forall i, j | 0 <= i < j < |terminals| ::
      GroupSum(TerminalPairs(rows), terminals[i]) >= GroupSum(TerminalPairs(rows), terminals[j])
    ensures keys == DistinctInOrder(WantedKeys(dim) + RowKeys(rows))
    ensures |data| == |keys|
    ensures forall i | 0 <= i < |keys| :: |data[i]| == |terminals|
    ensures forall i, j | 0 <= i < |keys| && 0 <= j < |terminals| ::
      data[i][j] == StackPercent(GroupSum(CellPairs(rows), (terminals[j], keys[i])), GroupSum(TerminalPairs(rows), terminals[j]))
  {
    var tKeys, tValues := GroupSums(TerminalPairs(rows));
    var cKeys, cValues := GroupSums(CellPairs(rows));
    var total := TotalOf(tKeys, tValues);
    terminals := SortDesc(tKeys, total);
    keys := DistinctInOrder(WantedKeys(dim) + RowKeys(rows));
    data := seq(|keys|, i requires 0 <= i < |keys| =>
      seq(|terminals|, j requires 0 <= j < |terminals| =>
        StackPercent(ValueOr0(cKeys, cValues, (terminals[j], keys[i])), total(terminals[j]))));
    forall t ensures total(t) == GroupSum(TerminalPairs(rows), t) {
      ValueOr0IsGroupSum(TerminalPairs(rows), tKeys, tValues, t);
    }
    forall c ensures ValueOr0(cKeys, cValues, c) == GroupSum(CellPairs(rows), c) {
      ValueOr0IsGroupSum(CellPairs(rows), cKeys, cValues, c);
    }
  }

  /** The fixed keys come first, in their order, and the keys are every fixed or row key once. */
  lemma KeysOrder(dim: string, rows: seq<CompRow>)
    ensures var keys := DistinctInOrder(WantedKeys(dim) + RowKeys(rows));
      && NoDuplicates(keys)
      && |keys| >= |WantedKeys(dim)|
      && keys[..|WantedKeys(dim)|] == WantedKeys(dim)
      && forall k :: k in keys <==> k in WantedKeys(dim) || k in RowKeys(rows)
  {
    DistinctInOrderKeepsPrefix(WantedKeys(dim), RowKeys(rows));
    DistinctInOrderMembers(WantedKeys(dim) + RowKeys(rows));
  }

  /** With non-negative preds, a (terminal, key) cell never holds more than its terminal's total. */
  lemma {:induction false} CellWithinTerminal(rows: seq<CompRow>, t: string, k: string)
    requires NonNegativePreds(rows)
    ensures 0.0 <= GroupSum(CellPairs(rows), (t, k)) <= GroupSum(TerminalPairs(rows), t)
  {
    if rows != [] {
      var init := rows[..|rows| - 1];
      assert CellPairs(init) == CellPairs(rows)[..|rows| - 1];
      assert TerminalPairs(init) == TerminalPairs(rows)[..|rows| - 1];
      CellWithinTerminal(init, t, k);
    }
  }

  /**
   * With non-negative preds every percentage lies in [0, 100], and a
   * terminal whose total is 0 gets 0 for every key: the `|| 1` guard
   * never divides by zero.
   */
  lemma PercentRange(rows: seq<CompRow>, t: string, k: string)
    requires NonNegativePreds(rows)
    ensures var p := StackPercent(GroupSum(CellPairs(rows), (t, k)), GroupSum(TerminalPairs(rows), t));
      && 0 <= p <= 100
      && (GroupSum(TerminalPairs(rows), t) == 0.0 ==> p == 0)
  {
    var part, total := GroupSum(CellPairs(rows), (t, k)), GroupSum(TerminalPairs(rows), t);
    CellWithinTerminal(rows, t, k);
    if total != 0.0 {
      assert StackPercent(part, total) == GuardedPercent(part, total);
      GuardedPercentBounds(part, total);
    }
  }
}
