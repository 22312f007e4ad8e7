/**
 * The terminal × hour heatmaps: the sorted distinct terminals and hours as
 * axes, each cell placed at its (hour, terminal) indices with its rounded
 * pred, and the colour scale's maximum. The plain heatmap draws the data
 * as it is; the pretty one shows a fixed skeleton when there is none.
 */
module Heatmap {
  import opened Numeric
  import opened Collections

  datatype Cell = Cell(terminal: string, hour: int, pred: real)

  /** The chart's arrays: the two axes, one [hour index, terminal index, rounded pred] per cell, and the scale's maximum. */
  datatype Grid = Grid(terminals: seq<string>, hours: seq<int>, data: seq<(int, int, int)>, vmax: real)

  function TerminalNames(cells: seq<Cell>): seq<string> {
    seq(|cells|, i requires 0 <= i < |cells| => cells[i].terminal)
  }

  function CellHours(cells: seq<Cell>): seq<int> {
    seq(|cells|, i requires 0 <= i < |cells| => cells[i].hour)
  }

  /** `Math.max(1, ...cells.map(c => c.pred))`. */
  function ScaleMax(cells: seq<Cell>): (r: real)
    ensures r >= 1.0 && forall i | 0 <= i < |cells| :: cells[i].pred <= r
    ensures r == 1.0 || exists i | 0 <= i < |cells| :: cells[i].pred == r
  {
    if cells == [] then 1.0
    else
      var m := ScaleMax(cells[..|cells| - 1]);
      assert forall i | 0 <= i < |cells| - 1 :: cells[..|cells| - 1][i] == cells[i];
      if cells[|cells| - 1].pred > m then cells[|cells| - 1].pred else m
  }

  /** The plain heatmap's arrays. */
  function GridOf(cells: seq<Cell>): Grid {
    var terminals := SortedDistinctText(TerminalNames(cells));
    var hours := SortedDistinctInts(CellHours(cells));
    var data := seq(|cells|, i requires 0 <= i < |cells| =>
      (IndexOf(hours, cells[i].hour), IndexOf(terminals, cells[i].terminal), JsRound(cells[i].pred)));
    Grid(terminals, hours, data, ScaleMax(cells))
  }

  /** The pretty heatmap's arrays: a fixed skeleton with no cells when there is no data. */
  function PrettyGrid(cells: seq<Cell>): Grid {
    if cells == [] then Grid(["T1", "T2", "T3", "T4"], [0, 6, 12, 18], [], 1.0) else GridOf(cells)
  }

  /** `hasData`: some cell with a positive pred. */
  predicate HasData(cells: seq<Cell>) {
    cells != [] && exists i | 0 <= i < |cells| :: cells[i].pred > 0.0
  }

  /** The pretty heatmap's subtext: no cells, all values zero, or none. */
  function PrettySubtext(cells: seq<Cell>): string {
    if cells == [] then "No heatmap data available"
    else if HasData(cells) then ""
    else "All values are zero"
  }

  /**
   * The subtext is empty exactly when some cell has a positive pred, and
   * reads "All values are zero" exactly when there are cells and none is
   * positive; then the colour scale stays at its floor of 1.
   */
  lemma SubtextMeaning(cells: seq<Cell>)
    ensures PrettySubtext(cells) == "" <==> exists i | 0 <= i < |cells| :: cells[i].pred > 0.0
    ensures PrettySubtext(cells) == "All values are zero" <==>
      cells != [] && forall i | 0 <= i < |cells| :: cells[i].pred <= 0.0
    ensures PrettySubtext(cells) == "All values are zero" ==> PrettyGrid(cells).vmax == 1.0
  {
    assert "No heatmap data available"[0] != "All values are zero"[0];
  }

  /**
   * The axes are the distinct terminals in string order and the distinct
   * hours ascending, and every cell is placed at indices within the axes
   * that hold its own hour and terminal, with its pred rounded.
   */
  lemma GridPlacesCells(cells: seq<Cell>)
    ensures var g := GridOf(cells);
      && StrictlyIncreasingText(g.terminals)
      && StrictlyIncreasing(g.hours)
      && (forall t :: t in g.terminals <==> t in TerminalNames(cells))
      && (forall h :: h in g.hours <==> h in CellHours(cells))
      && |g.data| == |cells|
      && (forall i | 0 <= i < |cells| ::
        && 0 <= g.data[i].0 < |g.hours| && g.hours[g.data[i].0] == cells[i].hour
        && 0 <= g.data[i].1 < |g.terminals| && g.terminals[g.data[i].1] == cells[i].terminal
        && g.data[i].2 == JsRound(cells[i].pred))
      && g.vmax >= 1.0 && forall i | 0 <= i < |cells| :: cells[i].pred <= g.vmax
  {
    var g := GridOf(cells);
    forall i | 0 <= i < |cells|
      ensures cells[i].hour in g.hours && cells[i].terminal in g.terminals
    {
      assert CellHours(cells)[i] == cells[i].hour;
      assert TerminalNames(cells)[i] == cells[i].terminal;
    }
  }

  /**
   * Either way the pretty heatmap only places cells within its axes and its
   * scale covers every pred; without cells it is the skeleton (terminals
   * T1–T4, hours 0, 6, 12 and 18, no cells, a scale of 1).
   */
  lemma PrettyGridInRange(cells: seq<Cell>)
    ensures var g := PrettyGrid(cells);
      && (cells == [] ==> g == Grid(["T1", "T2", "T3", "T4"], [0, 6, 12, 18], [], 1.0))
      && g.vmax >= 1.0 && (forall i | 0 <= i < |cells| :: cells[i].pred <= g.vmax)
      && forall i | 0 <= i < |g.data| :: 0 <= g.data[i].0 < |g.hours| && 0 <= g.data[i].1 < |g.terminals|
  {
    if cells != [] {
      GridPlacesCells(cells);
    }
  }
}
