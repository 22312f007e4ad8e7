/**
 * The terminal leaderboard: a copy of the ranking sorted by total pred,
 * largest first, with the terminal names and the rounded totals as aligned
 * axes and one dot per terminal.
 */
module LollipopRanking {
  import opened Numeric
  import opened Collections

  datatype Entry = Entry(terminal: string, totalPred: real)

  /** The chart's arrays: terminal names, rounded totals, and the [total, name] dots. */
  datatype Board = Board(names: seq<string>, totals: seq<int>, dots: seq<(int, string)>)

  function Total(e: Entry): real {
    e.totalPred
  }

  /** `[...data].sort((a, b) => b.total_pred - a.total_pred)`: a stable sort of a copy; the input stays as it was. */
  function Ranked(data: seq<Entry>): seq<Entry> {
    SortDesc(data, Total)
  }

  function BoardOf(data: seq<Entry>): Board {
    var sorted := Ranked(data);
    var names := seq(|sorted|, i requires 0 <= i < |sorted| => sorted[i].terminal);
    var totals := seq(|sorted|, i requires 0 <= i < |sorted| => JsRound(sorted[i].totalPred));
    Board(names, totals, seq(|sorted|, i requires 0 <= i < |sorted| => (totals[i], names[i])))
  }

  /**
   * The board lists every entry once, largest total first (entries with
   * equal totals in input order); names and rounded totals are aligned
   * with the sorted entries and the dots pair them up.
   */
  lemma BoardMeaning(data: seq<Entry>)
    ensures var b := BoardOf(data); var sorted := Ranked(data);
      && multiset(sorted) == multiset(data)
      && (forall v :: WithKey(sorted, Total, v) == WithKey(data, Total, v))
      && |b.names| == |data| && |b.totals| == |data| && |b.dots| == |data|
      && (forall i | 0 <= i < |data| ::
        b.names[i] == sorted[i].terminal && b.totals[i] == JsRound(sorted[i].totalPred) && b.dots[i] == (b.totals[i], b.names[i]))
      && forall i, j | 0 <= i < j < |data| :: b.totals[i] >= b.totals[j]
  {
    var b, sorted := BoardOf(data), Ranked(data);
    forall v ensures WithKey(sorted, Total, v) == WithKey(data, Total, v) {
      SortDescStable(data, Total, v);
    }
    forall i, j | 0 <= i < j < |data| ensures b.totals[i] >= b.totals[j] {
      JsRoundMonotone(sorted[j].totalPred, sorted[i].totalPred);
    }
  }
}
