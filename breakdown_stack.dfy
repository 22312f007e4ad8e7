/**
 * The breakdown bar chart: preds summed into `${move_type}-${desig}`
 * buckets, the bucket names sorted, and each bucket's sum rounded.
 */
module BreakdownStack {
  import opened Wrappers
  import opened Numeric
  import opened Series
  import opened Collections
  import opened Grouping

  /** The fields of a forecast point the chart reads; a missing pred is None. */
  datatype Point = Point(moveType: string, desig: string, pred: Option<real>)

  /** `${move_type}-${desig}`. */
  function BucketName(p: Point): string {
    p.moveType + "-" + p.desig
  }

  /** The pairs the loop adds up: each point's `pred || 0` under its bucket. */
  function BucketPairs(rows: seq<Point>): (r: seq<(string, real)>)
    ensures |r| == |rows|
    ensures forall i | 0 <= i < |rows| :: r[i] == (BucketName(rows[i]), OrZero(rows[i].pred))
  {
    seq(|rows|, i requires 0 <= i < |rows| => (BucketName(rows[i]), OrZero(rows[i].pred)))
  }

  /**
   * The loop fills the `groups` Map; its keys are then sorted and each
   * bucket's sum is rounded.
   */
  method Breakdown(rows: seq<Point>) returns (keys: seq<string>, values: seq<int>)
    ensures keys == SortedDistinctText(Firsts(BucketPairs(rows)))
    ensures |values| == |keys|
    ensures forall i | 0 <= i < |keys| :: values[i] == JsRound(GroupSum(BucketPairs(rows), keys[i]))
  {
    var gKeys, gValues := GroupSums(BucketPairs(rows));
    keys := SortedDistinctText(gKeys);
    values := seq(|keys|, i requires 0 <= i < |keys| => JsRound(ValueOr0(gKeys, gValues, keys[i])));
    DistinctInOrderMembers(Firsts(BucketPairs(rows)));
    assert keys == SortedDistinctText(Firsts(BucketPairs(rows))) by {
      SortedDistinctSameMembers(gKeys, Firsts(BucketPairs(rows)));
    }
    forall i | 0 <= i < |keys| ensures values[i] == JsRound(GroupSum(BucketPairs(rows), keys[i])) {
      ValueOr0IsGroupSum(BucketPairs(rows), gKeys, gValues, keys[i]);
    }
  }

  /**
   * Before rounding nothing is lost or counted twice: the buckets, in the
   * sorted order the chart lists them, add up to the total pred of all
   * points, missing preds counting as 0.
   */
  lemma BucketsConserve(rows: seq<Point>)
    ensures GroupTotal(BucketPairs(rows), SortedDistinctText(Firsts(BucketPairs(rows)))) == PairsTotal(BucketPairs(rows))
  {
    var pairs := BucketPairs(rows);
    var inOrder, sorted := DistinctInOrder(Firsts(pairs)), SortedDistinctText(Firsts(pairs));
    DistinctInOrderMembers(Firsts(pairs));
    StrictlyIncreasingTextDistinct(sorted);
    SameMembersPermutation(inOrder, sorted);
    GroupTotalReorder(pairs, inOrder, sorted);
    GroupTotalConserves(pairs);
  }
}
