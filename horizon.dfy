/**
 * The hourly forecast the summary panels read (`horizon_hours` of the
 * next-8-hours and range responses), the overload tiers they colour by, and
 * the peak-hour `reduce` they share.
 */
module Horizon {
  import opened Wrappers
  import opened Series

  /** One forecast hour as the browser receives it; a missing or null pred is None. */
  datatype HorizonHour = HorizonHour(ts: string, pred: Option<real>)

  /** `h.pred || 0` for every hour. */
  function Preds(hs: seq<HorizonHour>): (r: seq<real>)
    ensures |r| == |hs|
    ensures forall i | 0 <= i < |hs| :: r[i] == OrZero(hs[i].pred)
  {
    OrZeros(seq(|hs|, i requires 0 <= i < |hs| => hs[i].pred))
  }

  /** `filter(h => (h.pred || 0) > capacity).length`. */
  function OverloadHours(hs: seq<HorizonHour>, capacity: real): (n: nat)
    ensures n <= |hs|
  {
    OverloadCount(Preds(hs), capacity)
  }

  /** The three overload tiers every panel uses: none, one or two, three or more. */
  datatype Tier = Clear | Few | Many

  function TierOf(overloads: nat): (t: Tier)
    ensures t == Many <==> overloads >= 3
    ensures t == Few <==> 1 <= overloads < 3
    ensures t == Clear <==> overloads == 0
  {
    if overloads >= 3 then Many else if overloads > 0 then Few else Clear
  }

  /** A higher capacity never raises the tier. */
  lemma TierAntitone(hs: seq<HorizonHour>, c1: real, c2: real)
    requires c1 <= c2
    ensures TierOf(OverloadHours(hs, c2)) == Many ==> TierOf(OverloadHours(hs, c1)) == Many
    ensures TierOf(OverloadHours(hs, c1)) == Clear ==> TierOf(OverloadHours(hs, c2)) == Clear
  {
    OverloadCountAntitone(Preds(hs), c1, c2);
  }

  /** The hour with the larger pred, keeping the current one on a tie. */
  function PeakStep(m: HorizonHour, p: HorizonHour): HorizonHour {
    if OrZero(p.pred) > OrZero(m.pred) then p else m
  }

  /** `hs.reduce((m, p) => (p.pred || 0) > (m.pred || 0) ? p : m, init)`. */
  function PeakFold(hs: seq<HorizonHour>, init: HorizonHour): HorizonHour {
    if hs == [] then init else PeakStep(PeakFold(hs[..|hs| - 1], init), hs[|hs| - 1])
  }

  /** Seeded with the first hour, the reduce after n steps holds the first hour of largest pred among them. */
  lemma {:induction false} PeakFoldIndex(hs: seq<HorizonHour>, n: nat)
    requires 0 < n <= |hs|
    ensures PeakFold(hs[..n], hs[0]) == hs[PeakIndex(Preds(hs), n)]
  {
    if n == 1 {
      assert hs[..1][..0] == [];
    } else {
      assert hs[..n][..n - 1] == hs[..n - 1];
      PeakFoldIndex(hs, n - 1);
    }
  }

  /** So the peak of a non-empty forecast is its first hour of largest pred. */
  lemma PeakIsFirstMax(hs: seq<HorizonHour>)
    requires hs != []
    ensures PeakFold(hs, hs[0]) == hs[FirstMaxIndex(Preds(hs))]
  {
    PeakFoldIndex(hs, |hs|);
    assert hs[..|hs|] == hs;
  }
}
