/**
 * The KPI strip over the next eight hours: total tokens, the peak hour's
 * tokens, the number of overloaded hours and the tile colour they give.
 */
module KpiStrip {
  import opened Series
  import opened Horizon

  datatype Kpis = Kpis(total: real, peak: real, overloadHours: nat, tone: string)

  /** The overload tile's class: red from three hours, amber for one or two, slate for none. */
  function Tone(overloadHours: nat): string {
    if overloadHours >= 3 then "bg-red-600" else if overloadHours > 0 then "bg-amber-600" else "bg-slate-800"
  }

  function KpisOf(hs: seq<HorizonHour>, capacity: real): Kpis {
    var n := OverloadHours(hs, capacity);
    Kpis(Sum(Preds(hs)), Max0(Preds(hs)), n, Tone(n))
  }

  /**
   * The total is the sum of the preds with missing ones as 0; the peak is at
   * least 0 and at least every pred, and is 0 or one of them; the overload
   * count is the number of hours strictly above capacity, at most the number
   * of hours.
   */
  lemma KpisMeaning(hs: seq<HorizonHour>, capacity: real)
    ensures var k := KpisOf(hs, capacity);
      && k.total == Sum(Preds(hs))
      && k.peak >= 0.0
      && (forall i | 0 <= i < |hs| :: OrZero(hs[i].pred) <= k.peak)
      && (k.peak == 0.0 || exists i | 0 <= i < |hs| :: OrZero(hs[i].pred) == k.peak)
      && k.overloadHours <= |hs|
      && (k.overloadHours == 0 <==> forall i | 0 <= i < |hs| :: OrZero(hs[i].pred) <= capacity)
  {
    var p := Preds(hs);
    OverloadCountZero(p, capacity);
    var k := KpisOf(hs, capacity);
    if k.peak != 0.0 {
      var i :| 0 <= i < |p| && p[i] == k.peak;
    }
  }

  /** The tile is red, amber or slate exactly as the overload tier is many, few or none. */
  lemma ToneFollowsTier(hs: seq<HorizonHour>, capacity: real)
    ensures var k := KpisOf(hs, capacity);
      && (k.tone == "bg-red-600" <==> TierOf(k.overloadHours) == Many)
      && (k.tone == "bg-amber-600" <==> TierOf(k.overloadHours) == Few)
      && (k.tone == "bg-slate-800" <==> TierOf(k.overloadHours) == Clear)
  {
    assert "bg-red-600"[3] != "bg-amber-600"[3] && "bg-red-600"[3] != "bg-slate-800"[3] && "bg-amber-600"[3] != "bg-slate-800"[3];
  }

  /** With non-negative preds the peak never exceeds the total. */
  lemma PeakAtMostTotal(hs: seq<HorizonHour>, capacity: real)
    requires forall i | 0 <= i < |hs| :: OrZero(hs[i].pred) >= 0.0
    ensures 0.0 <= KpisOf(hs, capacity).peak <= KpisOf(hs, capacity).total
  {
    MaxAtMostSum(Preds(hs));
  }
}
