/**
 * The executive summary banner: one sentence and three colours chosen by
 * the overload tier of the next eight hours. The browser's locale clock is
 * a parameter.
 */
module ExecutiveSummary {
  import opened Wrappers
  import opened Text
  import opened Numeric
  import opened Series
  import opened Horizon

  const ClearText: string := "All systems operating within capacity." + " No immediate alerts detected in the next 8 hours."

  /** The noun after the count: plural for more than one alert. */
  function AlertWord(overloads: nat): (r: string)
    ensures r == " alerts" <==> overloads > 1
    ensures r == " alert" <==> overloads <= 1
  {
    " alert" + (if overloads > 1 then "s" else "")
  }

  /** The sentence for one or two overloaded hours, naming the peak's time and its rounded pred. */
  function FewText(overloads: nat, peakTime: string, peakShown: int): string {
    "Forecast indicates " + NatToString(overloads) + AlertWord(overloads)
      + " in next 8h. Peak expected at " + peakTime + " with " + IntToString(peakShown) + " containers."
  }

  function ManyText(overloads: nat): string {
    "High risk: " + NatToString(overloads)
      + " hours exceeding capacity. Immediate resource reallocation recommended for optimal terminal performance."
  }

  /**
   * The summary sentence. The peak is reduced from the first hour and is
   * only read in the one-or-two tier, where there is at least one hour.
   */
  function Summary(hs: seq<HorizonHour>, capacity: real, clock: string -> string): string {
    var n := OverloadHours(hs, capacity);
    if n == 0 then ClearText
    else if n < 3 then
      var peak := PeakFold(hs, hs[0]);
      FewText(n, clock(peak.ts), JsRound(OrZero(peak.pred)))
    else ManyText(n)
  }

  function Background(overloads: nat): string {
    if overloads >= 3 then "bg-red-500/20 border-red-400/30"
    else if overloads > 0 then "bg-red-400/20 border-red-300/30"
    else "bg-green-500/20 border-green-400/30"
  }

  function TextColour(overloads: nat): string {
    if overloads >= 3 then "text-red-300" else if overloads > 0 then "text-red-200" else "text-green-200"
  }

  function Dot(overloads: nat): string {
    if overloads >= 3 then "bg-red-500" else if overloads > 0 then "bg-red-400" else "bg-green-500"
  }

  /**
   * When any hour is overloaded the forecast is not empty, and its first
   * hour of largest pred is above the capacity, by at least as much once
   * both are rounded.
   */
  lemma PeakIsOverloaded(hs: seq<HorizonHour>, capacity: real)
    requires OverloadHours(hs, capacity) > 0
    ensures hs != []
    ensures var peak := hs[FirstMaxIndex(Preds(hs))];
      OrZero(peak.pred) > capacity && JsRound(OrZero(peak.pred)) >= JsRound(capacity)
  {
    OverloadCountZero(Preds(hs), capacity);
    var i :| 0 <= i < |hs| && Preds(hs)[i] > capacity;
    var peak := hs[FirstMaxIndex(Preds(hs))];
    assert OrZero(peak.pred) >= Preds(hs)[i];
    JsRoundMonotone(capacity, OrZero(peak.pred));
  }

  /**
   * So when one or two hours are overloaded, the sentence names the first
   * hour of largest pred, an overloaded one, with its rounded pred.
   */
  lemma FewNamesOverloadedPeak(hs: seq<HorizonHour>, capacity: real, clock: string -> string)
    requires TierOf(OverloadHours(hs, capacity)) == Few
    ensures hs != []
    ensures var peak := hs[FirstMaxIndex(Preds(hs))];
      && OrZero(peak.pred) > capacity
      && Summary(hs, capacity, clock) == FewText(OverloadHours(hs, capacity), clock(peak.ts), JsRound(OrZero(peak.pred)))
  {
    PeakIsOverloaded(hs, capacity);
    PeakIsFirstMax(hs);
  }

  /** Without overloaded hours the banner is the all-clear sentence; from three on, the high-risk one with the count. */
  lemma {:induction false} SummaryByTier(hs: seq<HorizonHour>, capacity: real, clock: string -> string)
    ensures var n := OverloadHours(hs, capacity);
      && (TierOf(n) == Clear <==> Summary(hs, capacity, clock) == ClearText)
      && (TierOf(n) == Many ==> Summary(hs, capacity, clock) == ManyText(n))
  {
    var n := OverloadHours(hs, capacity);
    if 0 < n < 3 {
      var peak := PeakFold(hs, hs[0]);
      var few := FewText(n, clock(peak.ts), JsRound(OrZero(peak.pred)));
      assert Summary(hs, capacity, clock) == few;
      assert few[0] == 'F' && ClearText[0] == 'A';
    } else if n >= 3 {
      assert Summary(hs, capacity, clock) == ManyText(n);
      assert ManyText(n)[0] == 'H' && ClearText[0] == 'A';
    }
  }

  /** A count standing for each tier. */
  function TierCount(t: Tier): (n: nat)
    ensures TierOf(n) == t
  {
    match t
    case Clear => 0
    case Few => 1
    case Many => 3
  }

  /** The three tiers' colours are pairwise different, for each of the three colours. */
  lemma {:induction false} TierColoursDiffer(t1: Tier, t2: Tier)
    requires t1 != t2
    ensures Background(TierCount(t1)) != Background(TierCount(t2))
    ensures TextColour(TierCount(t1)) != TextColour(TierCount(t2))
    ensures Dot(TierCount(t1)) != Dot(TierCount(t2))
  {
    BackgroundsDiffer(t1, t2);
    TextColoursDiffer(t1, t2);
    DotsDiffer(t1, t2);
  }

  lemma BackgroundsDiffer(t1: Tier, t2: Tier)
    requires t1 != t2
    ensures Background(TierCount(t1)) != Background(TierCount(t2))
  {
    var b1, b2 := Background(TierCount(t1)), Background(TierCount(t2));
    assert b1[7] != b2[7];
  }

  lemma TextColoursDiffer(t1: Tier, t2: Tier)
    requires t1 != t2
    ensures TextColour(TierCount(t1)) != TextColour(TierCount(t2))
  {
    var c1, c2 := TextColour(TierCount(t1)), TextColour(TierCount(t2));
    assert c1[9] != c2[9];
  }

  lemma DotsDiffer(t1: Tier, t2: Tier)
    requires t1 != t2
    ensures Dot(TierCount(t1)) != Dot(TierCount(t2))
  {
    var d1, d2 := Dot(TierCount(t1)), Dot(TierCount(t2));
    assert d1[7] != d2[7];
  }

  /** Each of the three colours tells the tiers apart: two counts get the same colour exactly when they share a tier. */
  lemma ColoursByTier(n1: nat, n2: nat)
    ensures TierOf(n1) == TierOf(n2) <==> Background(n1) == Background(n2)
    ensures TierOf(n1) == TierOf(n2) <==> TextColour(n1) == TextColour(n2)
    ensures TierOf(n1) == TierOf(n2) <==> Dot(n1) == Dot(n2)
  {
    var t1, t2 := TierOf(n1), TierOf(n2);
    assert Background(n1) == Background(TierCount(t1)) && Background(n2) == Background(TierCount(t2));
    assert TextColour(n1) == TextColour(TierCount(t1)) && TextColour(n2) == TextColour(TierCount(t2));
    assert Dot(n1) == Dot(TierCount(t1)) && Dot(n2) == Dot(TierCount(t2));
    if t1 != t2 {
      TierColoursDiffer(t1, t2);
    }
  }
}
