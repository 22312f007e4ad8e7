/**
 * The insights card: the window's rounded total, the peak hour, the
 * overloaded hours and the risk they add up to, the dominant move type and
 * the busiest terminal. The browser's locale clock is a parameter.
 */
module InsightsBox {
  import opened Wrappers
  import opened Text
  import opened Numeric
  import opened Series
  import opened Horizon

  /** The card's tiles, each as its text, with the tone of the two coloured ones. */
  datatype Insights = Insights(
    total: int,
    peak: string,
    overloadCount: nat,
    overloadTone: string,
    dominant: string,
    busiest: string,
    risk: string,
    riskTone: string)

  /** `s.startsWith(p)`. */
  predicate StartsWith(s: string, p: string) {
    |p| <= |s| && s[..|p|] == p
  }

  /** `s.includes(p)`: p starts at some position of s. */
  predicate Includes(s: string, p: string) {
    StartsWith(s, p) || (s != [] && Includes(s[1..], p))
  }

  /** A text holding a non-empty p holds p's first character. */
  lemma {:induction false} IncludesFirstChar(s: string, p: string)
    requires p != []
    ensures Includes(s, p) ==> p[0] in s
  {
    if s != [] && !StartsWith(s, p) {
      IncludesFirstChar(s[1..], p);
    }
  }

  /** The peak as reduced from the first hour, or a zero hour with no time when there are no hours. */
  function Peak(hs: seq<HorizonHour>): HorizonHour {
    if hs == [] then HorizonHour("", Some(0.0)) else PeakFold(hs, hs[0])
  }

  /** The peak tile: "<hour> • <rounded pred>", or just the rounded pred when the peak has no time. */
  function PeakText(p: HorizonHour, hourLabel: string -> string): string {
    var shown := IntToString(JsRound(OrZero(p.pred)));
    if p.ts != "" then hourLabel(p.ts) + " • " + shown else shown
  }

  /** The times of the hours whose pred is above the capacity, in order. */
  function OverloadTimes(hs: seq<HorizonHour>, cap: real): seq<string> {
    if hs == [] then []
    else
      var last := hs[|hs| - 1];
      OverloadTimes(hs[..|hs| - 1], cap) + (if OrZero(last.pred) > cap then [last.ts] else [])
  }

  function RiskText(overloads: nat): string {
    if overloads >= 3 then "High overload risk" else if overloads > 0 then "Overload in some hours" else "Within capacity"
  }

  /** The risk tile's tone, read back from its text. */
  function RiskTone(risk: string): string {
    if StartsWith(risk, "High") then "red" else if Includes(risk, "Overload") then "amber" else "green"
  }

  function OverloadTone(overloads: nat): string {
    if overloads >= 3 then "red" else if overloads > 0 then "amber" else "slate"
  }

  /** The larger of the IN and OUT shares, IN on a tie, or a dash without shares. */
  function Dominant(share: Option<(real, real)>): (r: string)
    ensures share.None? ==> r == "—"
    ensures share.Some? ==> (r == "IN" <==> share.value.0 >= share.value.1) && (r == "OUT" <==> share.value.0 < share.value.1)
  {
    match share
    case None => "—"
    case Some((inbound, outbound)) => if inbound >= outbound then "IN" else "OUT"
  }

  /** The first ranked terminal, or a dash when there is no ranking, it is empty, or the name is empty. */
  function Busiest(ranking: Option<seq<string>>): (r: string)
    ensures r != ""
    ensures r == "—" || (ranking.Some? && |ranking.value| > 0 && r == ranking.value[0])
    ensures ranking.Some? && |ranking.value| > 0 && ranking.value[0] != "" ==> r == ranking.value[0]
  {
    if ranking.Some? && |ranking.value| > 0 && ranking.value[0] != "" then ranking.value[0] else "—"
  }

  function InsightsOf(
    hs: seq<HorizonHour>, capacity: Option<real>, share: Option<(real, real)>,
    ranking: Option<seq<string>>, hourLabel: string -> string): Insights
  {
    var cap := OrZero(capacity);
    var overload := OverloadTimes(hs, cap);
    var risk := RiskText(|overload|);
    Insights(
      JsRound(Sum(Preds(hs))),
      PeakText(Peak(hs), hourLabel),
      |overload|,
      OverloadTone(|overload|),
      Dominant(share),
      Busiest(ranking),
      risk,
      RiskTone(risk))
  }

  /** The overloaded hours listed are those counted by the other panels, each one above capacity. */
  lemma {:induction false} OverloadTimesCount(hs: seq<HorizonHour>, cap: real)
    ensures |OverloadTimes(hs, cap)| == OverloadHours(hs, cap)
    ensures forall t | t in OverloadTimes(hs, cap) :: exists i | 0 <= i < |hs| :: hs[i].ts == t && OrZero(hs[i].pred) > cap
  {
    if hs != [] {
      var init := hs[..|hs| - 1];
      OverloadTimesCount(init, cap);
      assert Preds(init) == Preds(hs)[..|hs| - 1];
      forall t | t in OverloadTimes(hs, cap) ensures exists i | 0 <= i < |hs| :: hs[i].ts == t && OrZero(hs[i].pred) > cap {
        if t in OverloadTimes(init, cap) {
          var i :| 0 <= i < |init| && init[i].ts == t && OrZero(init[i].pred) > cap;
          assert hs[i] == init[i];
        } else {
          assert hs[|hs| - 1].ts == t && OrZero(hs[|hs| - 1].pred) > cap;
        }
      }
    }
  }

  /**
   * A non-empty forecast's peak is its first hour of largest pred; with no
   * hours the peak tile reads "0".
   */
  lemma PeakMeaning(hs: seq<HorizonHour>, hourLabel: string -> string)
    ensures hs != [] ==> Peak(hs) == hs[FirstMaxIndex(Preds(hs))]
    ensures hs != [] ==> forall i | 0 <= i < |hs| :: OrZero(hs[i].pred) <= OrZero(Peak(hs).pred)
    ensures hs == [] ==> PeakText(Peak(hs), hourLabel) == "0"
  {
    if hs != [] {
      PeakIsFirstMax(hs);
    } else {
      assert JsRound(0.0) == 0;
      assert NatToString(0) == "0";
    }
  }

  /** Read back from the three risk texts, the tone is red, amber and green. */
  lemma HighRiskIsRed()
    ensures RiskTone("High overload risk") == "red"
  {
    assert "High overload risk"[..4] == "High";
  }

  lemma SomeOverloadIsAmber()
    ensures RiskTone("Overload in some hours") == "amber"
  {
    var few := "Overload in some hours";
    assert few[0] != "High"[0];
    assert few[..8] == "Overload";
  }

  lemma WithinCapacityIsGreen()
    ensures RiskTone("Within capacity") == "green"
  {
    var clear := "Within capacity";
    assert clear[0] != "High"[0];
    IncludesFirstChar(clear, "Overload");
    assert forall i | 0 <= i < |clear| :: clear[i] != 'O';
  }

  /** The risk text and both tones follow the overload tier; the risk tone read back from the text agrees. */
  lemma RiskFollowsTier(n: nat)
    ensures TierOf(n) == Many ==> RiskText(n) == "High overload risk" && RiskTone(RiskText(n)) == "red" && OverloadTone(n) == "red"
    ensures TierOf(n) == Few ==> RiskText(n) == "Overload in some hours" && RiskTone(RiskText(n)) == "amber" && OverloadTone(n) == "amber"
    ensures TierOf(n) == Clear ==> RiskText(n) == "Within capacity" && RiskTone(RiskText(n)) == "green" && OverloadTone(n) == "slate"
  {
    HighRiskIsRed();
    SomeOverloadIsAmber();
    WithinCapacityIsGreen();
  }

  /**
   * The card as a whole: the total is the rounded sum of the preds, the
   * overload count is the number of hours above the capacity (0 when it is
   * missing), and the tones follow the tier of that count.
   */
  lemma InsightsMeaning(
    hs: seq<HorizonHour>, capacity: Option<real>, share: Option<(real, real)>,
    ranking: Option<seq<string>>, hourLabel: string -> string)
    ensures var r := InsightsOf(hs, capacity, share, ranking, hourLabel);
      && r.total == JsRound(Sum(Preds(hs)))
      && r.overloadCount == OverloadHours(hs, OrZero(capacity))
      && (r.overloadTone == "red" <==> TierOf(r.overloadCount) == Many)
      && (r.riskTone == "red" <==> TierOf(r.overloadCount) == Many)
      && (r.riskTone == "amber" <==> TierOf(r.overloadCount) == Few)
      && (r.riskTone == "green" <==> TierOf(r.overloadCount) == Clear)
  {
    var n := OverloadHours(hs, OrZero(capacity));
    OverloadTimesCount(hs, OrZero(capacity));
    RiskFollowsTier(n);
  }
}
