/**
 * The dashboard page's query window and refresh rule: the mode read from
 * the address (with "range" accepted as an old name of "custom"), the
 * start and end strings sent to the analytics endpoints, and whether the
 * queries poll. The browser's local clock is the parameter `now`.
 */
module Page {
  import opened Wrappers
  import opened Text
  import opened Calendar
  import Analytics
  import Forecast

  /** The window sent to the analytics endpoints. */
  datatype Window = Window(startStr: string, endStr: string)

  /** `sp.get("mode") || "next8h"`, then "range" read as "custom"; an absent parameter is "". */
  function EffectiveMode(raw: string): (r: string)
    ensures raw == "" ==> r == "next8h"
    ensures raw == "range" ==> r == "custom"
    ensures raw != "" && raw != "range" ==> r == raw
  {
    var m := if raw == "" then "next8h" else raw;
    if m == "range" then "custom" else m
  }

  /**
   * The refresh interval in milliseconds of the forecast query and the five
   * analytics queries: a minute in the live modes, never otherwise.
   */
  function RefetchInterval(mode: string): Option<nat> {
    if mode == "next8h" || mode == "today" then Some(60000) else None
  }

  /** `toLocal`: "YYYY-MM-DDTHH:00" in local time, the minutes dropped. */
  function ToLocal(dt: DateTime): (s: string)
    requires Valid(dt)
  {
    NatToString(dt.year) + "-" + Pad2(dt.month) + "-" + Pad2(dt.day) + "T" + Pad2(dt.hour) + ":00"
  }

  /** `computeWindow`: a complete custom window verbatim, the local day in today mode, otherwise now to now + 8 h. */
  function ComputeWindow(mode: string, start: string, end: string, now: DateTime): Window
    requires Valid(now)
  {
    if mode == "custom" && start != "" && end != "" then Window(start, end)
    else if mode == "today" then Window(ToLocal(now.(hour := 0)), ToLocal(now.(hour := 23)))
    else Window(ToLocal(now), ToLocal(AddHours(now, 8)))
  }

  /** Reading the mode is idempotent, and never yields "range" or the empty string. */
  lemma EffectiveModeIdempotent(raw: string)
    ensures EffectiveMode(raw) != "range" && EffectiveMode(raw) != ""
    ensures EffectiveMode(EffectiveMode(raw)) == EffectiveMode(raw)
  {
    assert "next8h"[0] != "range"[0] && "custom"[0] != "range"[0];
  }

  /**
   * The forecast query and the five analytics queries poll exactly when the
   * address names next8h, today, or no mode at all; in custom and range
   * mode they never poll.
   */
  lemma PollingRule(raw: string)
    ensures RefetchInterval(EffectiveMode(raw)).Some? <==> raw == "" || raw == "next8h" || raw == "today"
    ensures RefetchInterval(EffectiveMode(raw)).Some? ==> RefetchInterval(EffectiveMode(raw)).value == 60000
  {
    assert "custom"[0] != "next8h"[0] && "custom"[0] != "today"[0];
  }

  /** For a four-digit year, the backend's parser reads a local stamp back as the hour it was made from. */
  lemma {:induction false} LocalRoundTrip(dt: DateTime)
    requires Valid(dt) && 1000 <= dt.year <= 9999
    ensures |ToLocal(dt)| == 16
    ensures ParseLocalHour(ToLocal(dt)) == Some(Truncate(dt))
  {
    var y, mo, d, h := NatToString(dt.year), Pad2(dt.month), Pad2(dt.day), Pad2(dt.hour);
    FourDigitNatToString(dt.year);
    NatToStringValue(dt.year);
    var s := ToLocal(dt);
    assert s == y + "-" + mo + "-" + d + "T" + h + ":00";
    assert s[0..4] == y && s[5..7] == mo && s[8..10] == d && s[11..13] == h && s[14..16] == "00";
    assert s[4] == '-' && s[7] == '-' && s[13] == ':';
    assert DigitsValue("00") == 0 by {
      assert "00"[..1] == "0";
      assert "0"[..0] == "";
    }
    assert ParseIso(s) == Some(Truncate(dt));
  }

  /** A complete custom window is sent as given; any other custom request falls back to the next-8-hours window. */
  lemma WindowByMode(mode: string, start: string, end: string, now: DateTime)
    requires Valid(now)
    ensures mode == "custom" && start != "" && end != "" ==> ComputeWindow(mode, start, end, now) == Window(start, end)
    ensures mode == "custom" && (start == "" || end == "") ==> ComputeWindow(mode, start, end, now) == ComputeWindow("next8h", start, end, now)
  {
    assert "custom"[0] != "today"[0];
  }

  /** Two local stamps, the second k hours (at most 14 days) after the first, pass both backends' window checks. */
  lemma StampPairAccepted(s0: DateTime, e0: DateTime, k: nat)
    requires Valid(s0) && Valid(e0) && 1000 <= s0.year <= 9999 && 1000 <= e0.year <= 9999
    requires HourIndex(e0) == HourIndex(s0) + k && k < 15 * 24
    ensures Forecast.RangeWindow(ToLocal(s0), ToLocal(e0)) == Ok((Truncate(s0), Truncate(e0)))
    ensures Analytics.KeyBounds(ToLocal(s0), ToLocal(e0)).Ok?
  {
    LocalRoundTrip(s0);
    LocalRoundTrip(e0);
    var s, e := Truncate(s0), Truncate(e0);
    OrderByIndex(s, e);
    OrderByIndex(e, s);
  }

  /** Eight hours on never goes back a year. */
  lemma EightHoursOn(now: DateTime)
    requires Valid(now)
    ensures HourIndex(AddHours(now, 8)) == HourIndex(now) + 8
    ensures AddHours(now, 8).year >= now.year
  {
    AddHoursIndex(now, 8);
    var later := AddHours(now, 8);
    if later.year < now.year {
      BeforeIndex(later, now);
    }
  }

  /**
   * Every window the page builds itself is accepted by both backends: the
   * range endpoint and the analytics key bounds parse it, in order. The
   * today window is hours 00 to 23 of the local date; the next-8-hours
   * window starts at the current hour and ends eight hours later.
   */
  lemma GeneratedWindowAccepted(mode: string, start: string, end: string, now: DateTime)
    requires Valid(now) && 1000 <= now.year && AddHours(now, 8).year <= 9999
    requires !(mode == "custom" && start != "" && end != "")
    ensures var w := ComputeWindow(mode, start, end, now);
      && Analytics.KeyBounds(w.startStr, w.endStr).Ok?
      && (mode == "today" ==> Forecast.RangeWindow(w.startStr, w.endStr) == Ok((Truncate(now.(hour := 0)), Truncate(now.(hour := 23)))))
      && (mode != "today" ==> Forecast.RangeWindow(w.startStr, w.endStr) == Ok((Truncate(now), Truncate(AddHours(now, 8)))))
  {
    EightHoursOn(now);
    if mode == "today" {
      StampPairAccepted(now.(hour := 0), now.(hour := 23), 23);
    } else {
      StampPairAccepted(now, AddHours(now, 8), 8);
    }
  }
}
