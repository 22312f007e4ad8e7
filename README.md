# Gate-token forecast dashboard — a Dafny model of its deterministic core

The dashboard forecasts container gate tokens per terminal and hour. A
FastAPI backend reads the forecast table and shapes the rows. A Next.js
front end turns those rows into KPIs, banners and chart arrays. This
project models the deterministic logic between the database and the
charts, and proves what that logic promises.

- **Backend normalisers and hour grids.**
  - `norm_move_type` and `norm_desig`.
  - The 14-day window guard of `range_hours`.
  - The hour-by-hour gap fill of `range_hours`, and the first-match fill and sort of `next8h`.
  - `next_n_hours`, with the clock passed in.
  - The in-memory per-terminal capacity table, a class whose `Put` updates its map in place.
  - The live analytics router:
    - the parallel `wheres`/`params` builder;
    - the YYYYMMDDHH key bounds;
    - the WHERE composition and its placeholder count;
    - the `movetype_share` result map.
  - The fixed analytics router:
    - `parse_local_dt` and `_time_bounds`;
    - the CTE filter builder;
    - the sunburst accumulation and `to_nodes` tree with its descending sorts;
    - the composition `dim` fallback.
- **The front-end guardrail library** (`dataUtils.ts`):
  - the hourly zero fill;
  - the IN/OUT flow balance;
  - capacity metrics;
  - the three-tier risk level;
  - peak and total volume;
  - `validateApiData`;
  - `formatNumber` and `formatPercentage`;
  - the window description.
- **Per-chart derivations**, each modelled as the arrays its chart is drawn from:
  - KPI strip, insights box and executive summary;
  - gate load status;
  - the 100 % composition stack and the breakdown stack;
  - the hour wheel and the two heatmaps;
  - the move-type trend and the desig stacked area;
  - the fan chart and the lollipop ranking;
  - the report summary text and chart file names;
  - the page's time window, mode alias and polling rule.

Time is a civil date-time in the dashboard's single zone (Asia/Dubai, a
fixed offset without daylight saving). The calendar is Gregorian, and
hour steps roll over the day, month and year. Python's ordering, the
`YYYYMMDDHH` key and `fromisoformat` are modelled on those records
(`calendar.dfy`). Quantities are exact `real`s. `Math.round`, the
hundredths rounding of the front end and Python's `round(x, 2)` are
written out in `numeric.dfy`. A missing or non-number `pred` is an
`Option`, or for the validator a three-way `Raw` value. Python
dicts and JS maps that keep insertion order are a sequence of keys plus
their values (`grouping.dfy`).

Where the code and its documentation differ, the model follows the code:
- The sunburst accumulation upper-cases move type and desig, but not the terminal name (`backend/routers/analytics_fixed.py:331`).
- `norm_move_type(" ")` returns `""` and not `None`, so the idempotence of both normalisers is stated for truthy results.
- In `next8h` the tuple `key` built at `backend/routers/forecast.py:105` is never read. The fill matches by hour alone.
- An unparsable date in `_key_bounds` or `_time_bounds` escapes as an uncaught `ValueError`, a 500. `range_hours` turns every parse or window error into a 422.
- A negative `pred` from the database fails the response schema `pred ≥ 0` (`backend/schemas.py:10`), a 500. The model returns that error.
- Move-type matching in the gate load status and the move-type trend is exact and case-sensitive: `"IN"` is not `"in"`.
- The two defects under "## Findings" are modelled both ways. The zero fill takes a `DateRule`: `UtcDate` is the key as written, `LocalDate` the corrected one. The gate-load empty rows take a `LabelRule`: `Unwrapped` as written, `Wrapped` corrected. The lemmas `DataUtils.KeysAgree`, `DataUtils.FillsAgree` and `GateLoadStatus.LabelsAgree` say exactly when the two give the same result.
- The analytics router without the `_fixed` suffix is the mounted one. Both routers' `movetype_share` fill the same IN/OUT map, so `Analytics.MoveTypeShare` stands for both (`backend/routers/analytics_fixed.py:121-126` as well).

## Model

| member | source | states |
|---|---|---|
| Timebox.NextNHours | backend/utils/timebox.py:9-11 | exactly n stamps (none for n ≤ 0); the first is `now` truncated to the hour |
| Timebox.NextNHoursStamps | backend/utils/timebox.py:11 | stamp i is valid, on the hour, and exactly i hours after the hour of `now` |
| Timebox.NextNHoursStep | backend/utils/timebox.py:11 | consecutive stamps differ by exactly one hour |
| Timebox.NextNHoursIncreasing | backend/utils/timebox.py:11 | the stamps are strictly increasing |
| Capacity.LookupUnset | backend/routers/capacity.py:13 | a terminal never stored reads as the default of 60 (backend/config.py:18) |
| Capacity.LookupAfterStore | backend/routers/capacity.py:18 | after storing c for a terminal, reading it gives c |
| Capacity.LookupOthersUnchanged | backend/routers/capacity.py:18 | storing for one terminal leaves every other terminal's reading unchanged |
| Capacity.LastWriteWins | backend/routers/capacity.py:18 | two stores to one terminal leave the table as the second store alone |
| Capacity.CapacityStore.constructor | backend/routers/capacity.py:9 | the table starts empty |
| Capacity.CapacityStore.Get | backend/routers/capacity.py:11-14 | echoes the terminal, with its stored capacity or else 60 |
| Capacity.CapacityStore.Put | backend/routers/capacity.py:16-19 | the table gains exactly that entry; the reply echoes it, reading it back gives the reply, and every other terminal reads as before |
| Forecast.UpperShape | backend/routers/forecast.py:16 | upper-casing keeps whitespace at both ends and is idempotent |
| Forecast.Canonical | backend/routers/forecast.py:16 | strip-then-upper yields text with no whitespace at either end and no lower-case letter |
| Forecast.CanonicalFixed | backend/routers/forecast.py:16 | strip-then-upper is idempotent |
| Forecast.OrDefault | backend/routers/forecast.py:209 | `x or d` is x when x is truthy, else d |
| Forecast.NormMoveType | backend/routers/forecast.py:14-18 | None exactly for a falsy input or ALL/ANY; IN exactly for IN/INWARD; OUT exactly for OUT/OUTWARD; any other input is returned canonical |
| Forecast.NormMoveTypeIdempotent | backend/routers/forecast.py:14-18 | normalising a truthy result again changes nothing |
| Forecast.NormDesig | backend/routers/forecast.py:20-25 | None exactly for a falsy input or ALL/ANY; EXP exactly for EXP/EXPORT; any other input is returned canonical |
| Forecast.DesigAlias | backend/routers/forecast.py:24-25 | the alias table gives EXP exactly for EXP and EXPORT and changes nothing else |
| Forecast.NormDesigIdempotent | backend/routers/forecast.py:20-25 | normalising a truthy result again changes nothing |
| Forecast.ColumnText | backend/routers/forecast.py:197 | `str(v).upper()`: NULL becomes "NONE", any text is upper-cased |
| Forecast.PredFromDb | backend/routers/forecast.py:198 | NULL becomes 0.0; a value is kept; the point is rejected with a 500 exactly when the value is negative |
| Forecast.RowToPoint | backend/routers/forecast.py:191-199 | a row becomes a point exactly when its date and hour are valid and its pred is accepted; stamp, text columns, terminal and actual are as the row says |
| Forecast.RangeWindow | backend/routers/forecast.py:145-154 | accepted exactly when both stamps parse, start ≤ end and the whole-day gap is at most 14; otherwise 422 |
| Forecast.Filler | backend/routers/forecast.py:209-210 | a filler has the hour's stamp, pred 0, no actual, move type mt or "IN", desig dg or "EXP" |
| Forecast.RangeEntry | backend/routers/forecast.py:206-210 | the entry for an hour carries that hour's stamp |
| Forecast.RangeEntryChoice | backend/routers/forecast.py:206-210 | the entry is the first stored row with exactly that stamp, or the filler when none has it |
| Forecast.RangeFill | backend/routers/forecast.py:203-211 | the specification of the fill has one entry per hour |
| Forecast.RangeFillEntries | backend/routers/forecast.py:203-211 | entry i is the choice for the hour start + i |
| Forecast.CursorStep | backend/routers/forecast.py:211 | truncating the cursor and adding an hour moves it to the next hour |
| Forecast.CursorTest | backend/routers/forecast.py:205 | `cursor <= end` holds exactly while fewer than gap + 1 hours are filled |
| Forecast.RangeFillStep | backend/routers/forecast.py:207-210 | appending the next hour's entry extends the specification by one |
| Forecast.RangeFillLast | backend/routers/forecast.py:203-211 | the last entry of a full fill is stamped `end` |
| Forecast.RangeLoopStep | backend/routers/forecast.py:205-211 | one pass of the loop keeps the fill equal to its specification |
| Forecast.RangeLoopExit | backend/routers/forecast.py:205 | when the loop stops it has filled gap + 1 hours (none when end < start) |
| Forecast.RangeStep | backend/routers/forecast.py:205-211 | the loop body appends one entry and advances the cursor one hour |
| Forecast.RangeGapFill | backend/routers/forecast.py:203-211 | one entry per hour from start through end inclusive (none when end < start), each the first row with that stamp or a filler; the last is stamped `end` |
| Forecast.RangeFillStamps | backend/routers/forecast.py:203-211 | stamp i is start + i hours, on the hour, so the stamps strictly increase from `start` |
| Forecast.HorizonEntry | backend/routers/forecast.py:107-114 | the entry for a horizon hour lies in the same hour |
| Forecast.HorizonEntryChoice | backend/routers/forecast.py:107-114 | the entry is the first row in the same hour, or the filler when none is |
| Forecast.HorizonEntries | backend/routers/forecast.py:104-114 | one entry per horizon stamp, in order |
| Forecast.SortedByKey | backend/routers/forecast.py:117 | ordering by the microsecond key orders by timestamp |
| Forecast.SortByTs | backend/routers/forecast.py:117 | the sort returns a permutation of its input ordered by timestamp |
| Forecast.Next8hFill | backend/routers/forecast.py:103-117 | exactly one entry per horizon hour, a permutation of the per-hour choices, sorted by timestamp |
| Forecast.HorizonEntriesValid | backend/routers/forecast.py:107-114 | every chosen entry has a valid stamp |
| Analytics.BaseWhere | backend/routers/analytics.py:19-27 | `wheres` and `params` have equal length, in the order terminal, move type, desig; each clause is bound to its own value; a clause appears exactly when its filter is set |
| Analytics.AppendFilters | backend/routers/analytics.py:23-26 | the move-type and desig clauses are appended exactly for truthy normalised values, with those values as parameters |
| Analytics.NoTerminalFilterForAll | backend/routers/analytics.py:21 | a terminal of "ALL" in any case, or "", selects no terminal clause |
| Analytics.KeyBounds | backend/routers/analytics.py:29-33 | 500 exactly when a stamp does not parse; 422 exactly when end < start; otherwise start key ≤ end key |
| Analytics.KeyBoundsKeys | backend/routers/analytics.py:32 | the keys are the YYYYMMDDHH keys of the two parsed stamps, equal exactly when the stamps are |
| Analytics.Conjuncts | backend/routers/analytics.py:51 | the conjuncts are one clause per filter followed by the key-range clause |
| Analytics.WhereSqlIsConjunction | backend/routers/analytics.py:51 | the WHERE text is the conjuncts joined by " AND ", in both branches of the conditional |
| Analytics.ClauseHasOnePlaceholder | backend/routers/analytics.py:21-26 | each filter clause holds exactly one `?` |
| Analytics.KeyRangeHasTwoPlaceholders | backend/routers/analytics.py:51 | the key-range clause holds exactly two `?` |
| Analytics.TextsPlaceholders | backend/routers/analytics.py:51 | clauses with one `?` each contribute one `?` per filter |
| Analytics.WhereSqlPlaceholders | backend/routers/analytics.py:51-55 | the WHERE text holds exactly as many `?` as the query has parameters |
| Analytics.ShareOfAbsent | backend/routers/analytics.py:84-88 | a move type absent from the rows keeps its 0.0 |
| Analytics.ShareOfUnique | backend/routers/analytics.py:87-88 | a move type on exactly one row takes that row's sum, NULL counting as 0 |
| Analytics.MoveTypeShare | backend/routers/analytics.py:84-89 | the result has exactly the keys IN and OUT, each its row's sum or 0.0; other move types are ignored |
| AnalyticsFixed.ParseLocalDtIdempotent | backend/routers/analytics_fixed.py:13-17 | a parsed stamp is already on the hour, so truncating it again changes nothing |
| AnalyticsFixed.TimeBounds | backend/routers/analytics_fixed.py:19-22 | 500 exactly when a stamp does not parse; 422 exactly when end < start; otherwise the parsed pair with start ≤ end |
| AnalyticsFixed.FilterParams | backend/routers/analytics_fixed.py:99-110 | params are [start, end] followed by exactly one value per appended fragment, in the base builder's order and rule |
| AnalyticsFixed.FragmentHasOnePlaceholder | backend/routers/analytics_fixed.py:68 | each filter fragment holds exactly one `?` |
| AnalyticsFixed.WindowHasTwoPlaceholders | backend/routers/analytics_fixed.py:41 | the window clause holds exactly two `?` |
| AnalyticsFixed.CteFilterPlaceholders | backend/routers/analytics_fixed.py:41-42 | the CTE's WHERE holds exactly as many `?` as there are parameters |
| AnalyticsFixed.RowPairs | backend/routers/analytics_fixed.py:330-335 | one (terminal, move type, desig) leaf per row |
| AnalyticsFixed.AccumulateSunburst | backend/routers/analytics_fixed.py:326-335 | leaves in first-seen order, each holding the sum of its rows (NULL as 0); together they hold the total of all rows |
| AnalyticsFixed.DesigLeaves | backend/routers/analytics_fixed.py:344 | desig nodes are leaves |
| AnalyticsFixed.MoveNodes | backend/routers/analytics_fixed.py:341-348 | one node per move type under the terminal |
| AnalyticsFixed.TerminalNodes | backend/routers/analytics_fixed.py:340-350 | one node per terminal |
| AnalyticsFixed.MoveTypeNodes | backend/routers/analytics_fixed.py:341-348 | the inner loop builds the move-type nodes, and `t_total` is the sum of their values |
| AnalyticsFixed.ToNodes | backend/routers/analytics_fixed.py:338-352 | the loops build exactly the sunburst specification |
| AnalyticsFixed.MoveNodeShape | backend/routers/analytics_fixed.py:344-346 | desig children are sorted non-increasing, and the move-type value is the rounded sum of their values |
| AnalyticsFixed.TerminalNodeShape | backend/routers/analytics_fixed.py:343-350 | move-type children are sorted non-increasing and well formed, and the terminal value is the rounded sum of theirs |
| AnalyticsFixed.SunburstShape | backend/routers/analytics_fixed.py:351 | the roots are sorted non-increasing, one per terminal, each well formed |
| AnalyticsFixed.CompositionDim | backend/routers/analytics_fixed.py:394-396 | the dimension is "movetype" exactly when its lower case is, and "desig" otherwise |
| AnalyticsFixed.CompositionRows | backend/routers/analytics_fixed.py:464-467 | one response row per grouped row, in order: the terminal as `str`, the key upper-cased ("NONE" for NULL), a NULL sum as 0 |
| AnalyticsFixed.CompositionKeysUpper | backend/routers/analytics_fixed.py:467 | every response key is its own upper case, and keys differing only in letter case come out equal |
| DataUtils.IsoDate | frontend/src/lib/dataUtils.ts:57 | the date part of an ISO stamp |
| DataUtils.SumAtAbsent | frontend/src/lib/dataUtils.ts:63 | a key no point has reads as 0 |
| DataUtils.SumAtAppend | frontend/src/lib/dataUtils.ts:46-50 | the per-key sum is additive over concatenation |
| DataUtils.ZeroFill | frontend/src/lib/dataUtils.ts:55-66 | the specification of the fill has one slot per hour |
| DataUtils.ZeroFillEntries | frontend/src/lib/dataUtils.ts:55-66 | slot i is the hour start + i, filled from the sum under its key; under `UtcDate` that is the key as written (UTC date, local hour), under `LocalDate` the corrected one |
| DataUtils.ZeroFillHours | frontend/src/lib/dataUtils.ts:40-69 | exactly `hours` slots (none for hours ≤ 0), equal to the specification under the chosen date rule; `UtcDate` is the function as written |
| DataUtils.SlotFromTable | frontend/src/lib/dataUtils.ts:56-65 | one pass of the loop builds slot i under the chosen date rule (UTC date as written, or local date) |
| DataUtils.SlotFromSums | frontend/src/lib/dataUtils.ts:61-65 | a slot is stamped with its own hour |
| DataUtils.SlotFromSumsFilled | frontend/src/lib/dataUtils.ts:59-63 | looking up the sum table gives the per-key sum, 0 when absent |
| DataUtils.ZeroFillAppend | frontend/src/lib/dataUtils.ts:61 | pushing slot i extends the specification by one |
| DataUtils.SumsByKey | frontend/src/lib/dataUtils.ts:46-50 | the reduce builds a table holding, for every key, the sum of its points' preds, and nothing else |
| DataUtils.ZeroFillStep | frontend/src/lib/dataUtils.ts:56 | slot i is exactly i hours after start, so consecutive slots are one hour apart |
| DataUtils.SlotKeyMatches | frontend/src/lib/dataUtils.ts:57-59 | with the corrected key, a point fills a slot exactly when its date and hour are the slot's local ones |
| DataUtils.SlotKeyAsWrittenMatches | frontend/src/lib/dataUtils.ts:57-59 | with the key as written, a point fills a slot exactly when its date is the slot's UTC date and its hour the slot's local hour |
| DataUtils.KeysAgree | frontend/src/lib/dataUtils.ts:57-59 | the key as written equals the corrected key exactly when the slot's UTC date is its local date |
| DataUtils.FillsAgree | frontend/src/lib/dataUtils.ts:55-66 | the fill as written and the corrected fill are equal over slots whose UTC and local dates coincide |
| DataUtils.FillsAgreeAtUtc | frontend/src/lib/dataUtils.ts:55-66 | in a zone at UTC the fill as written is the corrected fill |
| DataUtils.SlotKeyAsWrittenMisfiles | frontend/src/lib/dataUtils.ts:57-59 | with the key as written, a point misses its own slot and lands in the slot a day later |
| DataUtils.FlowTotal | frontend/src/lib/dataUtils.ts:75-79 | a move type that no point has, after lower-casing, totals 0 |
| DataUtils.FlowTotals | frontend/src/lib/dataUtils.ts:75-79 | the reduce builds, for every lower-cased move type, the sum of its preds |
| DataUtils.CalculateFlowBalance | frontend/src/lib/dataUtils.ts:74-96 | inFlow and outFlow are the "in" and "out" totals; totalFlow is their sum; the percents are guarded rounded shares |
| DataUtils.FlowTotalNonNegative | frontend/src/lib/dataUtils.ts:75-79 | non-negative preds give non-negative totals |
| DataUtils.FlowBalancePercents | frontend/src/lib/dataUtils.ts:83-87 | both percents lie in [0, 100]; both are 0 when totalFlow is 0; otherwise they add up to 100 or 101 |
| DataUtils.FlowTotalCaseInsensitive | frontend/src/lib/dataUtils.ts:76 | upper-casing every move type changes no total |
| DataUtils.FlowTotalIgnoresOthers | frontend/src/lib/dataUtils.ts:81-82 | a point of another move type adds nothing to a total |
| DataUtils.CalculateRiskLevel | frontend/src/lib/dataUtils.ts:101-123 | High Risk/red exactly when max ≥ 1.2 or overloads ≥ 3; else Warning/orange exactly when max ≥ 1.0 or overloads ≥ 1; else Safe/green |
| DataUtils.RiskMonotone | frontend/src/lib/dataUtils.ts:101-123 | more overloads or a higher utilisation never lower the risk |
| DataUtils.CalculatePeakHour | frontend/src/lib/dataUtils.ts:128-135 | the peak is ≥ 0, ≥ every numeric pred, and is 0 or one of the preds |
| DataUtils.TotalVolumeAppend | frontend/src/lib/dataUtils.ts:140-147 | the total volume is additive over concatenation |
| DataUtils.PeakAtMostTotal | frontend/src/lib/dataUtils.ts:128-147 | with non-negative preds, 0 ≤ peak ≤ total volume |
| DataUtils.Utilizations | frontend/src/lib/dataUtils.ts:170 | utilisation i is pred i over capacity |
| DataUtils.CapacityStep | frontend/src/lib/dataUtils.ts:168-178 | each pass counts the hour exactly when its pred is strictly above capacity, adds its utilisation and raises the maximum |
| DataUtils.CalculateCapacityMetrics | frontend/src/lib/dataUtils.ts:152-187 | the loop computes exactly the metrics specification |
| DataUtils.CapacityMetricsBounds | frontend/src/lib/dataUtils.ts:160-185 | all zeros for no data or capacity ≤ 0; 0 ≤ overloads ≤ hours; with non-negative preds max ≥ avg ≥ 0 after rounding |
| DataUtils.MeanWithin | frontend/src/lib/dataUtils.ts:180 | the mean of non-negative utilisations lies between 0 and their maximum |
| DataUtils.CapacityMetricsExample | test_frontend_guardrails.js:143 | [120, 80, 150] against 100 gives 2 overload hours and a maximum of 1.5 |
| DataUtils.SafeMeansNoOverload | frontend/src/lib/dataUtils.ts:101-123 | a Safe verdict from the metrics means no hour is above capacity |
| DataUtils.Clamp | frontend/src/lib/dataUtils.ts:200 | a non-negative number is kept; anything else becomes 0 |
| DataUtils.ValidateApiData | frontend/src/lib/dataUtils.ts:192-202 | [] for a non-array; otherwise the same length, every other field kept, every pred ≥ 0, and valid preds unchanged |
| DataUtils.ValidateIdempotent | frontend/src/lib/dataUtils.ts:192-202 | validating validated data changes nothing |
| DataUtils.ToFixed | frontend/src/lib/dataUtils.ts:212 | with d decimals, there are d digits after a single point; with none, all digits for x ≥ 0 |
| DataUtils.ScaledMagnitude | frontend/src/lib/dataUtils.ts:212 | the number `toFixed` writes out is the integer within one half of \|x\|·10^d (ties go up) |
| DataUtils.ToFixedValue | frontend/src/lib/dataUtils.ts:212 | the rendering starts with "-" exactly when x < 0; without sign and point its digits are worth the rounded \|x\|·10^d |
| DataUtils.PlacePointValue | frontend/src/lib/dataUtils.ts:212 | placing the point (with zero padding) keeps the digits' value |
| DataUtils.FormatNumberExample | frontend/src/lib/dataUtils.ts:207-213 | `formatNumber(123.456, 1)` is "123.5" |
| DataUtils.FormatNumber | frontend/src/lib/dataUtils.ts:207-213 | "0" for a non-number or NaN, else the fixed-point rendering |
| DataUtils.FormatNumberDefault | frontend/src/lib/dataUtils.ts:207 | with the default of one decimal: "0" for a non-number or NaN, else exactly one digit after the point |
| DataUtils.FormatPercentage | frontend/src/lib/dataUtils.ts:218-225 | always a non-empty text ending in "%" |
| DataUtils.FormatPercentageValue | frontend/src/lib/dataUtils.ts:219-224 | the number before "%" is the rounded percentage, or 0 for a zero denominator |
| DataUtils.GetTimeWindowDescription | frontend/src/lib/dataUtils.ts:237-250 | always at least two characters |
| DataUtils.WindowDescriptionRoundTrip | frontend/src/lib/dataUtils.ts:237-250 | reading a description back gives the window's hours, so D·24 + R = N |
| DataUtils.ShortWindowRoundTrip | frontend/src/lib/dataUtils.ts:238-240 | up to a day the "Nh" text reads back as N |
| DataUtils.WholeDaysRoundTrip | frontend/src/lib/dataUtils.ts:245-246 | whole days ("Dd") read back as D·24 |
| DataUtils.DaysAndHoursRoundTrip | frontend/src/lib/dataUtils.ts:249 | "Dd Rh" reads back as D·24 + R |
| DataUtils.ShortDescription | frontend/src/lib/dataUtils.ts:238-240 | up to a day the description is the hour count followed by "h" |
| GateLoadStatus.HourText | frontend/src/components/GateLoadStatus.tsx:44 | an hour below 100 is written as two digits that read back as the hour |
| GateLoadStatus.FixedWholeValue | frontend/src/components/GateLoadStatus.tsx:47 | `parseFloat(toFixed(0))` of a non-negative total is its rounded value |
| GateLoadStatus.ShownTotal | frontend/src/components/GateLoadStatus.tsx:47 | the shown total is the rounded total |
| GateLoadStatus.FirstPred | frontend/src/components/GateLoadStatus.tsx:39-40 | the pred of the first point of that hour and exact move type (whichever point is first), or 0 when there is none |
| GateLoadStatus.EmptyLabel | frontend/src/components/GateLoadStatus.tsx:27 | the corrected label is "HH:00" with HH below 24 |
| GateLoadStatus.CurrentStatus | frontend/src/components/GateLoadStatus.tsx:53-58 | the last row, or an all-zero row when there are none |
| GateLoadStatus.EmptyInputShape | frontend/src/components/GateLoadStatus.tsx:20-31 | no valid points give exactly 8 all-zero rows, row i labelled with the current hour plus i; under `Unwrapped` (as written) past 23 unwrapped, under `Wrapped` mod 24 |
| GateLoadStatus.LabelsAgree | frontend/src/components/GateLoadStatus.tsx:27 | for a current hour 0-23, the label as written equals the wrapped one exactly when the hour plus i is below 24 |
| GateLoadStatus.HourRowsAscending | frontend/src/components/GateLoadStatus.tsx:35-37 | otherwise there is one row per distinct hour of the points, in ascending order |
| GateLoadStatus.HourRowPercents | frontend/src/components/GateLoadStatus.tsx:41-47 | both percents lie in [0, 100]; both are 0 when the hour's total is 0; otherwise they add up to 100 or 101; the total is rounded |
| GateLoadStatus.MoveTypeMatchIsExact | frontend/src/components/GateLoadStatus.tsx:39-40 | a point whose move type is not exactly mt (such as "IN" for "in") never changes the value read for mt |
| GateLoadStatus.EmptyLabelAsWrittenPastMidnight | frontend/src/components/GateLoadStatus.tsx:27 | the label as written shows "24:00" at 20:00 + 4 h, where the corrected one shows "00:00" |
| Horizon.Preds | frontend/src/components/KpiStrip.tsx:5 | each hour's pred, or 0 when it is missing |
| Horizon.OverloadHours | frontend/src/components/ExecutiveSummary.tsx:10 | at most the number of hours |
| Horizon.TierOf | frontend/src/components/KpiStrip.tsx:9 | Many exactly from 3 overloads, Few exactly for 1–2, Clear exactly for 0 |
| Horizon.TierAntitone | frontend/src/components/KpiStrip.tsx:8-9 | raising the capacity never raises the tier |
| Horizon.PeakFoldIndex | frontend/src/components/ExecutiveSummary.tsx:11-12 | the peak fold over a prefix is the prefix's first maximum |
| Horizon.PeakIsFirstMax | frontend/src/components/InsightsBox.tsx:15 | the peak fold picks the first hour of largest pred, since ties keep the earlier hour |
| KpiStrip.KpisMeaning | frontend/src/components/KpiStrip.tsx:5-8 | total is the sum of preds (missing as 0); peak is ≥ 0, ≥ every pred and 0 or one of them; overloads ≤ hours, and 0 exactly when no pred is above capacity |
| KpiStrip.ToneFollowsTier | frontend/src/components/KpiStrip.tsx:9 | red exactly for ≥ 3 overloads, amber exactly for 1–2, slate exactly for 0 |
| KpiStrip.PeakAtMostTotal | frontend/src/components/KpiStrip.tsx:5-6 | with non-negative preds, 0 ≤ peak ≤ total |
| InsightsBox.Dominant | frontend/src/components/InsightsBox.tsx:18 | "—" without share data; IN exactly when IN ≥ OUT, so a tie goes to IN |
| InsightsBox.Busiest | frontend/src/components/InsightsBox.tsx:29 | the first ranked terminal when it is truthy, else "—" |
| InsightsBox.OverloadTimesCount | frontend/src/components/InsightsBox.tsx:16 | the overload list has one stamp per hour strictly above capacity, each a stamp of such an hour |
| InsightsBox.PeakMeaning | frontend/src/components/InsightsBox.tsx:15 | the peak is the first hour of largest pred; with no hours the label shows "0" |
| InsightsBox.RiskFollowsTier | frontend/src/components/InsightsBox.tsx:19 | risk text, risk tone and overload tone follow the tier: red for ≥ 3, amber for 1–2, green or slate for 0 |
| InsightsBox.InsightsMeaning | frontend/src/components/InsightsBox.tsx:14-19 | the total is the rounded sum; the overload count uses a missing capacity as 0; the tones follow the tier in both directions |
| ExecutiveSummary.AlertWord | frontend/src/components/ExecutiveSummary.tsx:19 | plural exactly when there is more than one alert |
| ExecutiveSummary.PeakIsOverloaded | frontend/src/components/ExecutiveSummary.tsx:11-12 | when any hour is overloaded, the first hour of largest pred is above capacity, also once both are rounded |
| ExecutiveSummary.FewNamesOverloadedPeak | frontend/src/components/ExecutiveSummary.tsx:17-19 | for 1–2 overloads the sentence names the peak hour, an overloaded one, with its rounded pred |
| ExecutiveSummary.SummaryByTier | frontend/src/components/ExecutiveSummary.tsx:14-23 | the all-clear sentence exactly for 0 overloads; the high-risk sentence with the count from 3 |
| ExecutiveSummary.TierCount | frontend/src/components/ExecutiveSummary.tsx:25-35 | each tier has a count standing for it |
| ExecutiveSummary.TierColoursDiffer | frontend/src/components/ExecutiveSummary.tsx:25-35 | different tiers get different background, text and dot colours |
| ExecutiveSummary.ColoursByTier | frontend/src/components/ExecutiveSummary.tsx:25-45 | two counts share each colour exactly when they share a tier, the summary's tier |
| BreakdownStack.BucketPairs | frontend/src/components/BreakdownStack.tsx:9-10 | each row contributes its pred (missing as 0) under "move_type-desig" |
| BreakdownStack.Breakdown | frontend/src/components/BreakdownStack.tsx:6-13 | the keys are the distinct bucket keys in ascending order; value i is the rounded sum of its bucket |
| BreakdownStack.BucketsConserve | frontend/src/components/BreakdownStack.tsx:8-12 | before rounding, the buckets add up to the total pred of all rows |
| CompositionStack.TerminalPairs | frontend/src/components/Composition100Stack.tsx:11 | one (terminal, pred) pair per row |
| CompositionStack.CellPairs | frontend/src/components/Composition100Stack.tsx:19-23 | one ((terminal, key), pred) pair per row |
| CompositionStack.WantedKeys | frontend/src/components/Composition100Stack.tsx:15 | the fixed keys have no duplicates |
| CompositionStack.BarLabel | frontend/src/components/Composition100Stack.tsx:32 | a label is shown exactly above 7, as the value followed by "%" |
| CompositionStack.Compose | frontend/src/components/Composition100Stack.tsx:10-40 | the terminals are the distinct terminals ordered by non-increasing total; the keys are the fixed keys and then the row keys, once each; one series per key with one percentage per terminal, the cell sum over the terminal's total |
| CompositionStack.KeysOrder | frontend/src/components/Composition100Stack.tsx:15-16 | the fixed keys come first in order, and the keys are exactly the fixed and row keys, without duplicates |
| CompositionStack.CellWithinTerminal | frontend/src/components/Composition100Stack.tsx:19-23 | with non-negative preds a cell's sum lies between 0 and its terminal's total |
| CompositionStack.PercentRange | frontend/src/components/Composition100Stack.tsx:36-38 | with non-negative preds every percentage lies in [0, 100], and a terminal totalling 0 gets 0 for every key |
| HourWheel.ClockHours | frontend/src/components/HourWheel.tsx:19 | the hours 0 to 23 |
| HourWheel.LastPred | frontend/src/components/HourWheel.tsx:24 | the pred of the last entry for the hour, or 0 when there is none |
| HourWheel.MaxInt | frontend/src/components/HourWheel.tsx:33 | the largest value, and one of them |
| HourWheel.WheelBars | frontend/src/components/HourWheel.tsx:15-27 | the axis is always hours 0..23; bar h is the rounded last pred for h, or 0 |
| HourWheel.EmptyMeaning | frontend/src/components/HourWheel.tsx:15-40 | empty exactly when there is no input or every bar is 0; otherwise the tallest value is positive and the largest bar |
| HourWheel.TallestIsRed | frontend/src/components/HourWheel.tsx:148-149 | the tallest bar is red |
| HourWheel.ColourMonotone | frontend/src/components/HourWheel.tsx:143-154 | a taller bar never gets a colder colour |
| Heatmap.ScaleMax | frontend/src/components/TerminalHourHeatmap.tsx:16 | at least 1 and at least every pred, and 1 or one of the preds |
| Heatmap.GridPlacesCells | frontend/src/components/TerminalHourHeatmap.tsx:7-9 | the axes are the distinct terminals sorted and the distinct hours ascending; every cell sits at in-range indices holding its own hour and terminal, with its pred rounded |
| Heatmap.SubtextMeaning | frontend/src/components/PrettyHeatmap.tsx:8-9 | the subtext (line 33) is empty exactly when some pred is positive, and "All values are zero" exactly when there are cells and none is positive, with the scale then at 1 |
| Heatmap.PrettyGridInRange | frontend/src/components/PrettyHeatmap.tsx:16-27 | no cells give the skeleton (T1–T4, hours 0/6/12/18, no data, scale 1); otherwise every index is in range and the scale covers every pred |
| HourPivot.FirstValue | frontend/src/components/MoveTypeTrend.tsx:9-10 | the rounded pred of the first point of that hour and category, or 0 |
| HourPivot.SeriesOf | frontend/src/components/MoveTypeTrend.tsx:8-11 | one value per axis hour |
| HourPivot.HourAxis | frontend/src/components/MoveTypeTrend.tsx:7 | the axis is the distinct hours of the points, strictly ascending |
| HourPivot.TrendShape | frontend/src/components/MoveTypeTrend.tsx:7-22 | two series, IN and OUT, each with its first matching value per hour |
| HourPivot.AreaShape | frontend/src/components/DesigStackedArea.tsx:15-41 | no points give 3 zero series (EXP, FULL, EMPTY) over hours 0/6/12/18; otherwise one series per distinct desig in string order, each with its first matching value per hour |
| HourPivot.CaseSensitiveMoveType | frontend/src/components/MoveTypeTrend.tsx:21-22 | a point whose category is not exactly c (such as "in" for "IN") never changes the value read for c |
| FanChart.Line | frontend/src/components/FanChart.tsx:9 | y[i] is row i's pred, or 0 |
| FanChart.OverloadBars | frontend/src/components/FanChart.tsx:12-40 | the same length as y; bar i holds y[i] exactly when y[i] > 100, else nothing |
| FanChart.SeriesNames | frontend/src/components/FanChart.tsx:30-41 | Upper and Lower come first exactly when the band is drawn |
| FanChart.PeakMark | frontend/src/components/FanChart.tsx:15-38 | for a non-empty y, the mark is at the first maximum with its rounded value |
| FanChart.BandDrawnIffBoth | frontend/src/components/FanChart.tsx:13-35 | the band is drawn exactly when some upper and some lower value are present |
| LollipopRanking.BoardMeaning | frontend/src/components/LollipopRanking.tsx:7-21 | a stable descending permutation of a copy; names, rounded totals and dots aligned index for index, with the totals non-increasing |
| ExportReport.NonEmpty | frontend/src/components/ExportReportButton.tsx:96 | keeps exactly the non-empty lines, and no empty line |
| ExportReport.NonEmptyAppend | frontend/src/components/ExportReportButton.tsx:96 | filtering distributes over concatenation |
| ExportReport.NonEmptyKeeps | frontend/src/components/ExportReportButton.tsx:96 | lines that are all non-empty are kept as they are |
| ExportReport.KpiLines | frontend/src/components/ExportReportButton.tsx:91 | one "label: value" line per KPI, in input order |
| ExportReport.KpiLinesKept | frontend/src/components/ExportReportButton.tsx:91-96 | every KPI line survives the filter |
| ExportReport.TitleLayout | frontend/src/components/ExportReportButton.tsx:76-77 | a non-empty title is followed by "=" repeated exactly its length; an empty title leaves neither line |
| ExportReport.DetailLayout | frontend/src/components/ExportReportButton.tsx:78-84 | the subtitle when set, then the report-details block |
| ExportReport.OptionLayout | frontend/src/components/ExportReportButton.tsx:85-86 | the Mode and Capacity lines appear exactly when those filters are set |
| ExportReport.HeadingLayout | frontend/src/components/ExportReportButton.tsx:87-90 | the generated line and the KPI heading |
| ExportReport.ClosingLayout | frontend/src/components/ExportReportButton.tsx:92-95 | the two closing sentences without spacers |
| ExportReport.SummaryLayout | frontend/src/components/ExportReportButton.tsx:74-98 | the summary lines are the blocks in order with no empty line |
| ExportReport.Sanitize | frontend/src/components/ExportReportButton.tsx:133 | every non-alphanumeric character becomes "_", and the rest are kept |
| ExportReport.ChartFileName | frontend/src/components/ExportReportButton.tsx:133 | within the first 99 charts: a two-digit index, "_", the sanitised title and ".png"; always only letters, digits, "_" and "." |
| ExportReport.ChartFileNamesDistinct | frontend/src/components/ExportReportButton.tsx:117-133 | within the first 99 charts, charts at different positions get different names whatever their titles, and none is the summary file's name |
| Page.EffectiveMode | frontend/src/app/page.tsx:44-45 | empty becomes "next8h", "range" becomes "custom", and anything else is kept |
| Page.EffectiveModeIdempotent | frontend/src/app/page.tsx:45 | the alias is never "range" or empty, and applying it again changes nothing |
| Page.PollingRule | frontend/src/app/page.tsx:64 | the forecast query (and the five analytics queries at lines 100-120, which use the same test) polls every 60 000 ms exactly when the raw mode is empty, next8h or today |
| Page.LocalRoundTrip | frontend/src/app/page.tsx:28-29 | the local stamp is 16 characters, and the backend parses it back to the hour it names |
| Page.WindowByMode | frontend/src/app/page.tsx:18-36 | custom mode with both ends returns them verbatim; with an end missing it falls through to the next-8h window |
| Page.StampPairAccepted | frontend/src/app/page.tsx:34-36 | two local stamps (years 1000–9999) less than 15 days apart pass the range check, which returns their hours, and the analytics key bounds |
| Page.EightHoursOn | frontend/src/app/page.tsx:36 | now + 8 h is exactly eight hours later |
| Page.GeneratedWindowAccepted | frontend/src/app/page.tsx:18-37 | every window computed outside custom mode passes both backends' checks: today runs from hour 00 to hour 23 of the date, next8h from now to now + 8 h |
| Calendar.Truncate | backend/utils/timebox.py:10 | `replace(minute=0, second=0, microsecond=0)` lands on the hour, at or before the stamp, in the same hour |
| Calendar.NextHourIndex | backend/routers/forecast.py:211 | adding an hour moves the hour index by exactly one |
| Calendar.AddHoursOrder | backend/utils/timebox.py:11 | adding more hours gives a strictly later stamp |
| Calendar.HourKeyDecode | backend/routers/analytics.py:32 | the YYYYMMDDHH key reads back as year, month, day and hour |
| Calendar.HourKeyOrder | backend/routers/analytics.py:32 | keys follow stamp order, and for on-the-hour stamps they determine it |
| Calendar.ParseIso | backend/routers/analytics.py:14 | on the forms the dashboard sends (`YYYY-MM-DD`, optionally followed by a separator and `HH`, `HH:MM` or `HH:MM:SS`), a parsed stamp is valid, with no microseconds |
| Calendar.ParseLocalHour | backend/routers/analytics.py:13-17 | on those forms, the parse succeeds exactly when the stamp is a valid date-time, and the result is on the hour |
| Calendar.MicroIndexOrder | backend/routers/forecast.py:148 | Python's datetime comparison is the order of the microsecond index |
| Series.Max0 | frontend/src/components/KpiStrip.tsx:6 | the maximum seeded at 0: ≥ 0, ≥ every value, and 0 or one of them |
| Series.OverloadCountZero | frontend/src/components/KpiStrip.tsx:8 | no overloaded hour exactly when every value is at most capacity |
| Series.OverloadCountAll | frontend/src/components/KpiStrip.tsx:8 | every hour is overloaded exactly when every value is strictly above capacity |
| Series.OverloadCountAntitone | frontend/src/components/KpiStrip.tsx:8 | a higher capacity never counts more overloaded hours |
| Calendar.NextHour | backend/routers/forecast.py:211 | adding an hour keeps the stamp valid and its minutes, seconds and microseconds |
| Calendar.AddHours | backend/utils/timebox.py:11 | adding n hours keeps the stamp valid and its sub-hour parts |
| Series.OrZeros | frontend/src/components/KpiStrip.tsx:5 | `x.pred || 0` per hour, one value each |
| Series.SumNonNegative | frontend/src/components/KpiStrip.tsx:5 | non-negative values add up to a non-negative total, at least each value |
| Series.MaxAtMostSum | frontend/src/components/KpiStrip.tsx:5-6 | with non-negative values the maximum seeded at 0 is at most the sum |
| Series.OverloadCount | frontend/src/components/KpiStrip.tsx:8 | never more overloaded hours than hours |
| Series.PeakIndex | frontend/src/components/ExecutiveSummary.tsx:11-12 | within a prefix, an index of the maximum with every earlier value strictly smaller |
| Collections.DistinctInOrder | frontend/src/components/Composition100Stack.tsx:16 | `Array.from(new Set(..))` has no duplicates and is no longer than its input |
| Text.Lower | frontend/src/lib/dataUtils.ts:76 | `toLowerCase()` keeps the length and lower-cases each character |
| Text.Pad2 | frontend/src/app/page.tsx:29 | `padStart(2, "0")` of a number below 100 is two digits reading back as the number; larger numbers are unpadded |
| Series.FirstMaxIndex | frontend/src/components/FanChart.tsx:15 | the first index of the maximum, or 0 for an empty series |
| Numeric.JsRound | frontend/src/components/InsightsBox.tsx:14 | `Math.round` lands within half of its argument: x − 0.5 < r ≤ x + 0.5 |
| Numeric.JsRound2 | frontend/src/lib/dataUtils.ts:184-185 | hundredths rounding lands within 0.005 |
| Numeric.PyRound2 | backend/routers/analytics_fixed.py:344 | `round(x, 2)` lands within 0.005 of x |
| Numeric.GuardedPercentBounds | frontend/src/lib/dataUtils.ts:86 | a part between 0 and its total rounds to a percentage in [0, 100] |
| Numeric.GuardedPercentPair | frontend/src/lib/dataUtils.ts:86-87 | two complementary parts round to percentages adding up to 100 or 101 |
| Grouping.GroupSums | frontend/src/components/BreakdownStack.tsx:7-11 | the accumulation loop gives the keys in first-seen order, each with the sum of its values |
| Grouping.ValueOr0IsGroupSum | frontend/src/components/Composition100Stack.tsx:36-37 | `m[k] || 0` on the finished table is the sum filed under k, stored or not |
| Grouping.GroupTotalConserves | frontend/src/components/BreakdownStack.tsx:8-11 | the groups add up to the total of all values |
| Grouping.GroupSumBounds | frontend/src/components/Composition100Stack.tsx:11 | with non-negative values no group exceeds the total |
| Collections.DistinctInOrderMembers | frontend/src/components/Composition100Stack.tsx:16 | `new Set` keeps exactly the values of its input |
| Collections.SortedDistinctInts | frontend/src/components/TerminalHourHeatmap.tsx:8 | the distinct values, strictly ascending |
| Collections.SortedDistinctText | frontend/src/components/TerminalHourHeatmap.tsx:7 | the distinct strings, strictly ascending in JavaScript's order |
| Collections.IndexOf | frontend/src/components/TerminalHourHeatmap.tsx:9 | the first position of the value, or -1 when it is absent |
| Collections.FirstMatch | backend/routers/forecast.py:206 | the first position satisfying the test, or -1 |
| Collections.SortDesc | frontend/src/components/LollipopRanking.tsx:7 | a non-increasing permutation of the input |
| Collections.SortDescStable | frontend/src/components/LollipopRanking.tsx:7 | the sort is stable: elements with equal keys keep their order |
| Collections.SumByPermutation | backend/routers/analytics_fixed.py:346 | reordering does not change a sum, so sorting before summing keeps the total |
| Text.ParseNatRoundTrip | frontend/src/lib/dataUtils.ts:246 | a rendered natural number parses back to itself |
| Text.Upper | backend/routers/forecast.py:16 | `upper()` keeps the length and changes only lower-case ASCII letters |
| Text.Trim | backend/routers/forecast.py:16 | `strip()` keeps a middle slice of s, drops only whitespace before and after it, and leaves no whitespace at either end |
| Text.Repeat | frontend/src/components/ExportReportButton.tsx:77 | n copies of the character |
| Text.JoinOccurrences | backend/routers/analytics.py:51 | joining with a separator free of `?` keeps exactly the parts' `?` |

## Left out

- Database access and SQL execution: connections, cursors, and the query text beyond its WHERE conjunction and placeholder count. Rows arrive as parameters.
- The Vertica-side grouping and deduplication inside the queries. The sunburst, share and composition inputs are taken as the rows a query returns.
- `backend/routers/analytics_old.py` is not part of this model. It is not mounted, and it calls a function it never defines.
- The HTTP clients and network test scripts (`frontend/src/lib/api.ts`, `test_data_quality_api.py`, `test_total_volume_api.py`), FastAPI and pydantic validation mechanics, and React Query's timers, caching and refetching. Only the polling rule is modelled.
- Time zones. All stamps are in one fixed-offset zone. The `astimezone` branches of `parse_local_dt` (stamps carrying their own offset) and the system-zone round trip at `backend/routers/forecast.py:85-88` are not modelled. Daylight saving is not modelled.
- DataUtils.SlotKey: the zone offset is a whole number of hours at or east of UTC, as the dashboard's zone Asia/Dubai (UTC+4, `backend/config.py:17`) is. West of UTC the key as written would misfile a point a day earlier rather than a day later; that case is not modelled. The same holds for DataUtils.SlotKeyAsWritten and the zero fill built on them.
- The clocks (`datetime.now`, `new Date()`, `dayjs()`) are parameters: `now` for `next_n_hours` and the page window, and the current hour for the gate load status.
- The browser's locale formatting (`toLocaleTimeString`) is a parameter function.
- Floating point. Quantities are exact reals. `Math.round` is modelled as the floor of x + 0.5. Binary rounding error, `NaN` and `Infinity` arithmetic are not modelled; `formatNumber`'s pass-through of `Infinity` is one such case.
- `toFixed` is modelled as round-half-up on the exact value.
- Calendar.ParseIso: accepts only the forms the dashboard sends, `YYYY-MM-DD` optionally followed by one separator character and `HH`, `HH:MM` or `HH:MM:SS`. Forms that `fromisoformat` also accepts are rejected: fractional seconds, a UTC offset or `Z`, compact dates such as `20250812`, week dates. The same holds for Calendar.ParseLocalHour.
- Analytics.KeyBounds: a stamp in one of those other forms gives 500 in the model, where the source would parse it. The same holds for AnalyticsFixed.TimeBounds, and Forecast.RangeWindow gives 422 for it.
- `createVolumeTooltip` (`frontend/src/lib/dataUtils.ts:230-232`) is not modelled. It only concatenates three `formatNumber` results.
- JavaScript's `Object.keys` puts integer-like keys first. The composition stack's terminal order is stated only up to that: the terminals are a permutation, ordered by total.
- Strings are sequences of characters. Case mapping, whitespace and the file-name regex cover ASCII letters and the Latin-1 whitespace characters only, not UTF-16 surrogate pairs.
- Chart option objects, colours other than the tiers the components compute, and styling. The same goes for the presentation-only components: Sparkline, BulletRanking, CapacityPanel, MoveTypeDonut, CompositionSunburst, UtilizationGauges, TodayTimeline, FilterRail, TimeRange, Header, Theme*.
- Screenshot capture, ZIP building and the download in the report button. Only the summary text and the chart file names are modelled.
- `console` logging.
- The today-timeline query (`frontend/src/app/page.tsx:77-81`) polls every minute in every mode, custom and range included. It has no mode test, so `Page.RefetchInterval` does not apply to it, and it is not modelled.
- Forecast.NormMoveTypeIdempotent: holds only for truthy results. `norm_move_type(" ")` returns `""`, which normalises again to `None`. The same holds for Forecast.NormDesigIdempotent.
- Page.LocalRoundTrip: stated for years 1000 to 9999. `toLocal` does not pad the year, so other years do not give an ISO stamp.
- Numeric.PyRound2: `round(x, 2)` is round-half-even on the exact value, not on the nearest binary float.
- Forecast.RowToPoint: the stamp is taken as already local. The `astimezone` conversions of the `next8h` row loop are not modelled.
- DataUtils.GetTimeWindowDescription: integer hour counts only. A fractional count is not modelled.
- Capacity.CapacityStore.Put: the table is one object. Concurrent requests to the FastAPI process are not modelled.

## Findings

| source | as written | input that shows it | evidently intended | confidence | as-written member | corrected member |
|---|---|---|---|---|---|---|
| frontend/src/lib/dataUtils.ts:57-59 | the slot key joins the UTC date (`toISOString`) with the local hour (`getHours`) | zone 4 h east of UTC, slot at 2025-08-11T22:00Z (local 2025-08-12 02:00), point ("2025-08-12", 2): the slot reads 0, and the point lands in the slot 24 h later | the date and the hour both taken in local time, so a point fills the slot of its own local hour | not executed | DataUtils.SlotKeyAsWrittenMisfiles | DataUtils.SlotKeyMatches |
| frontend/src/components/GateLoadStatus.tsx:27 | the empty-state label is `now.getHours() + index` with no wrap at 24 | current hour 20, index 4: the label reads "24:00" | the hour taken mod 24, giving "00:00" | not executed | GateLoadStatus.EmptyLabelAsWrittenPastMidnight | GateLoadStatus.EmptyLabel |
