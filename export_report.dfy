/**
 * The report export's text part: the summary file's lines (blank entries
 * dropped, then joined with newlines) and the numbered PNG file name of
 * each captured chart. Capturing, zipping and downloading are not part of
 * this model; the clock's formatted time is a parameter.
 */
module ExportReport {
  import opened Text

  /** The report filters; an unset mode or capacity is the empty string, as both are falsy. */
  datatype Filters = Filters(terminal: string, dateRange: string, mode: string, capacity: string)

  datatype Kpi = Kpi(caption: string, value: string)

  const SummaryFileName: string := "00_Report_Summary.txt"

  /** `.filter(Boolean)` on strings: the non-empty entries, in order. */
  function NonEmpty(lines: seq<string>): (r: seq<string>)
    ensures |r| <= |lines|
    ensures forall k | 0 <= k < |r| :: r[k] != ""
    ensures forall x :: x in r <==> x in lines && x != ""
  {
    if lines == [] then []
    else (if lines[0] == "" then [] else [lines[0]]) + NonEmpty(lines[1..])
  }

  lemma {:induction false} NonEmptyAppend(a: seq<string>, b: seq<string>)
    ensures NonEmpty(a + b) == NonEmpty(a) + NonEmpty(b)
  {
    if a == [] {
      assert a + b == b;
    } else {
      assert (a + b)[1..] == a[1..] + b;
      NonEmptyAppend(a[1..], b);
    }
  }

  /** Dropping blanks keeps a list without blanks as it is. */
  lemma {:induction false} NonEmptyKeeps(lines: seq<string>)
    requires forall k | 0 <= k < |lines| :: lines[k] != ""
    ensures NonEmpty(lines) == lines
  {
    if lines != [] {
      NonEmptyKeeps(lines[1..]);
    }
  }

  function KpiLines(kpis: seq<Kpi>): (r: seq<string>)
    ensures |r| == |kpis|
    ensures forall k | 0 <= k < |kpis| :: r[k] == kpis[k].caption + ": " + kpis[k].value
  {
    seq(|kpis|, k requires 0 <= k < |kpis| => kpis[k].caption + ": " + kpis[k].value)
  }

  /** Every KPI line holds at least the ": " separator, so dropping blanks keeps them all. */
  lemma KpiLinesKept(kpis: seq<Kpi>)
    ensures NonEmpty(KpiLines(kpis)) == KpiLines(kpis)
  {
    var lines := KpiLines(kpis);
    forall k | 0 <= k < |lines| ensures lines[k] != "" {
      assert |lines[k]| >= 2;
    }
    NonEmptyKeeps(lines);
  }

  /** The title block: the title and its underline of as many "=" as it has characters. */
  function TitleBlock(title: string): seq<string> {
    [title, Repeat('=', |title|)]
  }

  function DetailBlock(sub: string, f: Filters): seq<string> {
    ["", sub, "", "REPORT DETAILS", "--------------", "Terminal: " + f.terminal, "Date Range: " + f.dateRange]
  }

  /** The optional filter lines: blank when the filter is unset. */
  function OptionBlock(f: Filters): seq<string> {
    [if f.mode != "" then "Mode: " + f.mode else "", if f.capacity != "" then "Capacity: " + f.capacity else ""]
  }

  function KpiHeading(generated: string): seq<string> {
    ["Generated: " + generated, "", "KEY PERFORMANCE INDICATORS", "-------------------------"]
  }

  function ClosingBlock(): seq<string> {
    ["", "Charts and visualizations are included as separate PNG images.", "",
      "For questions about this report, contact the DP World analytics team."]
  }

  /** The summary's entries before blanks are dropped, spacers included, in the order of the array literal. */
  function RawLines(title: string, sub: string, f: Filters, kpis: seq<Kpi>, generated: string): seq<string> {
    TitleBlock(title) + DetailBlock(sub, f) + OptionBlock(f) + KpiHeading(generated) + KpiLines(kpis) + ClosingBlock()
  }

  function SummaryLines(title: string, sub: string, f: Filters, kpis: seq<Kpi>, generated: string): seq<string> {
    NonEmpty(RawLines(title, sub, f, kpis, generated))
  }

  /** `createSummaryText`. */
  function SummaryText(title: string, sub: string, f: Filters, kpis: seq<Kpi>, generated: string): string {
    Join(SummaryLines(title, sub, f, kpis, generated), "\n")
  }

  lemma NonEmptyPair(a: string, b: string)
    ensures NonEmpty([a, b]) == (if a != "" then [a] else []) + (if b != "" then [b] else [])
  {
    assert [a, b][1..] == [b];
    assert [b][1..] == [];
  }

  /** An empty title drops both the title and its underline. */
  lemma TitleLayout(title: string)
    ensures NonEmpty(TitleBlock(title)) == if title != "" then [title, Repeat('=', |title|)] else []
  {
    NonEmptyPair(title, Repeat('=', |title|));
  }

  lemma {:induction false} DetailLayout(sub: string, f: Filters)
    ensures NonEmpty(DetailBlock(sub, f)) ==
      (if sub != "" then [sub] else []) + ["REPORT DETAILS", "--------------", "Terminal: " + f.terminal, "Date Range: " + f.dateRange]
  {
    var rest := ["REPORT DETAILS", "--------------", "Terminal: " + f.terminal, "Date Range: " + f.dateRange];
    assert DetailBlock(sub, f) == ["", sub] + ([""] + rest);
    NonEmptyAppend(["", sub], [""] + rest);
    NonEmptyPair("", sub);
    NonEmptyKeeps(rest);
  }

  lemma OptionLayout(f: Filters)
    ensures NonEmpty(OptionBlock(f)) ==
      (if f.mode != "" then ["Mode: " + f.mode] else []) + (if f.capacity != "" then ["Capacity: " + f.capacity] else [])
  {
    NonEmptyPair(OptionBlock(f)[0], OptionBlock(f)[1]);
  }

  lemma HeadingLayout(generated: string)
    ensures NonEmpty(KpiHeading(generated)) == ["Generated: " + generated, "KEY PERFORMANCE INDICATORS", "-------------------------"]
  {
    var h := KpiHeading(generated);
    assert h == [h[0]] + ([""] + h[2..]);
    NonEmptyAppend([h[0]], [""] + h[2..]);
    NonEmptyKeeps([h[0]]);
    NonEmptyKeeps(h[2..]);
  }

  lemma ClosingLayout()
    ensures NonEmpty(ClosingBlock()) == ["Charts and visualizations are included as separate PNG images.",
      "For questions about this report, contact the DP World analytics team."]
  {
    var c := ClosingBlock();
    assert c == ["", c[1]] + ["", c[3]];
    NonEmptyAppend(["", c[1]], ["", c[3]]);
    NonEmptyPair("", c[1]);
    NonEmptyPair("", c[3]);
  }

  /**
   * The summary's lines, section by section: the title with an underline
   * of as many "=" as it has characters (both absent for an empty title),
   * the subtitle when there is one, the details with the Mode and Capacity
   * lines exactly when those filters are set, every KPI as "label: value"
   * in order, and the closing notes.
   */
  function Layout(title: string, sub: string, f: Filters, kpis: seq<Kpi>, generated: string): seq<string> {
    (if title != "" then [title, Repeat('=', |title|)] else [])
    + ((if sub != "" then [sub] else []) + ["REPORT DETAILS", "--------------", "Terminal: " + f.terminal, "Date Range: " + f.dateRange])
    + ((if f.mode != "" then ["Mode: " + f.mode] else []) + (if f.capacity != "" then ["Capacity: " + f.capacity] else []))
    + ["Generated: " + generated, "KEY PERFORMANCE INDICATORS", "-------------------------"]
    + KpiLines(kpis)
    + ["Charts and visualizations are included as separate PNG images.",
      "For questions about this report, contact the DP World analytics team."]
  }

  /** Dropping the blank entries leaves exactly the layout, and so no empty line. */
  lemma {:induction false} SummaryLayout(title: string, sub: string, f: Filters, kpis: seq<Kpi>, generated: string)
    ensures SummaryLines(title, sub, f, kpis, generated) == Layout(title, sub, f, kpis, generated)
  {
    var a, b, c, d, e, g := TitleBlock(title), DetailBlock(sub, f), OptionBlock(f), KpiHeading(generated), KpiLines(kpis), ClosingBlock();
    NonEmptyAppend(a + b + c + d + e, g);
    NonEmptyAppend(a + b + c + d, e);
    NonEmptyAppend(a + b + c, d);
    NonEmptyAppend(a + b, c);
    NonEmptyAppend(a, b);
    TitleLayout(title);
    DetailLayout(sub, f);
    OptionLayout(f);
    HeadingLayout(generated);
    KpiLinesKept(kpis);
    ClosingLayout();
  }

  predicate IsAlphanumeric(c: char) {
    'a' <= c <= 'z' || 'A' <= c <= 'Z' || '0' <= c <= '9'
  }

  /** `title.replace(/[^a-zA-Z0-9]/g, '_')`. */
  function Sanitize(title: string): (r: string)
    ensures |r| == |title|
    ensures forall k | 0 <= k < |title| :: r[k] == (if IsAlphanumeric(title[k]) then title[k] else '_')
  {
    seq(|title|, k requires 0 <= k < |title| => if IsAlphanumeric(title[k]) then title[k] else '_')
  }

  /** The zip entry of the chart at position i: a two-digit 1-based number, "_", the sanitised title, ".png". */
  function ChartFileName(i: nat, title: string): (r: string)
    ensures i < 99 ==> |r| == |title| + 7 && r[2] == '_' && r[|r| - 4..] == ".png"
    ensures forall k | 0 <= k < |r| :: IsAlphanumeric(r[k]) || r[k] == '_' || r[k] == '.'
  {
    Pad2(i + 1) + "_" + Sanitize(title) + ".png"
  }

  /**
   * Within the first 99 charts every entry gets its own name, whatever the
   * titles, and none collides with the summary file.
   */
  lemma ChartFileNamesDistinct(i: nat, j: nat, t1: string, t2: string)
    requires i < 99 && j < 99
    ensures i != j ==> ChartFileName(i, t1) != ChartFileName(j, t2)
    ensures ChartFileName(i, t1) != SummaryFileName
  {
    var a, b := ChartFileName(i, t1), ChartFileName(j, t2);
    assert a[..2] == Pad2(i + 1) && b[..2] == Pad2(j + 1);
    if a == b {
      assert DigitsValue(a[..2]) == DigitsValue(b[..2]);
    }
    assert SummaryFileName[..2] == "00";
  }
}
