/** `Reports::Builders::CsvBuilder`: the table a CSV report holds — the
    header row, one five-cell row per fetched clocking and a summary row —
    and the row loop that reports progress to the process after each row. */
module CsvBuilders {
  import opened Common
  import opened Text
  import opened Calendar
  import opened Clockings
  import opened ClockingQueries
  import opened DateTimeFormatter
  import opened WorkTimeCalculator
  import opened Progress
  import opened ReportProcesses

  /** `HEADERS`: seven column names, although data rows have five cells. */
  const Headers: seq<string> :=
    ["Data", "Dia da Semana", "Entrada", "Saída", "Horas Trabalhadas", "Status", "Observações"]

  /** `build_row`: date, weekday, clock-in time, clock-out time and hours
      worked. No status and no observations. */
  function BuildRow(c: Clocking, locale: Locale): (row: seq<string>)
    ensures |row| == 5
    ensures c.IsOpen() <==> row[3] == "-"
    ensures row[4] == "-" <==> SecondsWorked(c) == 0
  {
    [Date(c.clockIn), Weekday(c.clockIn, locale), Time(c.clockIn), Time(c.clockOut), HoursWorked(c)]
  }

  /** The date cell reads back to the clocking's local date; a missing
      clock-in shows "-" in the date, weekday and clock-in cells. */
  lemma BuildRowDateReadsBack(c: Clocking, locale: Locale)
    ensures var row := BuildRow(c, locale);
            (c.clockIn.None? ==> row[0] == "-" && row[1] == "-" && row[2] == "-") &&
            (c.clockIn.Some? ==> ParseDate(row[0]) == Some(Local(c.clockIn.value).date))
  {
    var row := BuildRow(c, locale);
    assert row[0] == Date(c.clockIn);
    if c.clockIn.Some? {
      DateReadsBack(c.clockIn.value);
    } else {
      assert row[1] == Weekday(c.clockIn, locale) && row[2] == Time(c.clockIn);
    }
  }

  /** The two time cells read back to the local hour, minute and second of
      clock-in and clock-out. */
  lemma BuildRowTimesReadBack(c: Clocking, locale: Locale)
    ensures var row := BuildRow(c, locale);
            (c.clockIn.Some? ==> ParseClock(row[2]) == Some(ClockFields(c.clockIn.value))) &&
            (c.clockOut.Some? ==> ParseClock(row[3]) == Some(ClockFields(c.clockOut.value)))
  {
    var row := BuildRow(c, locale);
    assert row[2] == Time(c.clockIn) && row[3] == Time(c.clockOut);
    if c.clockIn.Some? {
      TimeReadsBack(c.clockIn.value);
    }
    if c.clockOut.Some? {
      TimeReadsBack(c.clockOut.value);
    }
  }

  /** The hours cell reads back to the whole hours and minutes worked. */
  lemma BuildRowHours(c: Clocking, locale: Locale)
    ensures var row := BuildRow(c, locale);
            row[4] != "-" ==> ParseDuration(row[4]) == Some(DurationParts(SecondsWorked(c) / 3600, SecondsWorked(c) % 3600 / 60))
  {
    assert BuildRow(c, locale)[4] == HoursWorked(c);
  }

  /** The positions of the clockings with a clock-out. */
  ghost function ClosedIndices(cs: seq<Clocking>): set<int>
  {
    set i | 0 <= i < |cs| && cs[i].clockOut.Some?
  }

  /** The positions of the clockings without a clock-out. */
  ghost function OpenIndices(cs: seq<Clocking>): set<int>
  {
    set i | 0 <= i < |cs| && cs[i].IsOpen()
  }

  /** `complete_count`: clockings with a clock-out. */
  function CompleteCount(cs: seq<Clocking>): (n: nat)
    ensures n <= |cs|
  {
    if cs == [] then 0 else CompleteCount(cs[..|cs| - 1]) + (if cs[|cs| - 1].clockOut.Some? then 1 else 0)
  }

  /** `open_count`: clockings without a clock-out. */
  function OpenRecordCount(cs: seq<Clocking>): (n: nat)
    ensures n <= |cs|
  {
    if cs == [] then 0 else OpenRecordCount(cs[..|cs| - 1]) + (if cs[|cs| - 1].IsOpen() then 1 else 0)
  }

  /** `complete_count` is the number of clockings with a clock-out. */
  lemma {:induction false} CompleteCountCounts(cs: seq<Clocking>)
    ensures CompleteCount(cs) == |ClosedIndices(cs)|
  {
    if cs != [] {
      CompleteCountCounts(cs[..|cs| - 1]);
      ClosedIndicesOfInit(cs);
    }
  }

  /** `open_count` is the number of clockings without a clock-out. */
  lemma {:induction false} OpenRecordCountCounts(cs: seq<Clocking>)
    ensures OpenRecordCount(cs) == |OpenIndices(cs)|
  {
    if cs != [] {
      OpenRecordCountCounts(cs[..|cs| - 1]);
      OpenIndicesOfInit(cs);
    }
  }

  lemma ClosedIndicesOfInit(cs: seq<Clocking>)
    requires cs != []
    ensures var k := |cs| - 1;
            ClosedIndices(cs) == ClosedIndices(cs[..k]) + (if cs[k].clockOut.Some? then {k} else {}) &&
            k !in ClosedIndices(cs[..k])
  {
    var k := |cs| - 1;
    assert forall i :: 0 <= i < k ==> cs[..k][i] == cs[i];
  }

  lemma OpenIndicesOfInit(cs: seq<Clocking>)
    requires cs != []
    ensures var k := |cs| - 1;
            OpenIndices(cs) == OpenIndices(cs[..k]) + (if cs[k].IsOpen() then {k} else {}) &&
            k !in OpenIndices(cs[..k])
  {
    var k := |cs| - 1;
    assert forall i :: 0 <= i < k ==> cs[..k][i] == cs[i];
  }

  /** Every fetched clocking is counted exactly once. */
  lemma {:induction false} CountsCoverAll(cs: seq<Clocking>)
    ensures CompleteCount(cs) + OpenRecordCount(cs) == |cs|
  {
    if cs != [] {
      CountsCoverAll(cs[..|cs| - 1]);
    }
  }

  const CompleteSuffix: string := " registros completos"
  const OpenSuffix: string := " registros abertos"

  /** `add_summary_row`: blank cells, "TOTAL", the total hours and the two
      counts. */
  function SummaryRow(cs: seq<Clocking>): (row: seq<string>)
    ensures |row| == 7 && row[0] == "" && row[1] == "TOTAL" && row[2] == "" && row[3] == ""
    ensures row[4] == TotalHours(cs)
    ensures row[5] == NatToString(CompleteCount(cs)) + CompleteSuffix
    ensures row[6] == NatToString(OpenRecordCount(cs)) + OpenSuffix
  {
    ["", "TOTAL", "", "", TotalHours(cs),
     NatToString(CompleteCount(cs)) + CompleteSuffix,
     NatToString(OpenRecordCount(cs)) + OpenSuffix]
  }

  /** The two counts read back from the summary cells add up to the number
      of clockings. */
  lemma SummaryCountsReadBack(cs: seq<Clocking>)
    ensures var row := SummaryRow(cs);
            |row[5]| > |CompleteSuffix| && |row[6]| > |OpenSuffix| &&
            AllDigits(row[5][..|row[5]| - |CompleteSuffix|]) && AllDigits(row[6][..|row[6]| - |OpenSuffix|]) &&
            ParseNat(row[5][..|row[5]| - |CompleteSuffix|]) + ParseNat(row[6][..|row[6]| - |OpenSuffix|]) == |cs|
  {
    var row := SummaryRow(cs);
    var c, o := NatToString(CompleteCount(cs)), NatToString(OpenRecordCount(cs));
    assert row[5][..|row[5]| - |CompleteSuffix|] == c;
    assert row[6][..|row[6]| - |OpenSuffix|] == o;
    ParseNatToString(CompleteCount(cs));
    ParseNatToString(OpenRecordCount(cs));
    CountsCoverAll(cs);
  }

  /** The rows `add_data_rows` appends, one per clocking, in order. */
  function DataRows(cs: seq<Clocking>, locale: Locale): (rows: seq<seq<string>>)
    ensures |rows| == |cs|
  {
    MapSeq(cs, c => BuildRow(c, locale))
  }

  /** Row `i` is the row of clocking `i`: the rows keep the fetch order. */
  lemma DataRowsAt(cs: seq<Clocking>, locale: Locale, i: nat)
    requires i < |cs|
    ensures DataRows(cs, locale)[i] == BuildRow(cs[i], locale)
  {
  }

  lemma DataRowsStep(cs: seq<Clocking>, i: nat, locale: Locale)
    requires i < |cs|
    ensures DataRows(cs[..i + 1], locale) == DataRows(cs[..i], locale) + [BuildRow(cs[i], locale)]
  {
    assert cs[..i + 1][..i] == cs[..i];
    var f := c => BuildRow(c, locale);
    assert MapSeq(cs[..i + 1], f) == MapSeq(cs[..i + 1][..i], f) + [f(cs[..i + 1][i])];
  }

  lemma SeriesStep(log: seq<int>, i: nat, n: nat)
    requires n > 0
    ensures log + ProgressSeries(i + 1, n) == (log + ProgressSeries(i, n)) + [Percentage(i + 1, n)]
  {
  }

  /** The whole table: `|cs| + 2` rows, the header first and the summary
      last, and between them the clockings' rows in order. */
  function ReportTable(cs: seq<Clocking>, locale: Locale): (t: seq<seq<string>>)
    ensures |t| == |cs| + 2
    ensures t[0] == Headers && t[|cs| + 1] == SummaryRow(cs)
  {
    [Headers] + DataRows(cs, locale) + [SummaryRow(cs)]
  }

  /** Between header and summary, row `i + 1` is the five-cell row of
      clocking `i`. */
  lemma ReportTableRow(cs: seq<Clocking>, locale: Locale, i: nat)
    requires i < |cs|
    ensures ReportTable(cs, locale)[i + 1] == BuildRow(cs[i], locale)
    ensures |ReportTable(cs, locale)[i + 1]| == 5
  {
    assert ReportTable(cs, locale)[i + 1] == DataRows(cs, locale)[i];
    DataRowsAt(cs, locale, i);
  }

  // ---------------------------------------------------------------------
  // CSV text. Cells are joined with "," and every row ends in "\n". Ruby's
  // CSV writer quotes an empty cell by default (`quote_empty: true`); the
  // quoting of cells holding a comma, a quote or a line break is not
  // modelled.
  // ---------------------------------------------------------------------

  /** A cell as the CSV writer emits it: the empty cell is `""`, every
      other cell is written as it is. */
  function CsvField(cell: string): string
  {
    if cell == "" then QuotedEmpty else cell
  }

  const QuotedEmpty: string := "\"\""

  /** Reads one field back: `""` is the empty cell. */
  function UnquoteField(field: string): string
  {
    if field == QuotedEmpty then "" else field
  }

  function CsvLine(cells: seq<string>): string
  {
    Join(MapSeq(cells, CsvField), ",") + "\n"
  }

  function CsvText(rows: seq<seq<string>>): string
  {
    if rows == [] then "" else CsvText(rows[..|rows| - 1]) + CsvLine(rows[|rows| - 1])
  }

  lemma CsvTextOfTwo(a: seq<string>, b: seq<string>)
    ensures CsvText([a, b]) == CsvLine(a) + CsvLine(b)
  {
    assert [a, b][..1] == [a] && [a][..0] == [];
    assert CsvText([a]) == CsvText([]) + CsvLine(a);
    assert CsvText([a, b]) == CsvText([a]) + CsvLine(b);
  }

  /** Without clockings the table is the header and the summary. */
  lemma EmptyTableText(locale: Locale)
    ensures CsvText(ReportTable([], locale)) == CsvLine(Headers) + CsvLine(SummaryRow([]))
  {
    assert ReportTable([], locale) == [Headers, SummaryRow([])];
    CsvTextOfTwo(Headers, SummaryRow([]));
  }

  /** The summary of no clockings: "-" hours, no complete and no open
      records. */
  lemma EmptySummary()
    ensures SummaryRow([])[4] == "-"
    ensures SummaryRow([])[5] == "0" + CompleteSuffix && SummaryRow([])[6] == "0" + OpenSuffix
  {
    assert NatToString(0) == "0";
  }

  /** A cell without a quote reads back from its field, and the field
      holds a comma only when the cell does. */
  lemma UnquoteCsvField(cell: string)
    requires '"' !in cell
    ensures UnquoteField(CsvField(cell)) == cell
    ensures ',' in CsvField(cell) ==> ',' in cell
  {
    if cell != "" {
      assert cell != QuotedEmpty by {
        assert QuotedEmpty[0] == '"';
      }
    }
  }

  /** A line's cells read back when no cell holds a comma or a quote: the
      text before the line break, cut at the commas, gives one field per
      cell, and unquoting each field gives the cell. */
  lemma CsvLineReadsBack(cells: seq<string>)
    requires |cells| > 0
    requires forall k :: 0 <= k < |cells| ==> ',' !in cells[k] && '"' !in cells[k]
    ensures var line := CsvLine(cells);
            line[|line| - 1] == '\n' &&
            |Split(line[..|line| - 1], ",")| == |cells| &&
            MapSeq(Split(line[..|line| - 1], ","), UnquoteField) == cells
  {
    var line := CsvLine(cells);
    var fields := MapSeq(cells, CsvField);
    assert line[..|line| - 1] == Join(fields, ",");
    forall k | 0 <= k < |fields| ensures ',' !in fields[k] && UnquoteField(fields[k]) == cells[k] {
      UnquoteCsvField(cells[k]);
    }
    SplitJoin(fields, ",");
    var back := MapSeq(fields, UnquoteField);
    assert back == cells;
  }

  /** The summary row's three blank cells always go out quoted, as
      `"",TOTAL,"",""`, followed by the hours and the two counts. */
  lemma SummaryLine(cs: seq<Clocking>)
    ensures var row := SummaryRow(cs);
            CsvLine(row) == Join([QuotedEmpty, "TOTAL", QuotedEmpty, QuotedEmpty, CsvField(row[4]), row[5], row[6]], ",") + "\n"
  {
    var row := SummaryRow(cs);
    var fields := MapSeq(row, CsvField);
    assert fields[0] == QuotedEmpty && fields[1] == "TOTAL" && fields[2] == QuotedEmpty && fields[3] == QuotedEmpty;
    assert fields[5] == row[5] && fields[6] == row[6];
    assert fields == [QuotedEmpty, "TOTAL", QuotedEmpty, QuotedEmpty, CsvField(row[4]), row[5], row[6]];
  }

  /** Without clockings the summary line is
      `"",TOTAL,"","",-,0 registros completos,0 registros abertos`. */
  lemma EmptySummaryLine()
    ensures CsvLine(SummaryRow([])) ==
            Join([QuotedEmpty, "TOTAL", QuotedEmpty, QuotedEmpty, "-", "0" + CompleteSuffix, "0" + OpenSuffix], ",") + "\n"
  {
    EmptySummary();
    SummaryLine([]);
  }

  /** The builder of one report. The clockings are fetched when it is
      created, from the process's user and date window. */
  class CsvBuilder {
    const process: ReportProcess
    const locale: Locale
    const clockings: seq<Clocking>

    constructor (process: ReportProcess, ledger: ClockingLedger, locale: Locale)
      requires process.startDate.Some? && process.endDate.Some?
      ensures this.process == process && this.locale == locale
      ensures clockings == FetchClockings(ledger.rows, process.userId, process.startDate.value, process.endDate.value)
    {
      this.process := process;
      this.locale := locale;
      this.clockings := FetchClockings(ledger.rows, process.userId, process.startDate.value, process.endDate.value);
    }

    /** `build`: the CSV text of the table. After each data row the process
        records the share of rows done, so a build over at least one
        clocking ends at progress 100; over none it records nothing. */
    method Build() returns (text: string)
      modifies process
      ensures text == CsvText(ReportTable(clockings, locale))
      ensures |clockings| == 0 ==> process.Snapshot() == old(process.Snapshot())
      ensures |clockings| > 0 ==> process.Snapshot() == old(process.Snapshot()).(progress := 100)
      ensures |clockings| == 0 ==> process.progressLog == old(process.progressLog)
      ensures |clockings| > 0 ==> process.progressLog == old(process.progressLog) + ProgressSeries(|clockings|, |clockings|)
    {
      var data := AddDataRows();
      text := CsvText([Headers] + data + [SummaryRow(clockings)]);
    }

    /** `add_data_rows`: one row per clocking, each followed by a progress
        update. */
    method AddDataRows() returns (data: seq<seq<string>>)
      modifies process
      ensures data == DataRows(clockings, locale)
      ensures |clockings| == 0 ==> process.Snapshot() == old(process.Snapshot())
      ensures |clockings| > 0 ==> process.Snapshot() == old(process.Snapshot()).(progress := 100)
      ensures |clockings| == 0 ==> process.progressLog == old(process.progressLog)
      ensures |clockings| > 0 ==> process.progressLog == old(process.progressLog) + ProgressSeries(|clockings|, |clockings|)
    {
      var n := |clockings|;
      ghost var before, logBefore := process.Snapshot(), process.progressLog;
      data := [];
      var i := 0;
      while i < n
        invariant 0 <= i <= n
        invariant data == DataRows(clockings[..i], locale)
        invariant process.Snapshot() == before.(progress := process.progress)
        invariant i == 0 ==> process.progress == before.progress
        invariant i > 0 ==> process.progress == Percentage(i, n)
        invariant i == 0 ==> process.progressLog == logBefore
        invariant n > 0 ==> process.progressLog == logBefore + ProgressSeries(i, n)
      {
        DataRowsStep(clockings, i, locale);
        data := data + [BuildRow(clockings[i], locale)];
        UpdateProgress(i + 1);
        SeriesStep(logBefore, i, n);
        i := i + 1;
      }
      if n > 0 {
        PercentageComplete(n);
      }
      assert clockings[..n] == clockings;
    }

    /** `update_progress(current)`: nothing when there are no clockings,
        otherwise the rounded share of `current` rows. */
    method UpdateProgress(current: nat)
      requires current <= |clockings|
      modifies process
      ensures |clockings| == 0 ==> process.Snapshot() == old(process.Snapshot())
      ensures |clockings| == 0 ==> process.progressLog == old(process.progressLog)
      ensures |clockings| > 0 ==> process.progress == Percentage(current, |clockings|)
      ensures process.Snapshot() == old(process.Snapshot()).(progress := process.progress)
      ensures |clockings| > 0 ==> process.progressLog == old(process.progressLog) + [process.progress]
    {
      if |clockings| == 0 {
        return;
      }
      var percentage := Percentage(current, |clockings|);
      PercentageAtMost100(current, |clockings|);
      process.UpdateProgress(percentage);
    }
  }
}
