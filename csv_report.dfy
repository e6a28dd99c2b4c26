/** `Reports::CsvReport`: its `build_content` is a new `CsvBuilder` over the
    report's process, built. The builder is created inside `build_content`,
    so the clockings are fetched after the process was marked processing. */
module CsvReports {
  import opened Common
  import opened Text
  import opened Clockings
  import opened ClockingQueries
  import opened DateTimeFormatter
  import opened WorkTimeCalculator
  import opened Progress
  import opened ReportProcesses
  import opened CsvBuilders

  /** The clockings a report over `st` covers. */
  function ReportClockings(st: ProcessState, rows: seq<Clocking>): seq<Clocking>
    requires st.startDate.Some? && st.endDate.Some?
  {
    FetchClockings(rows, st.userId, st.startDate.value, st.endDate.value)
  }

  /** The text a CSV report of `st` holds. */
  function CsvContent(st: ProcessState, rows: seq<Clocking>, locale: Locale): string
    requires st.startDate.Some? && st.endDate.Some?
  {
    CsvText(ReportTable(ReportClockings(st, rows), locale))
  }

  /** With no clockings in the window the report still has its header and
      its summary. */
  lemma EmptyReportContent(st: ProcessState, rows: seq<Clocking>, locale: Locale)
    requires st.startDate.Some? && st.endDate.Some?
    requires ReportClockings(st, rows) == []
    ensures CsvContent(st, rows, locale) == CsvLine(Headers) + CsvLine(SummaryRow([]))
  {
    EmptyTableText(locale);
  }

  /** `build_content`: builds the CSV text, the builder updating progress
      row by row, or lets the fault escape before the first row. */
  method BuildContent(process: ReportProcess, ledger: ClockingLedger, locale: Locale, fault: Fault)
    returns (content: Result<string, Exception>)
    requires process.startDate.Some? && process.endDate.Some?
    modifies process
    ensures fault.BuildRaises? ==> content == Err(fault.error)
    ensures fault.BuildRaises? ==> process.Snapshot() == old(process.Snapshot()) && process.progressLog == old(process.progressLog)
    ensures !fault.BuildRaises? ==> content == Ok(CsvContent(old(process.Snapshot()), ledger.rows, locale))
    ensures var n := |ReportClockings(old(process.Snapshot()), ledger.rows)|;
            !fault.BuildRaises? ==>
              process.Snapshot() == old(process.Snapshot()).(progress := if n == 0 then old(process.progress) else 100) &&
              process.progressLog == old(process.progressLog) + (if n == 0 then [] else ProgressSeries(n, n))
  {
    if fault.BuildRaises? {
      return Err(fault.error);
    }
    var builder := new CsvBuilder(process, ledger, locale);
    var text := builder.Build();
    content := Ok(text);
  }
}
