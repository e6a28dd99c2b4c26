/** `Reports::BaseReport#generate`: mark the process processing, build the
    content, attach it (which completes the process); a `StandardError` from
    any of these marks the process failed with its message and is raised
    again. `NotImplementedError`, which the base class's `build_content`
    raises, is not a `StandardError`: it escapes and leaves the process in
    processing.

    Ruby dispatches `build_content` through the subclass; here a report
    carries its kind and the dispatch is a `match` on it. */
module BaseReports {
  import opened Common
  import opened Clockings
  import opened DateTimeFormatter
  import opened Progress
  import opened ReportProcesses
  import opened CsvBuilders
  import opened CsvReports

  const NotImplementedMessage: string := "Subclasses must implement #build_content"

  /** `BaseReport` itself, or its subclass `CsvReport`. */
  datatype ReportKind = BaseKind | CsvKind

  /** The process after `generate`, and whether `generate` returned or raised. */
  datatype Generated = Generated(state: ProcessState, outcome: Outcome)

  /** What `build_content` of a report of `kind` gives for the process `st`:
      the base class always raises `NotImplementedError`; a CSV report
      returns its text unless the fault escapes first. */
  function ContentOf(kind: ReportKind, st: ProcessState, rows: seq<Clocking>, locale: Locale, fault: Fault): (r: Result<string, Exception>)
    requires kind == CsvKind ==> st.startDate.Some? && st.endDate.Some?
  {
    match kind
    case BaseKind => Err(NotImplementedError(NotImplementedMessage))
    case CsvKind => if fault.BuildRaises? then Err(fault.error) else Ok(CsvContent(st, rows, locale))
  }

  /** The progress values `build_content` of a report of `kind` stores for
      `st`: the series of a CSV build over at least one clocking, and nothing
      for an empty window, a base report or a build that raises first. */
  ghost function BuildLog(kind: ReportKind, st: ProcessState, rows: seq<Clocking>, fault: Fault): seq<int>
    requires kind == CsvKind ==> st.startDate.Some? && st.endDate.Some?
  {
    if kind == CsvKind && !fault.BuildRaises? then
      var n := |ReportClockings(st, rows)|;
      if n == 0 then [] else ProgressSeries(n, n)
    else []
  }

  /** The exception `attach_file` raises under `fault`, if any. */
  function AttachError(fault: Fault): Option<Exception>
  {
    if fault.AttachRaises? then Some(StandardError(fault.message)) else None
  }

  /** `generate` on the process `st`, given what `build_content` gives and
      what `attach_file` raises. */
  function GenerateSpec(st: ProcessState, content: Result<string, Exception>, attachError: Option<Exception>): Generated
  {
    Concluded(MarkedProcessing(st), content, attachError)
  }

  /** What `generate` does once `build_content` has returned or raised, on
      the process `processing` left in processing. */
  function Concluded(processing: ProcessState, content: Result<string, Exception>, attachError: Option<Exception>): Generated
  {
    match content
    case Err(e) =>
      if e.IsStandardError() then Generated(MarkedFailed(processing, e.message), Raised(e))
      else Generated(processing, Raised(e))
    case Ok(body) =>
      match attachError
      case Some(e) => Generated(MarkedFailed(processing, e.message), Raised(e))
      case None => Generated(MarkedCompleted(processing, body), Returned)
  }

  /** `generate` ends with the process completed or failed, except when a
      `NotImplementedError` escapes; then the process stays in processing. */
  lemma GenerateEndsTerminal(st: ProcessState, content: Result<string, Exception>, fault: Fault)
    ensures var g := GenerateSpec(st, content, AttachError(fault));
            g.state.status.IsTerminal() <==> g.outcome.Returned? || g.outcome.error.IsStandardError()
    ensures var g := GenerateSpec(st, content, AttachError(fault));
            !g.state.status.IsTerminal() ==> g.state.status == Processing && g.outcome.error.NotImplementedError?
  {
  }

  /** Returning normally means completed: progress 100, no error message, the
      built text attached under the report's file name, the file ready. */
  lemma GenerateSucceeds(st: ProcessState, content: Result<string, Exception>, fault: Fault)
    ensures var g := GenerateSpec(st, content, AttachError(fault));
            g.outcome.Returned? <==> content.Ok? && !fault.AttachRaises?
    ensures var g := GenerateSpec(st, content, AttachError(fault));
            g.outcome.Returned? ==>
              g.state.status == Completed && g.state.progress == 100 && g.state.errorMessage.None? &&
              g.state.csvFile == Some(Attachment(ReportFileName(st.processId), "text/csv", content.value)) &&
              IsFileReady(g.state)
  {
    var g := GenerateSpec(st, content, AttachError(fault));
    if g.outcome.Returned? {
      CompletedIsReady(MarkedProcessing(st), content.value);
    }
  }

  /** A `StandardError` is raised again unchanged, after the process was
      marked failed with its message verbatim and progress 0. No file is
      attached by a failed run. */
  lemma GenerateFails(st: ProcessState, content: Result<string, Exception>, fault: Fault)
    ensures var g := GenerateSpec(st, content, AttachError(fault));
            g.outcome.Raised? && g.outcome.error.IsStandardError() ==>
              g.state.status == Failed && g.state.progress == 0 &&
              g.state.errorMessage == Some(g.outcome.error.message) &&
              g.state.csvFile == st.csvFile && !IsFileReady(g.state)
    ensures var g := GenerateSpec(st, content, AttachError(fault));
            content.Err? ==> g.outcome == Raised(content.error)
    ensures var g := GenerateSpec(st, content, AttachError(fault));
            content.Ok? && fault.AttachRaises? ==> g.outcome == Raised(StandardError(fault.message))
  {
    var g := GenerateSpec(st, content, AttachError(fault));
    if g.outcome.Raised? && g.outcome.error.IsStandardError() {
      OnlyCompletedIsReady(st, g.outcome.error.message, 0);
    }
  }

  /** Only the status, progress, error message and file change: the user,
      the window and the process id are the same after `generate`. */
  lemma GenerateKeepsIdentity(st: ProcessState, content: Result<string, Exception>, fault: Fault)
    ensures var g := GenerateSpec(st, content, AttachError(fault));
            g.state.processId == st.processId && g.state.userId == st.userId &&
            g.state.startDate == st.startDate && g.state.endDate == st.endDate
  {
  }

  /** The base class is abstract: generating with it raises
      `NotImplementedError` and the process is left in processing with
      progress 0 and its previous error message. */
  lemma BaseReportStaysProcessing(st: ProcessState, rows: seq<Clocking>, locale: Locale, fault: Fault)
    ensures var g := GenerateSpec(st, ContentOf(BaseKind, st, rows, locale, fault), AttachError(fault));
            g.outcome == Raised(NotImplementedError("Subclasses must implement #build_content")) &&
            g.state.status == Processing && g.state.progress == 0 &&
            g.state.errorMessage == st.errorMessage && g.state.csvFile == st.csvFile
  {
  }

  /** A CSV report whose building raises "CSV error" records that message. */
  lemma CsvErrorExample(st: ProcessState, rows: seq<Clocking>, locale: Locale)
    requires st.startDate.Some? && st.endDate.Some?
    ensures var fault := BuildRaises(StandardError("CSV error"));
            var g := GenerateSpec(st, ContentOf(CsvKind, st, rows, locale, fault), AttachError(fault));
            g.state.status == Failed && g.state.errorMessage == Some("CSV error") &&
            g.outcome == Raised(StandardError("CSV error"))
  {
  }

  /** A CSV report over a window without clockings still completes, with
      the header and the summary attached. */
  lemma EmptyCsvReportCompletes(st: ProcessState, rows: seq<Clocking>, locale: Locale)
    requires st.startDate.Some? && st.endDate.Some?
    requires ReportClockings(st, rows) == []
    ensures var g := GenerateSpec(st, ContentOf(CsvKind, st, rows, locale, NoFault), AttachError(NoFault));
            g.outcome == Returned && g.state.status == Completed && IsFileReady(g.state) &&
            g.state.csvFile.value.body == CsvLine(Headers) + CsvLine(SummaryRow([]))
  {
    var content := ContentOf(CsvKind, st, rows, locale, NoFault);
    EmptyReportContent(st, rows, locale);
    GenerateSucceeds(st, content, NoFault);
  }

  /** Marking the process processing changes neither the clockings a CSV
      report covers nor the content it builds. */
  lemma ProcessingKeepsContent(kind: ReportKind, st: ProcessState, rows: seq<Clocking>, locale: Locale, fault: Fault)
    requires kind == CsvKind ==> st.startDate.Some? && st.endDate.Some?
    ensures ContentOf(kind, MarkedProcessing(st), rows, locale, fault) == ContentOf(kind, st, rows, locale, fault)
    ensures kind == CsvKind ==> ReportClockings(MarkedProcessing(st), rows) == ReportClockings(st, rows)
    ensures BuildLog(kind, MarkedProcessing(st), rows, fault) == BuildLog(kind, st, rows, fault)
  {
    var processing := MarkedProcessing(st);
    assert processing.userId == st.userId && processing.startDate == st.startDate && processing.endDate == st.endDate;
  }

  /** Once content is built, the final transitions overwrite whatever
      progress the build left. */
  lemma ConcludedIgnoresProgress(st: ProcessState, progress: int, content: Result<string, Exception>, attachError: Option<Exception>)
    requires content.Ok?
    ensures Concluded(st.(progress := progress), content, attachError) == Concluded(st, content, attachError)
  {
  }

  /** A report of one kind over one process. */
  class Report {
    const kind: ReportKind
    const process: ReportProcess
    const ledger: ClockingLedger
    const locale: Locale

    constructor (kind: ReportKind, process: ReportProcess, ledger: ClockingLedger, locale: Locale)
      ensures this.kind == kind && this.process == process && this.ledger == ledger && this.locale == locale
    {
      this.kind := kind;
      this.process := process;
      this.ledger := ledger;
      this.locale := locale;
    }

    /** `generate`, in place: the process ends as `GenerateSpec` says, with
        `build_content` run after the process was marked processing. The log
        gains what the build stores, `BuildLog`; `mark_as_processing!` and
        the final transition store nothing. */
    method Generate(fault: Fault) returns (outcome: Outcome)
      requires kind == CsvKind ==> process.startDate.Some? && process.endDate.Some?
      modifies process
      ensures var g := GenerateSpec(old(process.Snapshot()),
                                    ContentOf(kind, old(process.Snapshot()), ledger.rows, locale, fault),
                                    AttachError(fault));
              process.Snapshot() == g.state && outcome == g.outcome
      ensures process.progressLog == old(process.progressLog) + BuildLog(kind, old(process.Snapshot()), ledger.rows, fault)
    {
      var content := MarkAndBuild(fault);
      if content.Ok? {
        ConcludedIgnoresProgress(MarkedProcessing(old(process.Snapshot())), process.progress, content, AttachError(fault));
      }
      outcome := Conclude(content, fault);
    }

    /** The first two steps of `generate`: `mark_as_processing!`, then
        `build_content` on the process in processing. The content is the one
        the unmarked process gives; the process is left in processing with
        whatever progress the build stored. */
    method MarkAndBuild(fault: Fault) returns (content: Result<string, Exception>)
      requires kind == CsvKind ==> process.startDate.Some? && process.endDate.Some?
      modifies process
      ensures content == ContentOf(kind, old(process.Snapshot()), ledger.rows, locale, fault)
      ensures kind == CsvKind && !fault.BuildRaises? ==>
                process.Snapshot() == MarkedProcessing(old(process.Snapshot())).(progress := process.progress)
      ensures kind == BaseKind || fault.BuildRaises? ==> process.Snapshot() == MarkedProcessing(old(process.Snapshot()))
      ensures process.progressLog == old(process.progressLog) + BuildLog(kind, old(process.Snapshot()), ledger.rows, fault)
    {
      ghost var st := process.Snapshot();
      process.MarkAsProcessing();
      ProcessingKeepsContent(kind, st, ledger.rows, locale, fault);
      content := BuildContent(fault);
    }

    /** The rest of `generate` once `build_content` has returned or raised:
        attach and complete, or record a `StandardError` and raise it again. */
    method Conclude(content: Result<string, Exception>, fault: Fault) returns (outcome: Outcome)
      modifies process
      ensures var g := Concluded(old(process.Snapshot()), content, AttachError(fault));
              process.Snapshot() == g.state && outcome == g.outcome
      ensures process.progressLog == old(process.progressLog)
    {
      match content {
        case Err(e) =>
          if e.IsStandardError() {
            process.MarkAsFailed(e.message);
          }
          outcome := Raised(e);
        case Ok(body) =>
          var raised := AttachFile(body, fault);
          if raised.Some? {
            process.MarkAsFailed(raised.value.message);
            outcome := Raised(raised.value);
          } else {
            outcome := Returned;
          }
      }
    }

    /** `build_content`, dispatched on the kind. */
    method BuildContent(fault: Fault) returns (content: Result<string, Exception>)
      requires kind == CsvKind ==> process.startDate.Some? && process.endDate.Some?
      modifies process
      ensures content == ContentOf(kind, old(process.Snapshot()), ledger.rows, locale, fault)
      ensures kind == CsvKind && !fault.BuildRaises? ==>
                var n := |ReportClockings(old(process.Snapshot()), ledger.rows)|;
                process.Snapshot() == old(process.Snapshot()).(progress := if n == 0 then old(process.progress) else 100) &&
                process.progressLog == old(process.progressLog) + (if n == 0 then [] else ProgressSeries(n, n))
      ensures kind == BaseKind || fault.BuildRaises? ==>
                process.Snapshot() == old(process.Snapshot()) && process.progressLog == old(process.progressLog)
      ensures process.progressLog == old(process.progressLog) + BuildLog(kind, old(process.Snapshot()), ledger.rows, fault)
    {
      match kind {
        case BaseKind =>
          content := Err(NotImplementedError(NotImplementedMessage));
        case CsvKind =>
          content := CsvReports.BuildContent(process, ledger, locale, fault);
      }
    }

    /** `attach_file`: completes the process with `body` attached, unless
        the storage raises first. */
    method AttachFile(body: string, fault: Fault) returns (raised: Option<Exception>)
      modifies process
      ensures raised == AttachError(fault)
      ensures raised.None? ==> process.Snapshot() == MarkedCompleted(old(process.Snapshot()), body)
      ensures raised.Some? ==> process.Snapshot() == old(process.Snapshot())
      ensures process.progressLog == old(process.progressLog)
    {
      raised := AttachError(fault);
      if raised.None? {
        process.MarkAsCompleted(body);
      }
    }
  }
}
