/** `Reports::ReportFactory.create(type, report_process)`: the type, a symbol
    or a string, selects the report class; only "csv" is known. The job
    builds the report through the factory before calling `generate`, so an
    unknown type raises before the process is touched. */
module ReportFactory {
  import opened Common
  import opened Clockings
  import opened DateTimeFormatter
  import opened ReportProcesses
  import opened BaseReports

  /** The `type` argument: `:csv` or `"csv"`. Both `to_sym` and string
      interpolation give back the same name. */
  datatype TypeArg = Symbol(name: string) | Str(name: string)

  const UnknownTypePrefix: string := "Unknown report type: "

  /** The kind `create` picks for `type`, or the `ArgumentError` it raises. */
  function KindFor(t: TypeArg): (r: Result<ReportKind, Exception>)
    ensures r.Ok? <==> t.name == "csv"
    ensures r.Ok? ==> r.value == CsvKind
    ensures r.Err? ==> r.error.ArgumentError? && |r.error.message| == |UnknownTypePrefix| + |t.name|
    ensures r.Err? ==> r.error.message[..|UnknownTypePrefix|] == UnknownTypePrefix
    ensures r.Err? ==> r.error.message[|UnknownTypePrefix|..] == t.name
  {
    if t.name == "csv" then Ok(CsvKind) else Err(ArgumentError(UnknownTypePrefix + t.name))
  }

  /** A symbol and a string of the same name select the same report. */
  lemma SymbolOrString(name: string)
    ensures KindFor(Symbol(name)) == KindFor(Str(name))
  {
  }

  /** The factory never hands out the abstract base report. */
  lemma NeverBase(t: TypeArg)
    ensures KindFor(t) != Ok(BaseKind)
  {
  }

  /** `create(:pdf, ...)` raises "Unknown report type: pdf". */
  lemma UnknownTypeExample()
    ensures KindFor(Symbol("pdf")) == Err(ArgumentError("Unknown report type: pdf"))
  {
    assert UnknownTypePrefix + "pdf" == "Unknown report type: pdf";
  }

  /** `create`: a new CSV report over `process`, or the `ArgumentError`. */
  method Create(t: TypeArg, process: ReportProcess, ledger: ClockingLedger, locale: Locale)
    returns (r: Result<Report, Exception>)
    ensures KindFor(t).Err? <==> r.Err?
    ensures r.Err? ==> r.error == KindFor(t).error
    ensures r.Ok? ==> fresh(r.value) && r.value.kind == CsvKind && r.value.process == process
    ensures r.Ok? ==> r.value.ledger == ledger && r.value.locale == locale
  {
    var kind := KindFor(t);
    if kind.Err? {
      return Err(kind.error);
    }
    var report := new Report(kind.value, process, ledger, locale);
    r := Ok(report);
  }
}
