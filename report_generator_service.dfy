/** `ReportGeneratorService`: the older report path. Its `call` has the same
    shape as `BaseReport#generate`, and its CSV extends the builder's rows
    with a status and an observations cell. The clockings are fetched once
    and memoized in the service. */
module ReportGeneratorServices {
  import opened Common
  import opened Text
  import opened Calendar
  import opened Clockings
  import opened ClockingQueries
  import opened DateTimeFormatter
  import opened WorkTimeCalculator
  import opened Progress
  import opened ReportProcesses
  import opened CsvBuilders
  import opened CsvReports
  import opened BaseReports

  // ---------------------------------------------------------------------
  // Status
  // ---------------------------------------------------------------------

  /** `clocking_status`: "Aberto" while open; otherwise the duration is
      tested against the inclusive ranges 0..14400, 14400..28800 and
      28800..32400 in that order, so each shared bound belongs to the
      earlier range; anything else, negative durations included, is
      "Hora Extra". */
  function ClockingStatus(c: Clocking): string
  {
    if c.IsOpen() then "Aberto"
    else
      var duration := SecondsWorked(c);
      if 0 <= duration <= 14400 then "Parcial"
      else if 14400 <= duration <= 28800 then "Normal"
      else if 28800 <= duration <= 32400 then "Completo"
      else "Hora Extra"
  }

  /** Each category as a half-open range of durations. */
  lemma StatusClassification(c: Clocking)
    ensures c.IsOpen() <==> ClockingStatus(c) == "Aberto"
    ensures !c.IsOpen() ==> (ClockingStatus(c) == "Parcial" <==> 0 <= SecondsWorked(c) <= 14400)
    ensures !c.IsOpen() ==> (ClockingStatus(c) == "Normal" <==> 14400 < SecondsWorked(c) <= 28800)
    ensures !c.IsOpen() ==> (ClockingStatus(c) == "Completo" <==> 28800 < SecondsWorked(c) <= 32400)
    ensures !c.IsOpen() ==> (ClockingStatus(c) == "Hora Extra" <==> SecondsWorked(c) < 0 || SecondsWorked(c) > 32400)
  {
  }

  /** Exactly 4, 8 and 9 hours fall into the shorter category. */
  lemma StatusBoundaries(u: int, t: Timestamp)
    ensures ClockingStatus(Clocking(u, Some(t), Some(t + 14400))) == "Parcial"
    ensures ClockingStatus(Clocking(u, Some(t), Some(t + 28800))) == "Normal"
    ensures ClockingStatus(Clocking(u, Some(t), Some(t + 32400))) == "Completo"
    ensures ClockingStatus(Clocking(u, Some(t), Some(t + 32401))) == "Hora Extra"
  {
  }

  /** A longer closed shift never gets an earlier category. */
  lemma StatusMonotone(a: Clocking, b: Clocking)
    requires !a.IsOpen() && !b.IsOpen()
    requires 0 <= SecondsWorked(a) <= SecondsWorked(b)
    ensures StatusRank(ClockingStatus(a)) <= StatusRank(ClockingStatus(b))
  {
  }

  /** The categories of closed clockings, shortest first. */
  function StatusRank(status: string): nat
  {
    if status == "Parcial" then 0
    else if status == "Normal" then 1
    else if status == "Completo" then 2
    else 3
  }

  // ---------------------------------------------------------------------
  // Observations
  // ---------------------------------------------------------------------

  /** Every observation `clocking_observations` can list. */
  const Notes: seq<string> :=
    ["Ponto não fechado", "Jornada incompleta", "Jornada excessiva", "Entrada tardia", "Saída antecipada"]

  /** The items of `clocking_observations`, before they are joined. An open
      clocking gets "Ponto não fechado" only. A closed one gets at most one
      note on its length (under 4 hours, over 10 hours), then "Entrada
      tardia" when it began at 10:00 or later in local time, then "Saída
      antecipada" when it ended before 17:00. A closed clocking without a
      clock-in, which is never fetched, gets no "Entrada tardia". */
  function ObservationItems(c: Clocking): seq<string>
  {
    if c.IsOpen() then ["Ponto não fechado"]
    else LengthNote(SecondsWorked(c)) + LateNote(c) + EarlyNote(c)
  }

  /** At most one note on the length of a closed shift. */
  function LengthNote(duration: int): seq<string>
  {
    if duration < 14400 then ["Jornada incompleta"]
    else if duration > 36000 then ["Jornada excessiva"]
    else []
  }

  function LateNote(c: Clocking): seq<string>
  {
    if c.clockIn.Some? && Local(c.clockIn.value).hour > 9 then ["Entrada tardia"] else []
  }

  function EarlyNote(c: Clocking): seq<string>
    requires c.clockOut.Some?
  {
    if Local(c.clockOut.value).hour < 17 then ["Saída antecipada"] else []
  }

  /** The five notes are different strings. */
  lemma NotesDistinct()
    ensures forall i, j :: 0 <= i < j < |Notes| ==> Notes[i] != Notes[j]
  {
    assert Notes[0][0] == 'P' && Notes[1][0] == 'J' && Notes[2][0] == 'J' && Notes[3][0] == 'E' && Notes[4][0] == 'S';
    assert Notes[1][8] == 'i' && Notes[2][8] == 'e';
  }

  /** An open clocking gets "Ponto não fechado" and nothing else. */
  lemma OpenObservation(c: Clocking)
    requires c.IsOpen()
    ensures ObservationItems(c) == [Notes[0]]
  {
  }

  /** Which notes a closed clocking gets, each by its own condition, and
      never "Ponto não fechado". */
  lemma ClosedObservations(c: Clocking)
    requires !c.IsOpen()
    ensures var items := ObservationItems(c);
            Notes[0] !in items &&
            (Notes[1] in items <==> SecondsWorked(c) < 14400) &&
            (Notes[2] in items <==> SecondsWorked(c) > 36000) &&
            (Notes[3] in items <==> c.clockIn.Some? && Local(c.clockIn.value).hour > 9) &&
            (Notes[4] in items <==> Local(c.clockOut.value).hour < 17)
  {
    var length, late, early := LengthNote(SecondsWorked(c)), LateNote(c), EarlyNote(c);
    assert ObservationItems(c) == length + late + early;
    LengthNoteHas(SecondsWorked(c));
    LateNoteHas(c);
    EarlyNoteHas(c);
  }

  lemma LengthNoteHas(duration: int)
    ensures Notes[1] in LengthNote(duration) <==> duration < 14400
    ensures Notes[2] in LengthNote(duration) <==> duration > 36000
    ensures Notes[0] !in LengthNote(duration) && Notes[3] !in LengthNote(duration) && Notes[4] !in LengthNote(duration)
  {
    NotesDistinct();
  }

  lemma LateNoteHas(c: Clocking)
    ensures Notes[3] in LateNote(c) <==> c.clockIn.Some? && Local(c.clockIn.value).hour > 9
    ensures Notes[0] !in LateNote(c) && Notes[1] !in LateNote(c) && Notes[2] !in LateNote(c) && Notes[4] !in LateNote(c)
  {
    NotesDistinct();
  }

  lemma EarlyNoteHas(c: Clocking)
    requires c.clockOut.Some?
    ensures Notes[4] in EarlyNote(c) <==> Local(c.clockOut.value).hour < 17
    ensures Notes[0] !in EarlyNote(c) && Notes[1] !in EarlyNote(c) && Notes[2] !in EarlyNote(c) && Notes[3] !in EarlyNote(c)
  {
    NotesDistinct();
  }

  /** At most three notes, all from `Notes`, in the order of `Notes`. */
  lemma ObservationShape(c: Clocking)
    ensures var items := ObservationItems(c);
            |items| <= 3 && (forall k :: 0 <= k < |items| ==> items[k] in Notes) &&
            (forall j, k :: 0 <= j < k < |items| ==> NoteRank(items[j]) < NoteRank(items[k]))
  {
    if !c.IsOpen() {
      var length, late, early := LengthNote(SecondsWorked(c)), LateNote(c), EarlyNote(c);
      assert ObservationItems(c) == length + late + early;
      LengthNoteRank(SecondsWorked(c));
      LateNoteRank(c);
      EarlyNoteRank(c);
      OrderedParts(length, late, early);
    }
  }

  lemma LengthNoteRank(duration: int)
    ensures var n := LengthNote(duration);
            |n| <= 1 && forall k :: 0 <= k < |n| ==> n[k] in Notes && NoteRank(n[k]) <= 2
  {
    NoteRanks();
    var n := LengthNote(duration);
    assert n == [] || n == [Notes[1]] || n == [Notes[2]];
  }

  lemma LateNoteRank(c: Clocking)
    ensures var n := LateNote(c);
            |n| <= 1 && forall k :: 0 <= k < |n| ==> n[k] in Notes && NoteRank(n[k]) == 3
  {
    NoteRanks();
    var n := LateNote(c);
    assert n == [] || n == [Notes[3]];
  }

  lemma EarlyNoteRank(c: Clocking)
    requires c.clockOut.Some?
    ensures var n := EarlyNote(c);
            |n| <= 1 && forall k :: 0 <= k < |n| ==> n[k] in Notes && NoteRank(n[k]) == 4
  {
    NoteRanks();
    var n := EarlyNote(c);
    assert n == [] || n == [Notes[4]];
  }

  /** Up to one note of rank at most 2, then up to one of rank 3, then up to
      one of rank 4, are in rank order. */
  lemma OrderedParts(length: seq<string>, late: seq<string>, early: seq<string>)
    requires |length| <= 1 && |late| <= 1 && |early| <= 1
    requires forall k :: 0 <= k < |length| ==> length[k] in Notes && NoteRank(length[k]) <= 2
    requires forall k :: 0 <= k < |late| ==> late[k] in Notes && NoteRank(late[k]) == 3
    requires forall k :: 0 <= k < |early| ==> early[k] in Notes && NoteRank(early[k]) == 4
    ensures var items := length + late + early;
            |items| <= 3 && (forall k :: 0 <= k < |items| ==> items[k] in Notes) &&
            (forall j, k :: 0 <= j < k < |items| ==> NoteRank(items[j]) < NoteRank(items[k]))
  {
    var items := length + late + early;
    var l, a := |length|, |late|;
    forall k | 0 <= k < |items|
      ensures items[k] in Notes
      ensures k < l ==> NoteRank(items[k]) <= 2
      ensures l <= k < l + a ==> NoteRank(items[k]) == 3
      ensures l + a <= k ==> NoteRank(items[k]) == 4
    {
      if k < l {
        assert items[k] == length[k];
      } else if k < l + a {
        assert items[k] == late[k - l];
      } else {
        assert items[k] == early[k - l - a];
      }
    }
  }

  lemma NoteRanks()
    ensures forall k :: 0 <= k < |Notes| ==> NoteRank(Notes[k]) == k
  {
    NotesDistinct();
  }

  /** The position of a note in `Notes`. */
  function NoteRank(note: string): nat
  {
    if note == Notes[0] then 0
    else if note == Notes[1] then 1
    else if note == Notes[2] then 2
    else if note == Notes[3] then 3
    else 4
  }

  /** A shift is never both incomplete and excessive. */
  lemma LengthNotesExclusive(c: Clocking)
    ensures !(Notes[1] in ObservationItems(c) && Notes[2] in ObservationItems(c))
  {
    if c.IsOpen() {
      OpenObservation(c);
      NotesDistinct();
    } else {
      ClosedObservations(c);
    }
  }

  /** The hour checks read as times of day: "late" is a clock-in at
      10:00:00 or later, "early" a clock-out before 17:00:00. */
  lemma HourChecksAsTimeOfDay(t: Timestamp)
    ensures Local(t).hour > 9 <==> SecondOfDay(t) >= 36000
    ensures Local(t).hour < 17 <==> SecondOfDay(t) < 61200
  {
    var lt := Local(t);
    assert lt.minute * 60 + lt.second < 3600;
  }

  /** `clocking_observations`: the items joined with "; ". */
  function Observations(c: Clocking): string
  {
    Join(ObservationItems(c), "; ")
  }

  /** The cell is empty exactly when no note applies, and otherwise splits
      back into its items. */
  lemma ObservationsReadBack(c: Clocking)
    ensures Observations(c) == "" <==> ObservationItems(c) == []
    ensures ObservationItems(c) != [] ==> Split(Observations(c), "; ") == ObservationItems(c)
  {
    var items := ObservationItems(c);
    ObservationShape(c);
    if items != [] {
      assert forall k :: 0 <= k < |Notes| ==> ';' !in Notes[k];
      SplitJoin(items, "; ");
    }
  }

  // ---------------------------------------------------------------------
  // Rows and table
  // ---------------------------------------------------------------------

  /** `calculate_hours_worked`: its own zero guard before `format_duration`. */
  function ServiceHoursWorked(c: Clocking): (r: string)
    ensures r == HoursWorked(c)
  {
    var seconds := SecondsWorked(c);
    if seconds == 0 then "-" else Duration(seconds)
  }

  /** `build_csv_row`: seven cells. */
  function ServiceRow(c: Clocking, locale: Locale): (row: seq<string>)
    ensures |row| == 7
  {
    [Date(c.clockIn), Weekday(c.clockIn, locale), Time(c.clockIn), Time(c.clockOut),
     ServiceHoursWorked(c), ClockingStatus(c), Observations(c)]
  }

  /** The last two cells are the status and the observations. */
  lemma ServiceRowCells(c: Clocking, locale: Locale)
    ensures ServiceRow(c, locale)[5..] == [ClockingStatus(c), Observations(c)]
  {
  }

  /** The first five cells are the builder's row for the same clocking. */
  lemma ServiceRowExtendsBuildRow(c: Clocking, locale: Locale)
    ensures ServiceRow(c, locale)[..5] == BuildRow(c, locale)
  {
    var date, weekday, clockIn, clockOut := Date(c.clockIn), Weekday(c.clockIn, locale), Time(c.clockIn), Time(c.clockOut);
    var hours := HoursWorked(c);
    assert ServiceHoursWorked(c) == hours;
    assert BuildRow(c, locale) == [date, weekday, clockIn, clockOut, hours];
    assert ServiceRow(c, locale) == [date, weekday, clockIn, clockOut, hours] + [ClockingStatus(c), Observations(c)];
  }

  /** The data rows of `generate_csv_data`, one per clocking. */
  function ServiceDataRows(cs: seq<Clocking>, locale: Locale): (rows: seq<seq<string>>)
    ensures |rows| == |cs|
  {
    MapSeq(cs, c => ServiceRow(c, locale))
  }

  /** Row `i` is the row of clocking `i`: the rows keep the fetch order. */
  lemma ServiceDataRowsAt(cs: seq<Clocking>, locale: Locale, i: nat)
    requires i < |cs|
    ensures ServiceDataRows(cs, locale)[i] == ServiceRow(cs[i], locale)
  {
  }

  lemma ServiceDataRowsStep(cs: seq<Clocking>, i: nat, locale: Locale)
    requires i < |cs|
    ensures ServiceDataRows(cs[..i + 1], locale) == ServiceDataRows(cs[..i], locale) + [ServiceRow(cs[i], locale)]
  {
    assert cs[..i + 1][..i] == cs[..i];
    var f := c => ServiceRow(c, locale);
    assert MapSeq(cs[..i + 1], f) == MapSeq(cs[..i + 1][..i], f) + [f(cs[..i + 1][i])];
  }

  /** The whole table: the builder's header row, the seven-cell rows, and
      the builder's summary row (`csv_headers` and `build_summary_row` hold
      the same cells as `HEADERS` and `add_summary_row`). */
  function ServiceTable(cs: seq<Clocking>, locale: Locale): (t: seq<seq<string>>)
    ensures |t| == |cs| + 2
    ensures t[0] == Headers && t[|cs| + 1] == SummaryRow(cs)
  {
    [Headers] + ServiceDataRows(cs, locale) + [SummaryRow(cs)]
  }

  /** Data row `i` of the table belongs to clocking `i`. */
  lemma ServiceTableRow(cs: seq<Clocking>, locale: Locale, i: nat)
    requires i < |cs|
    ensures ServiceTable(cs, locale)[i + 1] == ServiceRow(cs[i], locale)
  {
    var rows := ServiceDataRows(cs, locale);
    assert ServiceTable(cs, locale)[i + 1] == rows[i];
    ServiceDataRowsAt(cs, locale, i);
  }

  /** Over the same clockings, the service's table is the builder's table
      with a status and an observations cell added to every data row; the
      header and summary rows are the same (`ServiceTable` and
      `ReportTable` both put `Headers` first and `SummaryRow` last). */
  lemma ServiceTableExtendsReportTable(cs: seq<Clocking>, locale: Locale, i: nat)
    requires i < |cs|
    ensures ServiceTable(cs, locale)[i + 1][..5] == ReportTable(cs, locale)[i + 1]
    ensures ServiceTable(cs, locale)[i + 1][5..] == [ClockingStatus(cs[i]), Observations(cs[i])]
  {
    ServiceTableRow(cs, locale, i);
    ReportTableRow(cs, locale, i);
    ServiceRowExtendsBuildRow(cs[i], locale);
    ServiceRowCells(cs[i], locale);
  }

  // ---------------------------------------------------------------------
  // The service
  // ---------------------------------------------------------------------

  /** One service over one process. `batch` is `@clockings_batch`. */
  class ReportGeneratorService {
    const process: ReportProcess
    const ledger: ClockingLedger
    const locale: Locale
    var batch: Option<seq<Clocking>>

    /** The clockings `clockings_batch` gives: the memoized batch, or the
        fetch over the process's user and window. */
    function Batch(): (cs: seq<Clocking>)
      requires process.startDate.Some? && process.endDate.Some?
      reads this, process, ledger
    {
      if batch.Some? then batch.value else ReportClockings(process.Snapshot(), ledger.rows)
    }

    constructor (process: ReportProcess, ledger: ClockingLedger, locale: Locale)
      ensures this.process == process && this.ledger == ledger && this.locale == locale
      ensures batch.None?
    {
      this.process := process;
      this.ledger := ledger;
      this.locale := locale;
      batch := None;
    }

    /** `call`: like `generate`, with the service's table as the content.
        The clockings are fetched after the process is marked processing;
        user and window are not changed by that, so the fetch is the one
        over the process as it was. */
    method Call(fault: Fault) returns (outcome: Outcome)
      requires process.startDate.Some? && process.endDate.Some?
      modifies this, process
      ensures var cs := old(Batch());
              var content := if fault.BuildRaises? then Err(fault.error) else Ok(CsvText(ServiceTable(cs, locale)));
              var g := GenerateSpec(old(process.Snapshot()), content, AttachError(fault));
              process.Snapshot() == g.state && outcome == g.outcome
      ensures var n := |old(Batch())|;
              !fault.BuildRaises? && n > 0 ==> process.progressLog == old(process.progressLog) + ProgressSeries(n, n)
      ensures fault.BuildRaises? || |old(Batch())| == 0 ==> process.progressLog == old(process.progressLog)
      ensures !fault.BuildRaises? ==> batch == Some(old(Batch()))
      ensures fault.BuildRaises? ==> batch == old(batch)
    {
      ghost var cs := Batch();
      process.MarkAsProcessing();
      assert Batch() == cs;
      if fault.BuildRaises? {
        if fault.error.IsStandardError() {
          process.MarkAsFailed(fault.error.message);
        }
        return Raised(fault.error);
      }
      var text := GenerateCsvData();
      var raised := AttachCsvFile(text, fault);
      if raised.Some? {
        process.MarkAsFailed(raised.value.message);
        outcome := Raised(raised.value);
      } else {
        outcome := Returned;
      }
    }

    /** `generate_csv_data`: the table's text. After each data row the
        process records the share of rows done. */
    method GenerateCsvData() returns (text: string)
      requires process.startDate.Some? && process.endDate.Some?
      modifies this, process
      ensures batch == Some(old(Batch()))
      ensures text == CsvText(ServiceTable(old(Batch()), locale))
      ensures var n := |old(Batch())|;
              process.Snapshot() == old(process.Snapshot()).(progress := if n == 0 then old(process.progress) else 100) &&
              process.progressLog == old(process.progressLog) + (if n == 0 then [] else ProgressSeries(n, n))
    {
      var cs := ClockingsBatch();
      var data := AddServiceRows(cs);
      text := CsvText([Headers] + data + [SummaryRow(cs)]);
    }

    /** The `each_with_index` loop of `generate_csv_data`: one row per
        clocking, each followed by a progress update over `|cs|` rows. */
    method AddServiceRows(cs: seq<Clocking>) returns (data: seq<seq<string>>)
      modifies process
      ensures data == ServiceDataRows(cs, locale)
      ensures var n := |cs|;
              process.Snapshot() == old(process.Snapshot()).(progress := if n == 0 then old(process.progress) else 100) &&
              process.progressLog == old(process.progressLog) + (if n == 0 then [] else ProgressSeries(n, n))
    {
      var n := |cs|;
      ghost var before, logBefore := process.Snapshot(), process.progressLog;
      data := [];
      var i := 0;
      while i < n
        invariant 0 <= i <= n
        invariant data == ServiceDataRows(cs[..i], locale)
        invariant process.Snapshot() == before.(progress := process.progress)
        invariant i == 0 ==> process.progress == before.progress
        invariant i > 0 ==> process.progress == Percentage(i, n)
        invariant i == 0 ==> process.progressLog == logBefore
        invariant n > 0 ==> process.progressLog == logBefore + ProgressSeries(i, n)
      {
        ServiceDataRowsStep(cs, i, locale);
        data := data + [ServiceRow(cs[i], locale)];
        UpdateProgress(i + 1, n);
        SeriesStep(logBefore, i, n);
        i := i + 1;
      }
      if n > 0 {
        PercentageComplete(n);
      }
      assert cs[..n] == cs;
    }

    /** `clockings_batch`: fetches on first use and memoizes. */
    method ClockingsBatch() returns (cs: seq<Clocking>)
      requires process.startDate.Some? && process.endDate.Some?
      modifies this`batch
      ensures cs == old(Batch())
      ensures batch == Some(cs)
    {
      if batch.None? {
        batch := Some(ReportClockings(process.Snapshot(), ledger.rows));
      }
      cs := batch.value;
    }

    /** `attach_csv_file`: completes the process with the text attached,
        unless the storage raises first. */
    method AttachCsvFile(text: string, fault: Fault) returns (raised: Option<Exception>)
      modifies process
      ensures raised == AttachError(fault)
      ensures raised.None? ==> process.Snapshot() == MarkedCompleted(old(process.Snapshot()), text)
      ensures raised.Some? ==> process.Snapshot() == old(process.Snapshot())
      ensures process.progressLog == old(process.progressLog)
    {
      raised := AttachError(fault);
      if raised.None? {
        process.MarkAsCompleted(text);
      }
    }

    /** `update_progress(current, total)`: nothing when the total is 0,
        otherwise the rounded share of `current` rows. */
    method UpdateProgress(current: nat, total: nat)
      requires current <= total
      modifies process
      ensures total == 0 ==> process.Snapshot() == old(process.Snapshot())
      ensures total == 0 ==> process.progressLog == old(process.progressLog)
      ensures total > 0 ==> process.progress == Percentage(current, total)
      ensures process.Snapshot() == old(process.Snapshot()).(progress := process.progress)
      ensures total > 0 ==> process.progressLog == old(process.progressLog) + [process.progress]
    {
      if total == 0 {
        return;
      }
      var percentage := Percentage(current, total);
      PercentageAtMost100(current, total);
      process.UpdateProgress(percentage);
    }
  }
}
