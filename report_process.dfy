/** `ReportProcess`: the record that tracks one report generation — its
    status, progress, error message, attached file, date window and public
    `process_id`. Pure functions on `ProcessState` say what each transition
    does; the `ReportProcess` class performs them in place. */
module ReportProcesses {
  import opened Common
  import opened Text
  import opened Calendar

  datatype Status = Queued | Processing | Completed | Failed
  {
    /** The string the `status` column stores. */
    function Name(): string
    {
      match this
      case Queued => "queued"
      case Processing => "processing"
      case Completed => "completed"
      case Failed => "failed"
    }

    predicate IsTerminal() { this == Completed || this == Failed }
  }

  /** The column values are pairwise distinct, so the status reads back
      from its name. */
  lemma StatusNamesDistinct(a: Status, b: Status)
    ensures a.Name() == b.Name() <==> a == b
  {
  }

  /** The `csv_file` attachment. */
  datatype Attachment = Attachment(filename: string, contentType: string, body: string)

  /** The columns of a report process and its attachment slot. The dates,
      the id and the error message may be nil. */
  datatype ProcessState = ProcessState(
    processId: Option<string>,
    userId: int,
    startDate: Option<Day>,
    endDate: Option<Day>,
    status: Status,
    progress: int,
    errorMessage: Option<string>,
    csvFile: Option<Attachment>)

  /** `"report_#{process_id}.csv"`; a nil id interpolates as "". The id
      reads back from between the prefix and the extension. */
  function ReportFileName(processId: Option<string>): (name: string)
    ensures |name| >= 11 && name[..7] == "report_" && name[|name| - 4..] == ".csv"
    ensures name[7..|name| - 4] == if processId.Some? then processId.value else ""
  {
    "report_" + (if processId.Some? then processId.value else "") + ".csv"
  }

  /** A record as `create` builds it: status "queued", progress 0 (the
      column defaults), no id, no error, no file. */
  function NewProcess(userId: int, startDate: Option<Day>, endDate: Option<Day>): (st: ProcessState)
    ensures st.status == Queued && st.progress == 0
    ensures st.processId.None? && st.errorMessage.None? && st.csvFile.None?
    ensures st.userId == userId && st.startDate == startDate && st.endDate == endDate
  {
    ProcessState(None, userId, startDate, endDate, Queued, 0, None, None)
  }

  /** `mark_as_processing!`: status processing and progress 0, from any
      status; nothing else changes. */
  function MarkedProcessing(st: ProcessState): (r: ProcessState)
    ensures r.status == Processing && r.progress == 0
    ensures r.(status := st.status, progress := st.progress) == st
  {
    st.(status := Processing, progress := 0)
  }

  /** `mark_as_completed!(file_io)`: attaches the body as
      `report_<process_id>.csv` of type text/csv, then sets status completed,
      progress 100 and clears the error message. */
  function MarkedCompleted(st: ProcessState, body: string): (r: ProcessState)
    ensures r.status == Completed && r.progress == 100 && r.errorMessage.None?
    ensures r.csvFile == Some(Attachment(ReportFileName(st.processId), "text/csv", body))
    ensures r.(status := st.status, progress := st.progress, errorMessage := st.errorMessage, csvFile := st.csvFile) == st
  {
    st.(csvFile := Some(Attachment(ReportFileName(st.processId), "text/csv", body)),
        status := Completed, progress := 100, errorMessage := None)
  }

  /** `mark_as_failed!(error)`: status failed, the error's message verbatim,
      progress 0. The attachment is left as it was. */
  function MarkedFailed(st: ProcessState, message: string): (r: ProcessState)
    ensures r.status == Failed && r.progress == 0 && r.errorMessage == Some(message)
    ensures r.csvFile == st.csvFile
    ensures r.(status := st.status, progress := st.progress, errorMessage := st.errorMessage) == st
  {
    st.(status := Failed, errorMessage := Some(message), progress := 0)
  }

  /** `update_progress!(percentage)`: stores the percentage clamped to
      0..100; nothing else changes. */
  function ProgressUpdated(st: ProcessState, percentage: int): (r: ProcessState)
    ensures 0 <= r.progress <= 100
    ensures 0 <= percentage <= 100 ==> r.progress == percentage
    ensures percentage < 0 ==> r.progress == 0
    ensures percentage > 100 ==> r.progress == 100
    ensures r.(progress := st.progress) == st
  {
    st.(progress := Clamp(percentage, 0, 100))
  }

  /** `file_ready?`. */
  predicate IsFileReady(st: ProcessState)
  {
    st.status == Completed && st.csvFile.Some?
  }

  /** `file_size`: 0 without an attachment, otherwise the byte size of the
      attached body, at least one byte per character and at most four. */
  function FileSizeOf(st: ProcessState): (n: nat)
    ensures st.csvFile.None? ==> n == 0
    ensures st.csvFile.Some? ==> |st.csvFile.value.body| <= n <= 4 * |st.csvFile.value.body|
  {
    if st.csvFile.None? then 0 else Utf8Size(st.csvFile.value.body)
  }

  /** Completing always leaves the file ready, with the body's size. */
  lemma CompletedIsReady(st: ProcessState, body: string)
    ensures IsFileReady(MarkedCompleted(st, body))
    ensures FileSizeOf(MarkedCompleted(st, body)) == Utf8Size(body)
  {
  }

  /** A failed process is never ready, even when it keeps an old file; a
      process being (re)built is not ready either; a progress update does not
      change readiness. */
  lemma OnlyCompletedIsReady(st: ProcessState, message: string, percentage: int)
    ensures !IsFileReady(MarkedFailed(st, message))
    ensures !IsFileReady(MarkedProcessing(st))
    ensures IsFileReady(ProgressUpdated(st, percentage)) == IsFileReady(st)
  {
  }

  lemma ProgressExamples(st: ProcessState)
    ensures ProgressUpdated(st, -10).progress == 0
    ensures ProgressUpdated(st, 150).progress == 100
    ensures ProgressUpdated(st, 75).progress == 75
  {
  }

  // ---------------------------------------------------------------------
  // Validations
  // ---------------------------------------------------------------------

  /** `end_date_after_start_date`: skipped when either date is nil; an end
      date before the start date is an error on `end_date`. */
  function WindowErrors(st: ProcessState): (errs: seq<FieldError>)
    ensures errs != [] <==> st.startDate.Some? && st.endDate.Some? && st.endDate.value < st.startDate.value
    ensures errs != [] ==> errs == [FieldError("end_date", "must be after start date")]
  {
    if st.endDate.None? || st.startDate.None? then []
    else if st.endDate.value < st.startDate.value then [FieldError("end_date", "must be after start date")]
    else []
  }

  /** A one-day window, start and end on the same date, is valid. */
  lemma SameDayWindowValid(st: ProcessState)
    requires st.startDate.Some? && st.startDate == st.endDate
    ensures WindowErrors(st) == []
  {
  }

  /** Rails' `blank?` on a string: empty or only white space. */
  predicate IsBlank(s: string)
  {
    forall i :: 0 <= i < |s| ==> s[i] in {' ', '\t', '\n', '\r', '\U{B}', '\U{C}'}
  }

  /** `validates :process_id, presence: true, uniqueness: true`, against the
      ids other records already hold. */
  function ProcessIdErrors(processId: Option<string>, takenIds: set<string>): (errs: seq<FieldError>)
    ensures errs == [] <==> processId.Some? && !IsBlank(processId.value) && processId.value !in takenIds
  {
    (if processId.None? || IsBlank(processId.value) then [FieldError("process_id", "can't be blank")] else [])
    + (if processId.Some? && processId.value in takenIds then [FieldError("process_id", "has already been taken")] else [])
  }

  /** `validates :start_date, :end_date, presence: true`. */
  function DatePresenceErrors(st: ProcessState): (errs: seq<FieldError>)
    ensures errs == [] <==> st.startDate.Some? && st.endDate.Some?
  {
    (if st.startDate.None? then [FieldError("start_date", "can't be blank")] else [])
    + (if st.endDate.None? then [FieldError("end_date", "can't be blank")] else [])
  }

  /** All the record's validations, in declaration order: the required
      user, the id, the dates and the window. The status always holds one of
      the four values, so its presence check never fails. */
  function ValidationErrors(st: ProcessState, users: set<int>, takenIds: set<string>): (errs: seq<FieldError>)
    ensures errs == [] <==>
            st.userId in users &&
            st.processId.Some? && !IsBlank(st.processId.value) && st.processId.value !in takenIds &&
            st.startDate.Some? && st.endDate.Some? && st.startDate.value <= st.endDate.value
    ensures st.userId !in users ==> FieldError("user", "must exist") in errs
  {
    UserErrors(st.userId, users) + ProcessIdErrors(st.processId, takenIds) + DatePresenceErrors(st) + WindowErrors(st)
  }

  /** `self.process_id ||= SecureRandom.uuid`: an id already set, even a
      blank one, is never replaced. The uuid is a parameter. */
  function AssignedId(current: Option<string>, uuid: string): (r: Option<string>)
    ensures r.Some?
    ensures current.Some? ==> r == current
    ensures current.None? ==> r.value == uuid
  {
    if current.Some? then current else Some(uuid)
  }

  /** A new record with both dates and a window that is not reversed
      validates once it has been given a fresh id. */
  lemma NewProcessValidates(userId: int, users: set<int>, s: Day, e: Day, uuid: string, takenIds: set<string>)
    requires userId in users && s <= e && !IsBlank(uuid) && uuid !in takenIds
    ensures ValidationErrors(NewProcess(userId, Some(s), Some(e)).(processId := AssignedId(None, uuid)), users, takenIds) == []
  {
  }

  /** The record, updated in place by its transition methods. Every value the
      progress column takes through `update_progress!` is appended to the
      ghost `progressLog`. */
  class ReportProcess {
    var processId: Option<string>
    var userId: int
    var startDate: Option<Day>
    var endDate: Option<Day>
    var status: Status
    var progress: int
    var errorMessage: Option<string>
    var csvFile: Option<Attachment>
    ghost var progressLog: seq<int>

    function Snapshot(): ProcessState
      reads this
    {
      ProcessState(processId, userId, startDate, endDate, status, progress, errorMessage, csvFile)
    }

    constructor (userId: int, startDate: Option<Day>, endDate: Option<Day>)
      ensures Snapshot() == NewProcess(userId, startDate, endDate)
      ensures progressLog == []
    {
      this.processId := None;
      this.userId := userId;
      this.startDate := startDate;
      this.endDate := endDate;
      this.status := Queued;
      this.progress := 0;
      this.errorMessage := None;
      this.csvFile := None;
      this.progressLog := [];
    }

    method MarkAsProcessing()
      modifies this
      ensures status == Processing && progress == 0
      ensures Snapshot() == MarkedProcessing(old(Snapshot()))
      ensures progressLog == old(progressLog)
    {
      status, progress := Processing, 0;
    }

    method MarkAsCompleted(body: string)
      modifies this
      ensures csvFile == Some(Attachment(ReportFileName(processId), "text/csv", body))
      ensures status == Completed && progress == 100 && errorMessage.None?
      ensures Snapshot() == MarkedCompleted(old(Snapshot()), body)
      ensures progressLog == old(progressLog)
    {
      csvFile := Some(Attachment(ReportFileName(processId), "text/csv", body));
      status, progress, errorMessage := Completed, 100, None;
    }

    method MarkAsFailed(message: string)
      modifies this
      ensures status == Failed && progress == 0 && errorMessage == Some(message)
      ensures Snapshot() == MarkedFailed(old(Snapshot()), message)
      ensures progressLog == old(progressLog)
    {
      status, errorMessage, progress := Failed, Some(message), 0;
    }

    method UpdateProgress(percentage: int)
      modifies this
      ensures progress == Clamp(percentage, 0, 100)
      ensures Snapshot() == ProgressUpdated(old(Snapshot()), percentage)
      ensures progressLog == old(progressLog) + [progress]
    {
      progress := Clamp(percentage, 0, 100);
      progressLog := progressLog + [progress];
    }

    /** `file_ready?`. */
    predicate FileReady()
      reads this
    {
      IsFileReady(Snapshot())
    }

    /** `file_size`. */
    function FileSize(): nat
      reads this
    {
      FileSizeOf(Snapshot())
    }

    /** `before_validation :generate_process_id, on: :create`. */
    method GenerateProcessId(uuid: string)
      modifies this
      ensures processId == AssignedId(old(processId), uuid)
      ensures Snapshot() == old(Snapshot()).(processId := processId)
      ensures progressLog == old(progressLog)
    {
      if processId.None? {
        processId := Some(uuid);
      }
    }

    /** `valid?` on create: the id is generated first, then every validation
        runs against the existing users and the ids other records hold. */
    method ValidateOnCreate(uuid: string, users: set<int>, takenIds: set<string>) returns (errors: seq<FieldError>)
      modifies this
      ensures processId == AssignedId(old(processId), uuid)
      ensures Snapshot() == old(Snapshot()).(processId := processId)
      ensures errors == ValidationErrors(Snapshot(), users, takenIds)
      ensures progressLog == old(progressLog)
    {
      GenerateProcessId(uuid);
      errors := UserErrors(userId, users) + ProcessIdErrors(processId, takenIds) + DatePresenceErrors(Snapshot()) + WindowErrors(Snapshot());
    }
  }
}
