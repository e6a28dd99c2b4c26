# Attendance reports: a Dafny model

This project models the report core of a Rails time-clock application. Users
clock in and out; a report process turns one user's clockings within a date
window into a CSV file. The model covers these pieces:

- the `ReportProcess` record and its in-place transitions, modelled as the
  class `ReportProcesses.ReportProcess` over the pure state transitions;
- the `Clocking` validations and the clockings table that `create` and
  `update` change (`Clockings.ClockingLedger`);
- the duration, date, time and weekday formatting of `DateTimeFormatter`, and
  the `WorkTimeCalculator` arithmetic;
- the two builders of the CSV table:
  - `Reports::Builders::CsvBuilder`, with five-cell data rows;
  - the older `ReportGeneratorService`, with seven-cell rows that add a status
    and an observations cell;
- the fetch of the clockings, as a window filter followed by a sort;
- the progress loop of each builder, which records the rounded share of rows
  done after every row;
- the generation pipeline: `BaseReport#generate`, `CsvReport#build_content`
  and `ReportFactory.create`.

## Modelling choices

- **Timestamps** are whole seconds on the local clock. A `Day` is a day
  number. `Calendar.Local` gives the local date and time fields through the
  civil-from-days conversion, and `Calendar.WeekdayIndex` gives the weekday.
- **Cells and text.** A cell is a `string`. The CSV text is rows of cells
  joined with "," and ended by "\n", with each empty cell written as `""`. A process's attachment is a body string
  with a file name and a content type. `file_size` is the UTF-8 length of the
  body.
- **Failures.** What can go wrong while building or attaching is a parameter,
  `Common.Fault`:
  - `BuildRaises(e)`: building raises `e` before the first row;
  - `AttachRaises(m)`: storage raises a `StandardError` with message `m`.
- **Exceptions.** An exception is a `Common.Exception`. Only `StandardError`s
  are rescued by `generate` and `call`, so `NotImplementedError` escapes
  them.
- **Progress.** `((current.to_f / total) * 100).round` is exact rational
  arithmetic rounded half up (`Progress.Percentage`). The ghost field
  `progressLog` of a process records every value `update_progress!` stores, so
  contracts can speak of the whole series a build records.
- **Report kinds.** Ruby's `BaseReport`/`CsvReport` subclassing becomes a
  `ReportKind` carried by the report; `build_content` dispatches on it.
- **Dates.** Persisted processes always have both dates (the columns are
  `NOT NULL`). The builders therefore require `startDate` and `endDate` to be
  present.

## Model

| member | source | states |
|---|---|---|
| ReportProcesses.NewProcess | app/models/report_process.rb:8-10 | a new record is queued with progress 0, no id, no error and no file, and keeps the given user and dates |
| ReportProcesses.ReportProcess.constructor | app/models/report_process.rb:8-10 | the object starts as `NewProcess` with an empty progress log |
| ReportProcesses.StatusNamesDistinct | app/models/report_process.rb:30 | the four enum strings are distinct: two statuses share a name iff they are equal |
| ReportProcesses.MarkedProcessing | app/models/report_process.rb:40-42 | status processing and progress 0 from any state; every other field is unchanged |
| ReportProcesses.ReportProcess.MarkAsProcessing | app/models/report_process.rb:40-42 | the object's new state is `MarkedProcessing` of the old one; the log is unchanged |
| ReportProcesses.ReportFileName | app/models/report_process.rb:47 | the name starts "report_", ends ".csv", and the id (or "" for nil) reads back from between them |
| ReportProcesses.MarkedCompleted | app/models/report_process.rb:44-56 | attaches `report_<id>.csv` of type text/csv with the body; status completed, progress 100, error cleared; nothing else changes |
| ReportProcesses.ReportProcess.MarkAsCompleted | app/models/report_process.rb:44-56 | the object's new state is `MarkedCompleted` of the old one |
| ReportProcesses.MarkedFailed | app/models/report_process.rb:58-64 | status failed, the message verbatim, progress 0; the attachment and all other fields are untouched |
| ReportProcesses.ReportProcess.MarkAsFailed | app/models/report_process.rb:58-64 | the object's new state is `MarkedFailed` of the old one |
| ReportProcesses.ProgressUpdated | app/models/report_process.rb:66-68 | the stored progress is the percentage clamped to 0..100; nothing else changes |
| ReportProcesses.ProgressExamples | app/models/report_process.rb:66-68 | -10 is stored as 0, 150 as 100, 75 as 75 |
| ReportProcesses.ReportProcess.UpdateProgress | app/models/report_process.rb:66-68 | the new state is `ProgressUpdated` of the old one and the stored value is appended to the log |
| ReportProcesses.FileSizeOf | app/models/report_process.rb:74-77 | 0 without an attachment; with one, between the body's length and four times that length (its UTF-8 size) |
| ReportProcesses.CompletedIsReady | app/models/report_process.rb:44-77 | after completion the file is ready and its size is the body's UTF-8 size |
| ReportProcesses.OnlyCompletedIsReady | app/models/report_process.rb:58-72 | a failed process is never ready, even when it keeps an old file; a process marked processing is never ready; a progress update does not change readiness |
| ReportProcesses.WindowErrors | app/models/report_process.rb:81-87 | an error on end_date "must be after start date" iff both dates are present and the end is before the start |
| ReportProcesses.SameDayWindowValid | app/models/report_process.rb:84 | equal start and end dates pass |
| ReportProcesses.ProcessIdErrors | app/models/report_process.rb:32 | no error iff the id is present, not blank and not held by another record |
| ReportProcesses.DatePresenceErrors | app/models/report_process.rb:33 | no error iff both dates are present |
| ReportProcesses.ValidationErrors | app/models/report_process.rb:26-36 | valid iff the user exists, the id is present, not blank and unique, both dates are present and start <= end; a missing user gives user "must exist" |
| ReportProcesses.AssignedId | app/models/report_process.rb:89-91 | an existing id is never replaced; a missing one becomes the uuid |
| ReportProcesses.NewProcessValidates | app/models/report_process.rb:26-91 | a new record of an existing user with an ordered window and a fresh non-blank uuid validates |
| ReportProcesses.ReportProcess.GenerateProcessId | app/models/report_process.rb:89-91 | the id becomes `AssignedId` of the old one; nothing else changes |
| ReportProcesses.ReportProcess.ValidateOnCreate | app/models/report_process.rb:32-38 | the id is generated first, then the errors are `ValidationErrors` of the new state |
| Clockings.PresenceErrors | app/models/clocking.rb:23 | no error iff clock_in is present; otherwise exactly clock_in "can't be blank" |
| Clockings.OrderingErrors | app/models/clocking.rb:32-38 | no error when either time is missing; an error "must be after clock in time" iff clock-out is strictly before clock-in |
| Clockings.IntendedOrderingErrors | app/models/clocking.rb:32-38 | the corrected check: an error iff clock-out is at or before clock-in |
| Clockings.EqualTimestampsPass | app/models/clocking.rb:35 | a clocking that closes at its opening second passes the check as written and fails the corrected one |
| Clockings.IntendedDiffersOnlyOnEqual | app/models/clocking.rb:35 | the two checks agree on every clocking except one with equal timestamps |
| Clockings.OpenCountZero | app/models/clocking.rb:41 | a user has no open clocking counted iff the `exists?` query finds none |
| Clockings.OpenClockingErrors | app/models/clocking.rb:40-44 | base error "User already has an open clocking" iff the same user has an open clocking, whether or not the new record is open |
| Common.UserErrors | app/models/clocking.rb:21 | the required `belongs_to :user`: no error iff the user exists, otherwise exactly user "must exist" |
| Clockings.CreateErrors | app/models/clocking.rb:21-44 | create passes iff the user exists, clock_in is present, the order is not reversed and the user has no open clocking; each failing rule contributes its message |
| Clockings.UpdateErrors | app/models/clocking.rb:21-28 | update passes iff the user exists, clock_in is present and the order is not reversed; open clockings are not checked |
| Clockings.CreatePreservesSingleOpen | app/models/clocking.rb:27-44 | a successful create keeps at most one open clocking per user |
| Clockings.OtherUsersNeverBlock | app/models/clocking.rb:41 | open clockings of other users never block a create |
| Clockings.ClosingOnUpdateAllowed | app/models/clocking.rb:28 | closing an open clocking with a clock-out not before its clock-in passes update |
| Clockings.UpdateCanBreakSingleOpen | app/models/clocking.rb:28 | reopening a closed clocking on update can give a user two open clockings |
| Clockings.ClockingLedger.constructor | app/models/clocking.rb:20 | the table starts empty, with at most one open clocking per user |
| Clockings.ClockingLedger.Create | app/models/clocking.rb:21-44 | returns `CreateErrors`; appends the record iff there are none; keeps one open clocking per user |
| Clockings.ClockingLedger.Update | app/models/clocking.rb:21-28 | returns `UpdateErrors`; replaces the row iff there are none |
| Calendar.WithinDays | app/services/reports/builders/csv_builder.rb:70-72 | a timestamp lies between the start of day s and the end of day e iff its date is from s to e |
| Calendar.CivilRoundTrip | app/services/reports/formatters/date_time_formatter.rb:6 | the civil date of a day number counts back to that day number |
| Calendar.Local | app/services/reports/formatters/date_time_formatter.rb:6-18 | the local fields are in range and hour, minute and second add up to the second of the day |
| Calendar.LocalDeterminesTimestamp | app/services/reports/formatters/date_time_formatter.rb:6-18 | the local date and time fields determine the timestamp |
| DateTimeFormatter.Date | app/services/reports/formatters/date_time_formatter.rb:4-7 | "-" iff the datetime is missing; otherwise a DD/MM/YYYY shape with '/' at positions 2 and 5, exactly ten characters for the years 0 to 9999 |
| DateTimeFormatter.YearTextWidth | app/services/reports/formatters/date_time_formatter.rb:6 | the year of `%Y` is written with exactly four digits for the years 0 to 9999 |
| DateTimeFormatter.ParseFormatDate | app/services/reports/formatters/date_time_formatter.rb:6 | the zero-padded DD/MM/YYYY text reads back to the date |
| DateTimeFormatter.DateReadsBack | app/services/reports/formatters/date_time_formatter.rb:4-7 | the date text of a timestamp reads back to its local date |
| DateTimeFormatter.DateExample | app/services/reports/formatters/date_time_formatter.rb:4-7 | 2024-01-15 10:30:45 formats as "15/01/2024" |
| DateTimeFormatter.Time | app/services/reports/formatters/date_time_formatter.rb:16-19 | "-" iff the datetime is missing; otherwise eight characters that read back to the local hour, minute and second |
| DateTimeFormatter.ParseFormatClockFields | app/services/reports/formatters/date_time_formatter.rb:18 | HH:MM:SS is eight characters and reads back to each of the hour, minute and second |
| DateTimeFormatter.TimeReadsBack | app/services/reports/formatters/date_time_formatter.rb:16-19 | the time text reads back to the local hour, minute and second, which give the second of the local day |
| DateTimeFormatter.TimeExample | app/services/reports/formatters/date_time_formatter.rb:16-19 | the sample instant, 15/01/2024 10:30:45, formats as "10:30:45" |
| DateTimeFormatter.Weekday | app/services/reports/formatters/date_time_formatter.rb:9-10 | "-" for a missing datetime |
| DateTimeFormatter.WeekdayNames | app/services/reports/formatters/date_time_formatter.rb:11-13 | the locale's name for the weekday when it translates; otherwise a default name, never "-": it never raises |
| DateTimeFormatter.ParseDurationText | app/services/reports/formatters/date_time_formatter.rb:25 | the label "<h>h <m>min" reads back to its two numbers |
| DateTimeFormatter.Duration | app/services/reports/formatters/date_time_formatter.rb:21-26 | "-" iff the seconds are 0; otherwise the label reads back to seconds / 3600 and (seconds % 3600) / 60 |
| DateTimeFormatter.DurationLosesOnlySeconds | app/services/reports/formatters/date_time_formatter.rb:23-25 | for s > 0, hours * 3600 + minutes * 60 == s - s % 60 |
| DateTimeFormatter.DurationBelowMinute | app/services/reports/formatters/date_time_formatter.rb:22-25 | 0 < s < 60 gives "0h 0min", not "-" |
| DateTimeFormatter.DurationExampleHalfHour | app/services/reports/formatters/date_time_formatter.rb:21-26 | 30600 s is "8h 30min" |
| DateTimeFormatter.DurationExampleWholeHours | app/services/reports/formatters/date_time_formatter.rb:21-26 | 18000 s is "5h 0min" |
| DateTimeFormatter.DurationExampleMinutes | app/services/reports/formatters/date_time_formatter.rb:21-26 | 2700 s is "0h 45min" |
| WorkTimeCalculator.SecondsWorked | app/services/reports/calculators/work_time_calculator.rb:17-20 | 0 when either time is missing; otherwise clock-in plus the result is clock-out |
| WorkTimeCalculator.HoursWorked | app/services/reports/calculators/work_time_calculator.rb:8-10 | "-" for an open clocking and iff no seconds were worked; otherwise reads back to the hours and minutes worked |
| WorkTimeCalculator.OneHourExample | app/services/reports/calculators/work_time_calculator.rb:8-20 | one hour is 3600 seconds and "1h 0min" |
| WorkTimeCalculator.TotalSecondsAppend | app/services/reports/calculators/work_time_calculator.rb:13 | the sum over two lists is the sum of their sums |
| WorkTimeCalculator.OpenClockingsAddNothing | app/services/reports/calculators/work_time_calculator.rb:13-18 | appending open clockings leaves the total unchanged |
| WorkTimeCalculator.TotalOfOrderedClockings | app/services/reports/calculators/work_time_calculator.rb:13 | with no negative shift the total is non-negative, and zero iff every shift is |
| WorkTimeCalculator.TotalHours | app/services/reports/calculators/work_time_calculator.rb:12-15 | "-" for the empty list and iff the total is 0; otherwise reads back to the total's hours and minutes |
| WorkTimeCalculator.ThreeDaysExample | app/services/reports/calculators/work_time_calculator.rb:12-15 | 8h + 7h30 + 9h total "24h 30min" |
| WorkTimeCalculator.OpenClockingExample | app/services/reports/calculators/work_time_calculator.rb:12-15 | an 8h clocking and an open one total "8h 0min" |
| ClockingQueries.Window | app/services/reports/builders/csv_builder.rb:62-72 | holds each of the user's clockings whose clock-in lies from the start of the first day to the end of the last exactly as often as the table does, and nothing else |
| ClockingQueries.Insert | app/services/reports/builders/csv_builder.rb:66 | inserting into a sorted list keeps it sorted and adds exactly the one clocking |
| ClockingQueries.SortByClockIn | app/services/reports/builders/csv_builder.rb:66 | ascending by clock-in and a permutation of the input |
| ClockingQueries.FetchClockings | app/services/reports/builders/csv_builder.rb:62-72 | sorted by clock-in; a permutation of the window filter; holds each of the user's clockings with clock-in in the window as often as the table does, and nothing else |
| ClockingQueries.FetchedByDate | app/services/reports/builders/csv_builder.rb:62-72 | a clocking is fetched iff it is the user's and its clock-in falls on a date from start to end |
| ClockingQueries.EmptyWindow | app/services/reports/builders/csv_builder.rb:70-72 | a window whose end date is before its start date fetches nothing |
| CsvBuilders.BuildRow | app/services/reports/builders/csv_builder.rb:52-60 | five cells; the clock-out cell is "-" iff open; the hours cell is "-" iff no seconds were worked |
| CsvBuilders.BuildRowDateReadsBack | app/services/reports/builders/csv_builder.rb:54-56 | without a clock-in the first three cells are "-"; otherwise the date cell reads back to the clock-in's local date |
| CsvBuilders.BuildRowTimesReadBack | app/services/reports/builders/csv_builder.rb:56-57 | the time cells read back to the local hour, minute and second of clock-in and clock-out |
| CsvBuilders.BuildRowHours | app/services/reports/builders/csv_builder.rb:58 | the hours cell reads back to the hours and minutes worked |
| CsvBuilders.CompleteCountCounts | app/services/reports/builders/csv_builder.rb:74-76 | `complete_count` is the number of positions holding a clocking with a clock-out |
| CsvBuilders.OpenRecordCountCounts | app/services/reports/builders/csv_builder.rb:78-80 | `open_count` is the number of positions holding a clocking without a clock-out |
| CsvBuilders.CountsCoverAll | app/services/reports/builders/csv_builder.rb:74-80 | complete plus open equals the number of clockings |
| CsvBuilders.SummaryRow | app/services/reports/builders/csv_builder.rb:43-50 | "", "TOTAL", "", "", the total hours, "<n> registros completos", "<n> registros abertos" |
| CsvBuilders.SummaryCountsReadBack | app/services/reports/builders/csv_builder.rb:74-80 | the two counts read back from their cells and add up to the number of clockings |
| CsvBuilders.EmptySummary | app/services/reports/builders/csv_builder.rb:43-50 | with no clockings the summary shows "-", "0 registros completos", "0 registros abertos" |
| CsvBuilders.DataRowsAt | app/services/reports/builders/csv_builder.rb:37-38 | data row i is the row of clocking i |
| CsvBuilders.ReportTable | app/services/reports/builders/csv_builder.rb:21-25 | n + 2 rows: the headers first, the summary last |
| CsvBuilders.ReportTableRow | app/services/reports/builders/csv_builder.rb:21-41 | row i + 1 is the five-cell row of clocking i |
| CsvBuilders.EmptyTableText | app/services/reports/builders/csv_builder.rb:21-25 | without clockings the text is the header line and the summary line |
| CsvBuilders.CsvLineReadsBack | app/services/reports/builders/csv_builder.rb:21 | a line ends in a newline; when no cell holds a comma or a quote it splits into one field per cell, and unquoting each field (`""` is the empty cell) gives the cells back |
| CsvBuilders.SummaryLine | app/services/reports/builders/csv_builder.rb:43-50 | the summary line always starts `"",TOTAL,"",""`: the three blank cells are written quoted, the other cells follow |
| CsvBuilders.EmptySummaryLine | app/services/reports/builders/csv_builder.rb:43-50 | with no clockings the summary line is `"",TOTAL,"","",-,0 registros completos,0 registros abertos` |
| CsvBuilders.CsvBuilder.constructor | app/services/reports/builders/csv_builder.rb:11-16 | the clockings are fetched when the builder is created, from the process's user and window |
| CsvBuilders.CsvBuilder.Build | app/services/reports/builders/csv_builder.rb:18-26 | returns the text of `ReportTable`; with n > 0 rows the progress ends at 100 and the log gains the series for 1..n; with none nothing changes |
| CsvBuilders.CsvBuilder.AddDataRows | app/services/reports/builders/csv_builder.rb:36-41 | the rows are `DataRows` of the clockings; after row i the progress is round(i/n*100) |
| CsvBuilders.CsvBuilder.UpdateProgress | app/services/reports/builders/csv_builder.rb:82-87 | nothing with no clockings; otherwise the progress is `Percentage(current, n)`, appended to the log |
| Progress.Percentage | app/services/reports/builders/csv_builder.rb:85 | within one half of 100 * current / total, halves rounded up |
| Progress.PercentageAtMost100 | app/services/reports/builders/csv_builder.rb:85 | at most 100 while current <= total |
| Progress.PercentageComplete | app/services/reports/builders/csv_builder.rb:85 | the last row gives exactly 100 |
| Progress.PercentageMonotone | app/services/reports/builders/csv_builder.rb:82-87 | more rows done never gives a smaller percentage |
| Progress.ProgressSeries | app/services/reports/builders/csv_builder.rb:37-40 | value k is the percentage after row k + 1 |
| Progress.SeriesClimbsTo100 | app/services/reports/builders/csv_builder.rb:36-87 | the values of one build never decrease, stay within 0..100 and end at 100 |
| Progress.RunNeverGoesBack | app/services/reports/base_report.rb:8-11 | 0 at processing, the series, then 100 at completion never decrease |
| Progress.PercentageExamples | app/services/reports/builders/csv_builder.rb:85 | 1 of 3 is 33, 2 of 3 is 67, 1 of 8 rounds up to 13 |
| CsvReports.EmptyReportContent | app/services/reports/csv_report.rb:5-7 | with no clockings in the window the content is the header line and the summary line |
| CsvReports.BuildContent | app/services/reports/csv_report.rb:5-7 | the content is the builder's text over the process; progress and log change as `Build` says; a build fault escapes unchanged |
| BaseReports.GenerateEndsTerminal | app/services/reports/base_report.rb:7-25 | the status is terminal iff generate returned or raised a StandardError; otherwise it is processing and the error is NotImplementedError |
| BaseReports.GenerateSucceeds | app/services/reports/base_report.rb:10-30 | generate returns iff the content was built and attaching did not raise; then it is completed with progress 100, no error and the file attached and ready |
| BaseReports.GenerateFails | app/services/reports/base_report.rb:14-16 | a StandardError leaves the process failed with its message and progress 0, no file ready, and is raised again unchanged |
| BaseReports.GenerateKeepsIdentity | app/services/reports/base_report.rb:7-17 | the id, the user and the window are unchanged by generate |
| BaseReports.BaseReportStaysProcessing | app/services/reports/base_report.rb:14-25 | the base report raises NotImplementedError and leaves the process in processing with progress 0 |
| BaseReports.CsvErrorExample | app/services/reports/base_report.rb:14-16 | a build raising "CSV error" leaves the process failed with that message |
| BaseReports.EmptyCsvReportCompletes | app/services/reports/csv_report.rb:5-7 | a CSV report over an empty window still completes, with header and summary attached |
| BaseReports.ProcessingKeepsContent | app/services/reports/base_report.rb:8-10 | marking the process processing before building changes neither the fetch nor the content |
| BaseReports.Report.constructor | app/services/reports/base_report.rb:3-5 | the report keeps its kind, process, table and locale |
| BaseReports.Report.Generate | app/services/reports/base_report.rb:7-17 | the process ends as `GenerateSpec` of the old state says and the outcome matches; a CSV build over n > 0 rows adds the series for 1..n to the log, one over no rows adds nothing |
| BaseReports.Report.MarkAndBuild | app/services/reports/base_report.rb:8-10 | the process is marked processing and the content built from it is what the unmarked process gives; only the progress of a CSV build differs from the marked state, and the log gains `BuildLog` |
| BaseReports.Report.Conclude | app/services/reports/base_report.rb:11-17 | after building, the process ends as `Concluded` says and the log is unchanged |
| BaseReports.Report.BuildContent | app/services/reports/base_report.rb:23-25 | the content is `ContentOf` the report's kind; the base kind changes nothing |
| BaseReports.Report.AttachFile | app/services/reports/base_report.rb:27-30 | completes the process with the body attached unless storage raises; then nothing changes |
| ReportFactory.KindFor | app/services/reports/report_factory.rb:3-10 | a CSV report iff the type's name is "csv"; otherwise an ArgumentError whose message is "Unknown report type: " followed by the name |
| ReportFactory.SymbolOrString | app/services/reports/report_factory.rb:4 | a symbol and a string of the same name select the same report |
| ReportFactory.NeverBase | app/services/reports/report_factory.rb:3-10 | the factory never hands out the base report |
| ReportFactory.UnknownTypeExample | app/services/reports/report_factory.rb:8 | `:pdf` raises "Unknown report type: pdf" |
| ReportFactory.Create | app/services/reports/report_factory.rb:3-10 | a fresh CSV report over the process exactly when `KindFor` succeeds, otherwise its error |
| ReportGeneratorServices.StatusClassification | app/services/report_generator_service.rb:130-147 | "Aberto" iff open; for closed shifts Parcial iff 0..14400, Normal iff 14401..28800, Completo iff 28801..32400, Hora Extra otherwise |
| ReportGeneratorServices.StatusBoundaries | app/services/report_generator_service.rb:136-145 | 14400 s is Parcial, 28800 s Normal, 32400 s Completo, 32401 s Hora Extra |
| ReportGeneratorServices.StatusMonotone | app/services/report_generator_service.rb:136-145 | a longer closed shift never gets an earlier category |
| ReportGeneratorServices.NotesDistinct | app/services/report_generator_service.rb:153-168 | the five observation strings are distinct |
| ReportGeneratorServices.OpenObservation | app/services/report_generator_service.rb:152-153 | an open clocking gets "Ponto não fechado" only |
| ReportGeneratorServices.ClosedObservations | app/services/report_generator_service.rb:154-169 | a closed clocking gets each note iff its condition holds, and never "Ponto não fechado" |
| ReportGeneratorServices.ObservationShape | app/services/report_generator_service.rb:150-169 | at most three notes, all known ones, in a fixed order |
| ReportGeneratorServices.LengthNotesExclusive | app/services/report_generator_service.rb:157-161 | never both "Jornada incompleta" and "Jornada excessiva" |
| ReportGeneratorServices.HourChecksAsTimeOfDay | app/services/report_generator_service.rb:164-168 | late means a clock-in at 10:00:00 or later; early means a clock-out before 17:00:00 |
| ReportGeneratorServices.ObservationsReadBack | app/services/report_generator_service.rb:171 | "" iff no note applies; otherwise splitting on "; " gives back the notes |
| ReportGeneratorServices.ServiceHoursWorked | app/services/report_generator_service.rb:104-128 | the service's own duration code gives the calculator's `HoursWorked` |
| ReportGeneratorServices.ServiceRow | app/services/report_generator_service.rb:54-64 | seven cells |
| ReportGeneratorServices.ServiceRowCells | app/services/report_generator_service.rb:61-62 | the last two cells are the status and the observations |
| ReportGeneratorServices.ServiceRowExtendsBuildRow | app/services/report_generator_service.rb:56-60 | the first five cells are the builder's row |
| ReportGeneratorServices.ServiceTable | app/services/report_generator_service.rb:24-76 | n + 2 rows, the same headers first and the same summary last |
| ReportGeneratorServices.ServiceTableRow | app/services/report_generator_service.rb:28-31 | row i + 1 is the seven-cell row of clocking i |
| ReportGeneratorServices.ServiceTableExtendsReportTable | app/services/report_generator_service.rb:54-64 | each data row is the builder's row followed by status and observations |
| ReportGeneratorServices.ReportGeneratorService.constructor | app/services/report_generator_service.rb:6-8 | no batch has been fetched yet |
| ReportGeneratorServices.ReportGeneratorService.Call | app/services/report_generator_service.rb:10-20 | the process ends as `GenerateSpec` says for the service's table, the outcome matches, the log gains the series over the batch, and the batch is memoized unless building raised first |
| ReportGeneratorServices.ReportGeneratorService.GenerateCsvData | app/services/report_generator_service.rb:24-35 | the text of `ServiceTable` over the batch, which is now memoized; progress ends at 100 over a non-empty batch |
| ReportGeneratorServices.ReportGeneratorService.AddServiceRows | app/services/report_generator_service.rb:28-31 | the rows are `ServiceDataRows`; the log gains the series for 1..n |
| ReportGeneratorServices.ReportGeneratorService.ClockingsBatch | app/services/report_generator_service.rb:178-190 | the batch is fetched once and reused afterwards |
| ReportGeneratorServices.ReportGeneratorService.AttachCsvFile | app/services/report_generator_service.rb:37-40 | completes the process with the text attached unless storage raises |
| ReportGeneratorServices.ReportGeneratorService.UpdateProgress | app/services/report_generator_service.rb:212-217 | nothing when the total is 0; otherwise the progress is `Percentage(current, total)`, appended to the log |
| Text.ParseNatToString | app/services/reports/formatters/date_time_formatter.rb:25 | a number's decimal text reads back to the number |
| Text.ParseZeroPad | app/services/reports/formatters/date_time_formatter.rb:6-18 | zero-padded decimal text reads back to the number |
| Text.SplitJoin | app/services/report_generator_service.rb:171 | joined items split back when no item holds the separator's first character |
| Text.Utf8SizeAppend | app/models/report_process.rb:76 | the byte size of a concatenation is the sum of the byte sizes |

## Left out

- Controllers, routes, the user model, the jobs and their retry settings, and
  `create_service.rb` (date parsing, saving, enqueueing) are not part of this
  model. The users table is a parameter, the set of existing user ids, that
  the required `belongs_to :user` of both records is checked against.
- The factory runs before `generate` in the job. An unknown type therefore
  raises while the process is still queued. `ReportFactory.Create` takes the
  process but cannot change it; the job itself is not modelled.
- CSV quoting is modelled only for empty cells, which Ruby's CSV writer
  writes as `""` by default. The summary row's three blank cells and an empty
  observations cell are therefore quoted. A cell holding a comma, a quote or
  a newline, which Ruby would also quote, is written verbatim here.
- Active Storage is modelled as one optional attachment slot. `csv_file.byte_size`
  is the UTF-8 size of the body.
- Database ordering among equal clock-in times is left open. Any order the
  sort gives is accepted.
- Time zones, `I18n.l` and `strftime` internals are not modelled. Timestamps
  are seconds on the local clock and weekday names come from a `Locale`
  parameter.
- Float arithmetic in the progress percentage is not modelled. The model uses
  exact arithmetic rounded half up.
- The `SecureRandom.uuid` format is not modelled. The uuid is a parameter.
- Sub-second precision of times is not modelled; timestamps are whole seconds.
- `IsBlank` knows only ASCII white space, not Unicode white space.
- Years before 1 are formatted with a sign and zero padding; the date examples
  do not cover them.
- CsvReports.BuildContent: a `StandardError` raised partway through the rows
  is modelled only as raised before the first row. The progress of a failed
  run is therefore always the failed state's 0, with no partial series in the
  log.
- `update!` raising a validation or database error is not modelled.
- ReportGeneratorServices.ObservationItems: a closed clocking without a
  clock-in gets no "Entrada tardia" here; Ruby would raise `NoMethodError`.
  Such a clocking is never fetched, since the fetch requires a clock-in.
- `BaseReport` and `CsvReport` are one `Report` class with a kind, not a class
  hierarchy.
- ReportGeneratorServices.ReportGeneratorService.Call: the batch is
  memoized, so a second `call` on the same service reuses the first fetch,
  even when the table has changed since. The contract's `Batch()` is the
  batch as it was before the call.
- Clockings.CreatePreservesSingleOpen: holds for creates that run one after
  another. `single_open_clocking` is an `exists?` query followed by an insert,
  with no database constraint behind it, so two concurrent creates for the
  same user can both pass and leave two open clockings. The ledger runs each
  create as one step.

## Findings

| source | as written | input that shows it | evidently intended | confidence | as-written member | corrected member |
|---|---|---|---|---|---|---|
| app/models/clocking.rb:35 | `clock_out < clock_in` lets a clock-out equal to the clock-in pass | clock_in = clock_out = 2024-01-15 08:00:00 | reject a clock-out at or before the clock-in, as the message "must be after clock in time" says and spec/models/clocking_spec.rb:60-70 expects | not executed | Clockings.EqualTimestampsPass | Clockings.IntendedOrderingErrors |

This is a disagreement between the code and its tests. The ledger
(`Clockings.ClockingLedger`) therefore keeps the code's check,
`Clockings.OrderingErrors`. `Clockings.IntendedDiffersOnlyOnEqual` shows that
swapping in the corrected check would change the verdict only for equal
timestamps. Every other result of the ledger holds under either check.
