# Bracelet attendance and fruit-process ledger

This project models the two parts of the farm-labour back end that hold logic of their own. Both are driven by workers' bracelets.

- **Attendance** (`src/controllers/asistenciaController.js`):
  - The mark handler `marcarAsistencia`, with its lookup `obtenerAsistenciaActual`. It keeps at most one `asistencias` row per bracelet per day. Each row has four timestamp columns: entry, break-out, break-in and exit.
  - The monthly report `reporteMensualAsistencia`. It aggregates one bracelet's rows for a month into per-day and total minutes. `exportarPDFReporteMensual` computes the same figures before rendering them.
- **Fruit processes** (`src/controllers/procesoController.js`):
  - `registrarDesdePulsera`, the guarded insert of a collection.
  - `resumenDiarioPorPulsera`, the daily count and sum.
  - `actualizarProceso` and `eliminarProceso`, the keyed update and delete.

Modules, one per file:

- `Common` (`common.dfy`):
  - an `Option` type;
  - JavaScript truthiness of request fields;
  - the numbers read from the digit text of query parameters;
  - `padStart`.
- `Clock` (`clock.dfy`): dates and DATETIME values, `TIMESTAMPDIFF(MINUTE, …)`, and `YYYY-MM-DD` text.
- `Directory` (`directory.dfy`): the read-only tables `pulseras` (a map from uuid to `estado`) and `trabajadores`.
- `AttendanceLedger` (`ledger.dfy`): the `asistencias` table and the mark handler.
- `AttendanceReport` (`report.dfy`): the monthly report.
- `FruitProcesses` (`processes.dfy`): the `procesos` table and its handlers.

Each handler that changes a table has two forms, in the same style:

- **A step function**: `MarkStep`, `RegisterStep`, `UpdateStep` or `DeleteStep`. It maps the old table, the request and the clock reading `now` to the outcome (one constructor per HTTP status) and the new table. The properties are lemmas about these functions.
- **A method on a class holding the table**: `AttendanceTable.Mark`, `ProcessTable.RegisterFromBracelet`, `ProcessTable.Update` or `ProcessTable.Delete`. It runs the same chain of early-return guards imperatively. Its postcondition states that the outcome and the new contents are what the step function gives.

The server clock is a parameter: `NOW()` is `now` and `CURDATE()` is `now.date`.

AUTO_INCREMENT ids come from a counter that starts at 1. `affectedRows` is the number of rows that `WHERE id = ?` matches. This is what the MySQL client reports with the FOUND_ROWS flag it sets by default.

The report's selection:

- Rows come in table order. The queries have no `ORDER BY`, so MySQL leaves their order unspecified. The model fixes table order as its choice, and the same holds for the first row taken by today's lookup and by the worker lookups.
- The model reads `anio` and `mes` as the value of their leading run of digits. MySQL converts the text to a number with the full numeric syntax; the two agree on digit-only text, which is what clients send (`anio=2025&mes=05`).
- A row without an entry stamp never matches.

Quantities of fruit are `real`, which is exact.

Two modelling notes on the attendance marks and the report:

- **Mark order.** Marks are often described as a linear sequence: entry, then the break marks, then exit. The code enforces no such order. It only checks that today's row exists and that the target column is empty. So, for example, `salida` may be stamped before `salida_colacion`, and `OneDayScenario` shows an exit straight after entry.
- **Detail order.** The report's details are not sorted by the code. The model keeps table order. Ids rise with time, so that order usually matches date order, but nothing in the handler guarantees it.

## Model

| member | source | states |
|---|---|---|
| Common.PadStart | src/controllers/asistenciaController.js:133 | `mes` padded to two characters: the text keeps its own characters at the end, with zeros in front up to the width, and is unchanged when it is already as long. |
| Common.Present | src/controllers/asistenciaController.js:15 | Definition of a field's JavaScript truthiness: a missing field and the empty string are falsy. The properties that use it are `MarkInputErrors` and `RegisterInputErrors`. |
| Common.LeadingNumber | src/controllers/asistenciaController.js:103-105 | Text without a leading digit compares as 0, and the value is below 10 to the length of the leading digit run. Its partner is `LeadingNumberOfDigits`. |
| Common.LeadingNumberOfDigits | src/controllers/asistenciaController.js:103-105 | A parameter made only of digits is compared as the number those digits denote, so `mes=05` selects month 5. |
| Clock.MinutesBetween | src/controllers/asistenciaController.js:99-100 | `TIMESTAMPDIFF(MINUTE, a, b)` counts whole minutes from `a` to `b`, truncated toward zero. It is never positive when `b` is earlier, and is 0 when `b` is less than a minute earlier or later. It is never off by a full minute. |
| Clock.ParseIsoDate | src/controllers/procesoController.js:148 | Text names a date exactly when it has the `YYYY-MM-DD` shape (four digits, dash, two digits, dash, two digits), with a year of at most 9999 and a month and day of at most 99. Its partners are `ParseFormatRoundTrip` and `FormatParseRoundTrip`. |
| Clock.FormatParseRoundTrip | src/controllers/procesoController.js:148 | Conversely, text that reads as a date with a month of 1..12 and a day of 1..31 is exactly the `YYYY-MM-DD` text of that date. |
| Clock.ParseFormatRoundTrip | src/controllers/procesoController.js:148 | The `YYYY-MM-DD` text of a date is read back as that same date when it is compared with `DATE(fecha)`. |
| Directory.FindWorker | src/controllers/asistenciaController.js:82-93 | The worker lookup by bracelet returns a worker at some position that wears the bracelet, where no earlier worker wears it: the first in table order. It finds none exactly when no worker wears it. |
| AttendanceLedger.MarkKindOf | src/controllers/asistenciaController.js:18-26 | Each `tipo` name maps to its own column, in both directions: `entrada` to entry, `salida_colacion` to break-out, `entrada_colacion` to break-in and `salida` to exit. Every other name is rejected. |
| AttendanceLedger.SetFieldWhereId | src/controllers/asistenciaController.js:60-63 | The update keeps every row's id and bracelet and every row with another id. The row with that id has the column stamped `now` and its other three columns unchanged. |
| AttendanceLedger.MarkStep | src/controllers/asistenciaController.js:12-70 | Every rejection leaves the ledger as it was. An insert happens only for `entrada` and adds one row; an update happens only for another mark and keeps the row count. Any accepted mark needs a present, registered, active bracelet. The single-case lemmas below give the full behaviour. |
| AttendanceLedger.AttendanceRecord.WithField | src/controllers/asistenciaController.js:60-63 | Stamping a column sets that column to the instant and leaves the id, bracelet and the other three columns alone. |
| AttendanceLedger.TodayIndex | src/controllers/asistenciaController.js:4-10 | Today's record is the first row of the bracelet whose entry date is today. There is none only when no row qualifies. |
| AttendanceLedger.FindTodaysRecord | src/controllers/asistenciaController.js:4-10 | The table scan finds exactly the row that `TodayIndex` specifies. |
| AttendanceLedger.MarkInputErrors | src/controllers/asistenciaController.js:15-26 | A missing bracelet or `tipo` gives 400. So does an unknown `tipo`, after the presence check. A 400 occurs for exactly these inputs and never changes the table. |
| AttendanceLedger.MarkBraceletErrors | src/controllers/asistenciaController.js:30-39 | An unregistered bracelet gives 404 and an inactive one 403, with the same outcome and no change whatever the attendance table holds. |
| AttendanceLedger.MarkBeforeEntry | src/controllers/asistenciaController.js:44-46 | With no row for today, every mark other than `entrada` gives 404 and inserts nothing. |
| AttendanceLedger.MarkFirstEntry | src/controllers/asistenciaController.js:48-54 | With no row for today, `entrada` gives 201. It appends one row under the next id whose only stamp is entry = `now`, and keeps every earlier row. |
| AttendanceLedger.MarkAlreadyStamped | src/controllers/asistenciaController.js:56-58 | A mark whose column is already stamped on today's row gives 409 and changes nothing. A second `entrada` on one day is always 409. |
| AttendanceLedger.MarkStampsOneField | src/controllers/asistenciaController.js:56-65 | Otherwise the result is 200. Only the target column of today's row becomes `now`; its other columns, every other row and the id counter stay as they were. No order among the non-entry marks is required. |
| AttendanceLedger.MarkPreservesWellFormed | src/controllers/asistenciaController.js:42-65 | Each mark keeps the table well formed:<br>- ids are distinct and below the counter;<br>- every row has an entry, and its stamps are on the entry's day;<br>- no bracelet has two rows for one day. |
| AttendanceLedger.InsertPreservesWellFormed | src/controllers/asistenciaController.js:48-54 | An entry inserted when no row of the bracelet is dated today keeps the table well formed. |
| AttendanceLedger.UpdatePreservesWellFormed | src/controllers/asistenciaController.js:60-63 | Stamping one non-entry column of today's row keeps the table well formed. |
| AttendanceLedger.ReplayPreservesWellFormed | src/controllers/asistenciaController.js:42-54 | Any sequence of mark requests keeps the table well formed. In particular, a bracelet never gets two rows for one calendar day. |
| AttendanceLedger.MarkKeepsChronological | src/controllers/asistenciaController.js:48-63 | Served at an instant no earlier than any stamp in the table, a mark keeps every stamp at or after its row's entry and none later than `now`. |
| AttendanceLedger.ReplayKeepsChronological | src/controllers/asistenciaController.js:48-63 | Under a clock that never runs backwards, every row's stamps stay at or after its entry, whatever marks arrive in whatever order. |
| AttendanceLedger.OneDayScenario | src/controllers/asistenciaController.js:12-65 | For bracelet X1 on one day:<br>- `entrada` gives 201;<br>- `salida` without break marks then gives 200;<br>- a renewed `entrada` and a renewed `salida` each give 409 and change nothing. |
| AttendanceLedger.AttendanceTable.Mark | src/controllers/asistenciaController.js:12-70 | The handler's guards and its single insert or update give exactly the outcome and new table of `MarkStep`, and keep a well-formed table well formed. |
| AttendanceReport.MonthRows | src/controllers/asistenciaController.js:96-106 | The report query selects only rows of the bracelet whose entry falls in the requested year and month. |
| AttendanceReport.MinutesOrZero | src/controllers/asistenciaController.js:113-114 | A missing endpoint gives 0 minutes, and endpoints in order give a non-negative count. |
| AttendanceReport.Detail | src/controllers/asistenciaController.js:112-129 | A day's detail carries the row's entry date and its four stamps. Net is gross minus break, and a missing exit or break endpoint gives 0. |
| AttendanceReport.MonthRowsSelectsExactly | src/controllers/asistenciaController.js:96-108 | Each row of the bracelet dated in the month is selected as many times as it occurs in the table, and no other row is. So `dias_trabajados` counts exactly those rows. |
| AttendanceReport.MonthRowsAppend | src/controllers/asistenciaController.js:96-106 | A row added at the end of the table appears at the end of the report exactly when it matches. The selection keeps table order. |
| AttendanceReport.MonthOutOfRangeSelectsNothing | src/controllers/asistenciaController.js:103-104 | A month number outside 1..12 selects no row of a table of real dates. The result is an empty report, not an error. |
| AttendanceReport.DetailMinutes | src/controllers/asistenciaController.js:113-115 | A day's gross is exit minus entry and its break is break-in minus break-out, each 0 when an endpoint is missing. Net is gross minus break and is not clamped. |
| AttendanceReport.FullDayExample | src/controllers/asistenciaController.js:112-128 | Entry 08:00, break 12:00 to 12:30 and exit 17:00 give 540 gross, 30 break and 510 net minutes. |
| AttendanceReport.NetCanBeNegative | src/controllers/asistenciaController.js:113-115 | A break longer than the stay gives a negative net (-60 minutes). |
| AttendanceReport.GrossNotNegative | src/controllers/asistenciaController.js:99 | For a row whose stamps are at or after its entry, the gross minutes are never negative. |
| AttendanceReport.NetTotalIsSumOfNets | src/controllers/asistenciaController.js:142-145 | Total gross minus total break equals the sum of the per-day nets. |
| AttendanceReport.SummarizeDays | src/controllers/asistenciaController.js:108-130 | The `map` pass gives one detail per selected row, in order. Its accumulators end as the sums of the per-day gross and break minutes. |
| AttendanceReport.MonthlyReport | src/controllers/asistenciaController.js:72-153 | It gives:<br>- 400 without `anio` or `mes`, then 404 for a bracelet no worker wears;<br>- otherwise the label `anio-mes` with `mes` zero-padded and the worker card;<br>- `dias_trabajados` equal to the number of selected rows, and one detail per row;<br>- totals that are the sums of the details, with net equal to the sum of the nets. |
| AttendanceReport.MarkReadBack | src/controllers/asistenciaController.js:96-106 | After an accepted mark at `now`, the report for `now`'s month holds the bracelet's row with that column stamped `now`. |
| FruitProcesses.LinkedWorker | src/controllers/procesoController.js:88-98 | The join finds a worker only for a registered bracelet that some worker wears. It finds none exactly when the bracelet is unregistered or unworn. |
| FruitProcesses.RegisterStep | src/controllers/procesoController.js:80-117 | Every rejection leaves the table as it was. A success requires a present bracelet, a truthy quantity and an active registered bracelet, and appends exactly the new row. The partners are `RegisterInputErrors`, `RegisterLinkErrors` and `RegisterAppendsOne`. |
| FruitProcesses.ReplaceWhereId | src/controllers/procesoController.js:49-52 | The update keeps the row count, every id and `pulsera_uuid`, and every row with another id. The row with that id gets the new bracelet, quantity and date. |
| FruitProcesses.UpdateStep | src/controllers/procesoController.js:44-62 | 404 happens exactly when no row has the id. The counter and the row count are kept. Its partner is `UpdateChangesOnlyThatRow`. |
| FruitProcesses.DeleteStep | src/controllers/procesoController.js:64-78 | 404 happens exactly when no row has the id. The row count drops by the number of rows matched. Its partner is `DeleteRemovesOnlyThatRow`. |
| FruitProcesses.SummaryOn | src/controllers/procesoController.js:119-170 | The summary, with the bracelet column as a parameter. A missing `fecha` gives 400 exactly, then a bracelet no worker wears gives 404 exactly. Otherwise the response echoes `fecha`, the bracelet and the first worker's names and role. |
| FruitProcesses.DailySummaryAsWritten | src/controllers/procesoController.js:143-150 | Definition: the summary filtering on `pulsera_uuid`, as the query does. Its properties are `SummaryOutcomes` and `AsWrittenSummaryMissesRegistration`. |
| FruitProcesses.DailySummaryFor | src/controllers/procesoController.js:143-150 | Definition: the summary filtering on `id_pulsera`, the column the insert writes. Its properties are `SummaryOutcomes` and `RegisterThenSummaryCounts`. |
| FruitProcesses.RowsWithId | src/controllers/procesoController.js:54 | `affectedRows` is 0 exactly when no row has the id. |
| FruitProcesses.RemoveWhereId | src/controllers/procesoController.js:68 | The delete drops exactly the rows holding the id: the rest keep their count and none holds it. |
| FruitProcesses.CountOn | src/controllers/procesoController.js:144-148 | `COUNT(*)` is 0 exactly when no row of the bracelet is dated that day. |
| FruitProcesses.SumOn | src/controllers/procesoController.js:145-148 | `SUM(cantidad_fruta) \|\| 0` is 0 when no row of the bracelet is dated that day. |
| FruitProcesses.RegisterInputErrors | src/controllers/procesoController.js:83-85 | A missing bracelet or quantity, including a quantity of 0, gives 400 and inserts nothing. |
| FruitProcesses.RegisterLinkErrors | src/controllers/procesoController.js:96-104 | A bracelet not joined to a worker gives 404 and an inactive one 403. Neither inserts a row. |
| FruitProcesses.RegisterAppendsOne | src/controllers/procesoController.js:106-112 | Otherwise the result is 201 with the worker's names. Exactly one row is appended: the next id, the bracelet in `id_pulsera`, the quantity and `now`. The earlier rows are unchanged. |
| FruitProcesses.RegisterPreservesUniqueIds | src/controllers/procesoController.js:106-110 | Registration keeps ids distinct and below the counter. |
| FruitProcesses.UpdateChangesOnlyThatRow | src/controllers/procesoController.js:49-55 | 404 happens exactly when no row has the id, and then nothing changes. Otherwise only the row with that id gets the new bracelet, quantity and date; its id and `pulsera_uuid` stay. |
| FruitProcesses.UpdatePreservesUniqueIds | src/controllers/procesoController.js:49-52 | An update keeps ids distinct and below the counter. |
| FruitProcesses.RemoveAbsentId | src/controllers/procesoController.js:68-71 | Deleting an id no row holds leaves the table as it was. |
| FruitProcesses.RemoveWhereIdKeepsOthers | src/controllers/procesoController.js:68 | The delete keeps exactly the rows without the id, each as many times as it occurs, and no row holding it. |
| FruitProcesses.RemoveWhereIdAppend | src/controllers/procesoController.js:68 | The delete keeps table order: a row at the end survives at the end exactly when its id differs. |
| FruitProcesses.RemoveWhereIdUnique | src/controllers/procesoController.js:68 | Deleting the id of exactly one row removes that row and keeps the others in order. |
| FruitProcesses.DeleteRemovesOnlyThatRow | src/controllers/procesoController.js:68-71 | 404 happens exactly when no row has the id, and then nothing changes. Otherwise exactly that row is removed and the others keep their order. |
| FruitProcesses.DeletePreservesUniqueIds | src/controllers/procesoController.js:68 | A delete keeps ids distinct and below the counter. |
| FruitProcesses.SummaryOutcomes | src/controllers/procesoController.js:123-164 | For the column as written and the corrected one alike: a missing `fecha` gives 400 and a bracelet no worker wears gives 404. Otherwise the response is the count and the sum of the bracelet's rows on that date, each 0 when there are none or when `fecha` names no date. |
| FruitProcesses.SummaryOfAppend | src/controllers/procesoController.js:143-150 | A row added to the table raises the count by one and the total by its quantity exactly when it matches the bracelet and day. |
| FruitProcesses.RegisterThenSummaryCounts | src/controllers/procesoController.js:106-110 | With the summary filtering on the column the insert writes, a registration at `now` raises that day's count by one and its total by the quantity. |
| FruitProcesses.AsWrittenSummaryMissesRegistration | src/controllers/procesoController.js:147 | As written, the summary's count and total for the day are the same before and after any registration. |
| FruitProcesses.AsWrittenSummaryCounterexample | src/controllers/procesoController.js:143-150 | A worker registers 12 units on 2025-05-03. The summary as written then reports 0 processes; the corrected summary reports 1 process and 12 units. |
| FruitProcesses.ProcessTable.RegisterFromBracelet | src/controllers/procesoController.js:80-117 | The handler's guards and its insert give exactly the outcome and new table of `RegisterStep`, and keep ids distinct and below the counter. |
| FruitProcesses.ProcessTable.Update | src/controllers/procesoController.js:44-62 | The update and its `affectedRows` test give exactly the outcome and new table of `UpdateStep`, and keep ids distinct and below the counter. |
| FruitProcesses.ProcessTable.Delete | src/controllers/procesoController.js:64-78 | The delete and its `affectedRows` test give exactly the outcome and new table of `DeleteStep`, and keep ids distinct and below the counter. |

## Left out

- PDF export (`exportarPDFReporteMensual` and the PDF service): rendering and the headless browser are I/O. Only the figures, which that handler computes as the monthly report does, are modelled.
- The `.toFixed(2)` hour strings: these are floating-point formatting. The model keeps integer minutes, and the hours are the minutes divided by 60.
- The 500 responses: database errors and the `try`/`catch` paths are I/O failures that the model does not produce.
- Concurrency: two requests racing between the today lookup and the insert could create two rows for one day. Requests are modelled as served one after another.
- One clock reading per request: the today lookup's `CURDATE()` and the insert's or update's `NOW()` are separate statements in the handler, but the model gives both the same `now`. A mark served across midnight, which would find yesterday's row and stamp it with today's time, is not modelled. `MarkedOnEntryDay`, part of `WellFormed`, holds only under this assumption.
- Row order of unordered queries: the report query, today's lookup and the worker lookups have no `ORDER BY`, so MySQL's order is unspecified. The model fixes table order, and `MonthlyReport`'s details, `TodayIndex` and `FindWorker` are stated for that order.
- Column collation: MySQL string comparison may ignore case and trailing spaces. Bracelet uuids are compared exactly.
- `campos` lookups of inherited keys (`tipo` = `constructor` and the like): these reach into the JavaScript object prototype. Only the four own keys are modelled.
- Request-body values of other JSON types: `pulsera_uuid` and `tipo` are modelled only as strings or missing, and `cantidad_fruta` only as a number or missing (0 and missing are falsy). A string quantity is not modelled. One such as `"0"` is truthy in JavaScript, so the handler would insert it and MySQL would store 0.
- `anio`/`mes` text with a sign, leading spaces, a decimal part or exponent notation: only the leading run of digits is read. MySQL reads such text as a number, so for `mes=1e1` it selects month 10 where the model selects month 1.
- A `fecha` that MySQL would accept in a looser form (`2025-5-3`, a time suffix): only `YYYY-MM-DD` names a date, and other text matches no row.
- The update's `fecha` body field is taken as an already-read DATETIME or NULL. MySQL's parsing of the text, and the 500 when MySQL rejects it, are not modelled.
- The update's and delete's `:id` path parameter is a natural number. Non-numeric ids are not modelled.
- `crearProceso`, `listarProcesos` and `obtenerProceso` are plain inserts and selects outside this model. So is every other controller, and so are the routes and the authentication middleware.
- The JSON field names of the responses: results are datatypes with the same content.

## Findings

| source | as written | input that shows it | evidently intended | confidence | as-written member | corrected member |
|---|---|---|---|---|---|---|
| src/controllers/procesoController.js:147 | Both inserts and the update write the bracelet to `id_pulsera`, but the daily summary filters `pulsera_uuid = ?`. So the summary never counts a registered process. | Worker "Ana" wears active bracelet "X1". `registrarDesdePulsera` with 12 units on 2025-05-03, then `resumenDiarioPorPulsera` for X1 and `fecha=2025-05-03`, reports 0 processes and 0 fruit. | The summary filters on the column the registration writes, so it reports 1 process and 12 units. | medium: the table schema is not part of the repository, so `pulsera_uuid` might be kept in step by the database; not executed | FruitProcesses.AsWrittenSummaryCounterexample | FruitProcesses.RegisterThenSummaryCounts |
