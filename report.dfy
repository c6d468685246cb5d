/** The monthly attendance report `reporteMensualAsistencia`
    (src/controllers/asistenciaController.js); `exportarPDFReporteMensual`
    computes the same figures before rendering them. */
module AttendanceReport {
  import opened Common
  import opened Clock
  import opened Directory
  import opened AttendanceLedger

  /** The report query's condition: `pulsera_uuid = ? AND
      YEAR(horario_entrada) = ? AND MONTH(horario_entrada) = ?`. A row
      without an entry stamp never matches (NULL compares false). */
  predicate InMonth(r: AttendanceRecord, uuid: string, year: int, month: int) {
    r.bracelet == uuid && r.entry.Some? && r.entry.value.date.year == year && r.entry.value.date.month == month
  }

  /** The rows the report query returns, in table order. */
  function MonthRows(rows: seq<AttendanceRecord>, uuid: string, year: int, month: int): (s: seq<AttendanceRecord>)
    ensures |s| <= |rows|
    ensures forall j :: 0 <= j < |s| ==> InMonth(s[j], uuid, year, month)
  {
    if rows == [] then []
    else if InMonth(rows[0], uuid, year, month) then [rows[0]] + MonthRows(rows[1..], uuid, year, month)
    else MonthRows(rows[1..], uuid, year, month)
  }

  /** One element of `detalles`, with the hour figures kept as minutes. */
  datatype DayDetail = DayDetail(
    date: Date,
    entry: DateTime,
    breakOut: Option<DateTime>,
    breakIn: Option<DateTime>,
    exit: Option<DateTime>,
    grossMinutes: int,
    breakMinutes: int,
    netMinutes: int)

  /** `TIMESTAMPDIFF(MINUTE, from, to) || 0`: NULL when either stamp is
      missing, and NULL (like 0) reads as 0. */
  function MinutesOrZero(from: Option<DateTime>, to: Option<DateTime>): (m: int)
    ensures from.None? || to.None? ==> m == 0
    ensures from.Some? && to.Some? && EpochSecond(from.value) <= EpochSecond(to.value) ==> m >= 0
  {
    if from.Some? && to.Some? then MinutesBetween(from.value, to.value) else 0
  }

  /** The `map` callback: gross is exit minus entry, break is break-in
      minus break-out, net is their difference. */
  function Detail(r: AttendanceRecord): (d: DayDetail)
    requires r.entry.Some?
    ensures d.date == r.entry.value.date && d.entry == r.entry.value
    ensures d.breakOut == r.breakOut && d.breakIn == r.breakIn && d.exit == r.exit
    ensures d.netMinutes == d.grossMinutes - d.breakMinutes
    ensures r.exit.None? ==> d.grossMinutes == 0
    ensures r.breakOut.None? || r.breakIn.None? ==> d.breakMinutes == 0
  {
    var gross := MinutesOrZero(r.entry, r.exit);
    var pause := MinutesOrZero(r.breakOut, r.breakIn);
    DayDetail(r.entry.value.date, r.entry.value, r.breakOut, r.breakIn, r.exit, gross, pause, gross - pause)
  }

  function TotalGross(ds: seq<DayDetail>): int {
    if ds == [] then 0 else TotalGross(ds[..|ds| - 1]) + ds[|ds| - 1].grossMinutes
  }

  function TotalBreak(ds: seq<DayDetail>): int {
    if ds == [] then 0 else TotalBreak(ds[..|ds| - 1]) + ds[|ds| - 1].breakMinutes
  }

  function TotalNet(ds: seq<DayDetail>): int {
    if ds == [] then 0 else TotalNet(ds[..|ds| - 1]) + ds[|ds| - 1].netMinutes
  }

  /** The `trabajador` block of the response. */
  datatype WorkerCard = WorkerCard(names: string, role: string, contact: string, address: string, bracelet: string)

  /** The response body: `mes`, `trabajador`, `resumen` and `detalles`. */
  datatype MonthlySummary = MonthlySummary(
    month: string,
    worker: WorkerCard,
    daysWorked: nat,
    grossMinutes: int,
    breakMinutes: int,
    netMinutes: int,
    details: seq<DayDetail>)

  datatype ReportError =
    | MissingPeriod   // 400 'Debe proporcionar año y mes ...'
    | WorkerNotFound  // 404 'Trabajador no encontrado para esta pulsera'

  datatype ReportOutcome = Report(summary: MonthlySummary) | ReportRejected(error: ReportError)

  /** `reporteMensualAsistencia` for the bracelet in the path and the
      `anio`/`mes` query parameters, over the worker and attendance tables. */
  method MonthlyReport(workers: seq<Worker>, rows: seq<AttendanceRecord>, uuid: string,
                       anio: Option<string>, mes: Option<string>)
    returns (out: ReportOutcome)
    ensures !Present(anio) || !Present(mes) ==> out == ReportRejected(MissingPeriod)
    ensures Present(anio) && Present(mes) && FindWorker(workers, uuid).None? ==> out == ReportRejected(WorkerNotFound)
    ensures Present(anio) && Present(mes) && FindWorker(workers, uuid).Some? ==>
              var w := FindWorker(workers, uuid).value;
              var selected := MonthRows(rows, uuid, LeadingNumber(anio.value), LeadingNumber(mes.value));
              && out.Report?
              && out.summary.month == anio.value + "-" + PadStart(mes.value, 2)
              && out.summary.worker == WorkerCard(w.names, w.role, w.contact, w.address, uuid)
              && out.summary.daysWorked == |selected|
              && |out.summary.details| == |selected|
              && (forall j :: 0 <= j < |selected| ==> out.summary.details[j] == Detail(selected[j]))
              && out.summary.grossMinutes == TotalGross(out.summary.details)
              && out.summary.breakMinutes == TotalBreak(out.summary.details)
              && out.summary.netMinutes == TotalNet(out.summary.details)
  {
    if !Present(anio) || !Present(mes) {
      return ReportRejected(MissingPeriod);
    }
    var worker := FindWorker(workers, uuid);
    if worker.None? {
      return ReportRejected(WorkerNotFound);
    }
    var w := worker.value;
    var selected := MonthRows(rows, uuid, LeadingNumber(anio.value), LeadingNumber(mes.value));
    var daysWorked := |selected|;
    var details, totalGross, totalBreak := SummarizeDays(selected);
    NetTotalIsSumOfNets(details);
    var card := WorkerCard(w.names, w.role, w.contact, w.address, uuid);
    var month := anio.value + "-" + PadStart(mes.value, 2);
    return Report(MonthlySummary(month, card, daysWorked, totalGross, totalBreak, totalGross - totalBreak, details));
  }

  /** The `asistencias.map(...)` pass: one detail per selected row, while
      `total_brutos` and `total_colacion` accumulate. */
  method SummarizeDays(selected: seq<AttendanceRecord>)
    returns (details: seq<DayDetail>, totalGross: int, totalBreak: int)
    requires forall j :: 0 <= j < |selected| ==> selected[j].entry.Some?
    ensures |details| == |selected|
    ensures forall j :: 0 <= j < |selected| ==> details[j] == Detail(selected[j])
    ensures totalGross == TotalGross(details) && totalBreak == TotalBreak(details)
  {
    totalGross, totalBreak, details := 0, 0, [];
    var i := 0;
    while i < |selected|
      invariant 0 <= i <= |selected|
      invariant |details| == i
      invariant forall j :: 0 <= j < i ==> details[j] == Detail(selected[j])
      invariant totalGross == TotalGross(details)
      invariant totalBreak == TotalBreak(details)
    {
      var a := selected[i];
      var gross := MinutesOrZero(a.entry, a.exit);
      var pause := MinutesOrZero(a.breakOut, a.breakIn);
      var net := gross - pause;
      totalGross := totalGross + gross;
      totalBreak := totalBreak + pause;
      var d := DayDetail(a.entry.value.date, a.entry.value, a.breakOut, a.breakIn, a.exit, gross, pause, net);
      assert (details + [d])[..|details|] == details;
      details := details + [d];
      i := i + 1;
    }
  }

  // ---------------------------------------------------------------------
  // Properties

  /** `dias_trabajados` counts exactly the bracelet's rows whose entry falls
      in the month: each such row is selected as often as it occurs in the
      table, and no other row is. */
  lemma {:induction false} MonthRowsSelectsExactly(rows: seq<AttendanceRecord>, uuid: string, year: int, month: int)
    ensures forall x :: multiset(MonthRows(rows, uuid, year, month))[x]
                        == if InMonth(x, uuid, year, month) then multiset(rows)[x] else 0
  {
    if rows != [] {
      MonthRowsSelectsExactly(rows[1..], uuid, year, month);
      assert rows == [rows[0]] + rows[1..];
      assert multiset(rows) == multiset{rows[0]} + multiset(rows[1..]);
    }
  }

  /** The total net minutes, computed as total gross minus total break,
      equal the sum of the per-day nets. */
  lemma {:induction false} NetTotalIsSumOfNets(ds: seq<DayDetail>)
    requires forall j :: 0 <= j < |ds| ==> ds[j].netMinutes == ds[j].grossMinutes - ds[j].breakMinutes
    ensures TotalGross(ds) - TotalBreak(ds) == TotalNet(ds)
  {
    if ds != [] {
      NetTotalIsSumOfNets(ds[..|ds| - 1]);
    }
  }

  /** A missing endpoint makes that day's gross or break 0; the net is
      gross minus break, not clamped at 0. */
  lemma DetailMinutes(r: AttendanceRecord)
    requires r.entry.Some?
    ensures r.exit.None? ==> Detail(r).grossMinutes == 0
    ensures r.breakOut.None? || r.breakIn.None? ==> Detail(r).breakMinutes == 0
    ensures r.exit.Some? ==> Detail(r).grossMinutes == MinutesBetween(r.entry.value, r.exit.value)
    ensures r.breakOut.Some? && r.breakIn.Some? ==>
              Detail(r).breakMinutes == MinutesBetween(r.breakOut.value, r.breakIn.value)
    ensures Detail(r).netMinutes == Detail(r).grossMinutes - Detail(r).breakMinutes
    ensures Detail(r).date == r.entry.value.date
  {
  }

  /** Entry 08:00, break-out 12:00, break-in 12:30, exit 17:00: 540 gross,
      30 break and 510 net minutes (9.00, 0.50 and 8.50 hours). */
  lemma FullDayExample(day: Date)
    ensures var r := AttendanceRecord(1, "X1", Some(DateTime(day, 8 * 3600)), Some(DateTime(day, 12 * 3600)),
                                      Some(DateTime(day, 12 * 3600 + 30 * 60)), Some(DateTime(day, 17 * 3600)));
            Detail(r).grossMinutes == 540 && Detail(r).breakMinutes == 30 && Detail(r).netMinutes == 510
  {
  }

  /** A break longer than the stay gives a negative net: entry 08:00,
      exit 09:00, break 10:00 to 12:00 is 60 gross, 120 break, -60 net. */
  lemma NetCanBeNegative(day: Date)
    ensures var r := AttendanceRecord(1, "X1", Some(DateTime(day, 8 * 3600)), Some(DateTime(day, 10 * 3600)),
                                      Some(DateTime(day, 12 * 3600)), Some(DateTime(day, 9 * 3600)));
            Detail(r).netMinutes == -60
  {
  }

  /** Rows stamped in order (as a clock that never runs backwards leaves
      them) have a gross that is never negative. */
  lemma GrossNotNegative(r: AttendanceRecord)
    requires MarksNotBeforeEntry(r)
    ensures Detail(r).grossMinutes >= 0
  {
    if r.exit.Some? {
      assert r.Field(Exit).Some?;
    }
  }

  /** A month number outside 1..12 (`mes=13`) selects no row of a table
      whose entries are real dates: an empty report, not an error. */
  lemma {:induction false} MonthOutOfRangeSelectsNothing(rows: seq<AttendanceRecord>, uuid: string, year: int, month: int)
    requires month < 1 || month > 12
    requires forall j :: 0 <= j < |rows| ==> rows[j].entry.Some? ==> ValidDateTime(rows[j].entry.value)
    ensures MonthRows(rows, uuid, year, month) == []
  {
    if rows != [] {
      MonthOutOfRangeSelectsNothing(rows[1..], uuid, year, month);
    }
  }

  lemma {:induction false} MonthRowsAppend(rows: seq<AttendanceRecord>, x: AttendanceRecord, uuid: string, year: int, month: int)
    ensures MonthRows(rows + [x], uuid, year, month)
            == MonthRows(rows, uuid, year, month) + (if InMonth(x, uuid, year, month) then [x] else [])
  {
    if rows != [] {
      assert (rows + [x])[1..] == rows[1..] + [x];
      MonthRowsAppend(rows[1..], x, uuid, year, month);
    }
  }

  /** What a mark writes, the month report reads back: after an accepted
      mark at `now`, the report for `now`'s year and month holds the
      bracelet's row with that column stamped exactly `now`. */
  lemma MarkReadBack(l: Ledger, bracelets: BraceletTable, uuid: string, tipo: string, now: DateTime)
    requires var r := MarkStep(l, bracelets, Some(uuid), Some(tipo), now);
             r.outcome == EntryRecorded || r.outcome == MarkRecorded
    ensures MarkKindOf(tipo).Some?
    ensures var after := MarkStep(l, bracelets, Some(uuid), Some(tipo), now).after;
            exists x :: x in MonthRows(after.rows, uuid, now.date.year, now.date.month)
                        && x.bracelet == uuid && x.Field(MarkKindOf(tipo).value) == Some(now)
  {
    var r := MarkStep(l, bracelets, Some(uuid), Some(tipo), now);
    var k := MarkKindOf(tipo).value;
    var sel := MonthRows(r.after.rows, uuid, now.date.year, now.date.month);
    MonthRowsSelectsExactly(r.after.rows, uuid, now.date.year, now.date.month);
    var x: AttendanceRecord;
    if r.outcome == EntryRecorded {
      x := NewEntry(l.nextId, uuid, now);
      assert r.after.rows == l.rows + [x];
      assert r.after.rows[|l.rows|] == x;
    } else {
      var i := TodayIndex(l.rows, uuid, now.date).value;
      x := l.rows[i].WithField(k, now);
      assert r.after.rows[i] == x;
      assert k != Entry;
    }
    assert x in multiset(r.after.rows);
    assert InMonth(x, uuid, now.date.year, now.date.month);
    assert x in multiset(sel);
  }
}
