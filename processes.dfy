/** The fruit-collection table `procesos` and its handlers
    `registrarDesdePulsera`, `resumenDiarioPorPulsera`, `actualizarProceso`
    and `eliminarProceso` (src/controllers/procesoController.js). */
module FruitProcesses {
  import opened Common
  import opened Clock
  import opened Directory

  /** A row of `procesos`. `braceletId` is the `id_pulsera` column, which
      both inserts and the update write; `braceletUuid` is the
      `pulsera_uuid` column, which the daily summary filters on and which
      no handler writes. `quantity` is `cantidad_fruta`, `at` is `fecha`. */
  datatype ProcessRow = ProcessRow(
    id: nat,
    braceletId: Option<string>,
    braceletUuid: Option<string>,
    quantity: Option<real>,
    at: Option<DateTime>)

  /** The table's contents and its AUTO_INCREMENT counter. */
  datatype ProcessLog = ProcessLog(rows: seq<ProcessRow>, nextId: nat)

  predicate UniqueIds(t: ProcessLog) {
    && (forall j :: 0 <= j < |t.rows| ==> t.rows[j].id < t.nextId)
    && (forall i, j :: 0 <= i < j < |t.rows| ==> t.rows[i].id != t.rows[j].id)
  }

  // ---------------------------------------------------------------------
  // registrarDesdePulsera

  /** JavaScript truthiness of `cantidad_fruta`: missing, `null` and `0` are falsy. */
  predicate QuantityGiven(q: Option<real>) {
    q.Some? && q.value != 0.0
  }

  /** `trabajadores JOIN pulseras ON t.pulsera_uuid = p.uuid WHERE p.uuid = ?`,
      first row: a worker wearing a bracelet that is registered. */
  function LinkedWorker(workers: seq<Worker>, bracelets: BraceletTable, uuid: string): (w: Option<Worker>)
    ensures w.Some? ==> uuid in bracelets && w.value in workers && w.value.bracelet == Some(uuid)
    ensures w.None? <==> uuid !in bracelets || forall i :: 0 <= i < |workers| ==> workers[i].bracelet != Some(uuid)
  {
    if uuid in bracelets then FindWorker(workers, uuid) else None
  }

  datatype RegisterError =
    | MissingData  // 400 'Faltan datos requeridos'
    | NotLinked    // 404 'Pulsera no asociada a trabajador'
    | Inactive     // 403 'Pulsera inactiva. Registro no permitido.'

  /** A success carries the worker's `nombres` for the 201 message. */
  datatype RegisterOutcome = Registered(workerNames: string) | RegisterRejected(error: RegisterError)

  function RegisterStatus(o: RegisterOutcome): int {
    match o
    case Registered(_) => 201
    case RegisterRejected(MissingData) => 400
    case RegisterRejected(NotLinked) => 404
    case RegisterRejected(Inactive) => 403
  }

  datatype RegisterResult = RegisterResult(outcome: RegisterOutcome, after: ProcessLog)

  /** The row `INSERT INTO procesos (id_pulsera, cantidad_fruta, fecha) VALUES (?, ?, NOW())` adds. */
  function RegisteredRow(id: nat, uuid: string, quantity: real, now: DateTime): ProcessRow {
    ProcessRow(id, Some(uuid), None, Some(quantity), Some(now))
  }

  /** `registrarDesdePulsera` as a function of the tables, the request body
      and the clock reading `now`. */
  function RegisterStep(t: ProcessLog, workers: seq<Worker>, bracelets: BraceletTable,
                        uuid: Option<string>, quantity: Option<real>, now: DateTime): (r: RegisterResult)
    ensures r.outcome.RegisterRejected? ==> r.after == t
    ensures r.outcome.Registered? ==> Present(uuid) && QuantityGiven(quantity)
                                      && uuid.value in bracelets && bracelets[uuid.value] == ACTIVE
                                      && r.after.rows == t.rows + [RegisteredRow(t.nextId, uuid.value, quantity.value, now)]
  {
    if !Present(uuid) || !QuantityGiven(quantity) then RegisterResult(RegisterRejected(MissingData), t)
    else
      match LinkedWorker(workers, bracelets, uuid.value)
      case None => RegisterResult(RegisterRejected(NotLinked), t)
      case Some(w) =>
        if bracelets[uuid.value] != ACTIVE then RegisterResult(RegisterRejected(Inactive), t)
        else RegisterResult(Registered(w.names),
                            ProcessLog(t.rows + [RegisteredRow(t.nextId, uuid.value, quantity.value, now)], t.nextId + 1))
  }

  // ---------------------------------------------------------------------
  // actualizarProceso and eliminarProceso

  /** `affectedRows` of a statement `... WHERE id = ?`: the rows it matches. */
  function RowsWithId(rows: seq<ProcessRow>, id: nat): (n: nat)
    ensures n <= |rows|
    ensures n == 0 <==> forall j :: 0 <= j < |rows| ==> rows[j].id != id
  {
    if rows == [] then 0
    else
      var rest := RowsWithId(rows[1..], id);
      assert forall j :: 1 <= j < |rows| ==> rows[j] == rows[1..][j - 1];
      (if rows[0].id == id then 1 else 0) + rest
  }

  /** `UPDATE procesos SET id_pulsera = ?, cantidad_fruta = ?, fecha = ? WHERE id = ?`. */
  function ReplaceWhereId(rows: seq<ProcessRow>, id: nat, braceletId: Option<string>, quantity: Option<real>,
                          at: Option<DateTime>): (r: seq<ProcessRow>)
    ensures |r| == |rows|
    ensures forall j :: 0 <= j < |rows| ==> r[j].id == rows[j].id && r[j].braceletUuid == rows[j].braceletUuid
    ensures forall j :: 0 <= j < |rows| && rows[j].id != id ==> r[j] == rows[j]
    ensures forall j :: 0 <= j < |rows| && rows[j].id == id ==>
              r[j].braceletId == braceletId && r[j].quantity == quantity && r[j].at == at
  {
    seq(|rows|, j requires 0 <= j < |rows| =>
      if rows[j].id == id then rows[j].(braceletId := braceletId, quantity := quantity, at := at) else rows[j])
  }

  /** `DELETE FROM procesos WHERE id = ?`. */
  function RemoveWhereId(rows: seq<ProcessRow>, id: nat): (r: seq<ProcessRow>)
    ensures |r| == |rows| - RowsWithId(rows, id)
    ensures forall j :: 0 <= j < |r| ==> r[j].id != id
  {
    if rows == [] then []
    else if rows[0].id == id then RemoveWhereId(rows[1..], id)
    else [rows[0]] + RemoveWhereId(rows[1..], id)
  }

  /** 200 when some row matched, 404 'Proceso no encontrado' otherwise. */
  datatype KeyedOutcome = Done | NoSuchProcess

  datatype KeyedResult = KeyedResult(outcome: KeyedOutcome, after: ProcessLog)

  function UpdateStep(t: ProcessLog, id: nat, braceletId: Option<string>, quantity: Option<real>,
                      at: Option<DateTime>): (r: KeyedResult)
    ensures r.outcome == NoSuchProcess <==> forall j :: 0 <= j < |t.rows| ==> t.rows[j].id != id
    ensures r.after.nextId == t.nextId && |r.after.rows| == |t.rows|
  {
    var updated := ProcessLog(ReplaceWhereId(t.rows, id, braceletId, quantity, at), t.nextId);
    if RowsWithId(t.rows, id) == 0 then KeyedResult(NoSuchProcess, updated) else KeyedResult(Done, updated)
  }

  function DeleteStep(t: ProcessLog, id: nat): (r: KeyedResult)
    ensures r.outcome == NoSuchProcess <==> forall j :: 0 <= j < |t.rows| ==> t.rows[j].id != id
    ensures r.after.nextId == t.nextId && |r.after.rows| == |t.rows| - RowsWithId(t.rows, id)
  {
    var remaining := ProcessLog(RemoveWhereId(t.rows, id), t.nextId);
    if RowsWithId(t.rows, id) == 0 then KeyedResult(NoSuchProcess, remaining) else KeyedResult(Done, remaining)
  }

  // ---------------------------------------------------------------------
  // resumenDiarioPorPulsera

  /** The column a summary query matches the bracelet against. */
  datatype BraceletColumn = IdPulsera | PulseraUuid

  function BraceletIn(r: ProcessRow, column: BraceletColumn): Option<string> {
    match column
    case IdPulsera => r.braceletId
    case PulseraUuid => r.braceletUuid
  }

  /** The summary query's condition: `<column> = ? AND DATE(fecha) = ?`. */
  predicate OnDay(r: ProcessRow, column: BraceletColumn, uuid: string, day: Date) {
    BraceletIn(r, column) == Some(uuid) && r.at.Some? && r.at.value.date == day
  }

  /** `COUNT(*)` over the matching rows. */
  function CountOn(rows: seq<ProcessRow>, column: BraceletColumn, uuid: string, day: Date): (n: nat)
    ensures n <= |rows|
    ensures n == 0 <==> forall j :: 0 <= j < |rows| ==> !OnDay(rows[j], column, uuid, day)
  {
    if rows == [] then 0
    else
      var rest := CountOn(rows[1..], column, uuid, day);
      assert forall j :: 1 <= j < |rows| ==> rows[j] == rows[1..][j - 1];
      (if OnDay(rows[0], column, uuid, day) then 1 else 0) + rest
  }

  /** `SUM(cantidad_fruta)` over the matching rows, NULL quantities skipped;
      a NULL sum (no rows) reads as 0 through `|| 0`. */
  function SumOn(rows: seq<ProcessRow>, column: BraceletColumn, uuid: string, day: Date): (total: real)
    ensures (forall j :: 0 <= j < |rows| ==> !OnDay(rows[j], column, uuid, day)) ==> total == 0.0
  {
    if rows == [] then 0.0
    else
      var rest := SumOn(rows[1..], column, uuid, day);
      assert forall j :: 1 <= j < |rows| ==> rows[j] == rows[1..][j - 1];
      (if OnDay(rows[0], column, uuid, day) && rows[0].quantity.Some? then rows[0].quantity.value else 0.0) + rest
  }

  /** The response body: `fecha`, the worker's `nombres` and `rol`, the
      bracelet, `procesos_realizados` and `total_fruta`. */
  datatype DailySummary = DailySummary(
    date: string,
    names: string,
    role: string,
    bracelet: string,
    processCount: nat,
    totalFruit: real)

  datatype SummaryError =
    | MissingDate  // 400 'La fecha es requerida (formato YYYY-MM-DD)'
    | NoWorker     // 404 'No hay trabajador asociado a esa pulsera'

  datatype SummaryOutcome = Summary(summary: DailySummary) | SummaryRejected(error: SummaryError)

  /** The summary handler, matching the bracelet against `column`. A
      `fecha` that is not a `YYYY-MM-DD` date matches no row. */
  function SummaryOn(workers: seq<Worker>, rows: seq<ProcessRow>, uuid: string, fecha: Option<string>,
                     column: BraceletColumn): (o: SummaryOutcome)
    ensures o == SummaryRejected(MissingDate) <==> !Present(fecha)
    ensures o == SummaryRejected(NoWorker) <==> Present(fecha) && FindWorker(workers, uuid).None?
    ensures o.Summary? ==> o.summary.date == fecha.value && o.summary.bracelet == uuid
                           && o.summary.names == FindWorker(workers, uuid).value.names
                           && o.summary.role == FindWorker(workers, uuid).value.role
  {
    if !Present(fecha) then SummaryRejected(MissingDate)
    else
      match FindWorker(workers, uuid)
      case None => SummaryRejected(NoWorker)
      case Some(w) =>
        match ParseIsoDate(fecha.value)
        case None => Summary(DailySummary(fecha.value, w.names, w.role, uuid, 0, 0.0))
        case Some(day) =>
          Summary(DailySummary(fecha.value, w.names, w.role, uuid,
                               CountOn(rows, column, uuid, day), SumOn(rows, column, uuid, day)))
  }

  /** `resumenDiarioPorPulsera` as the source writes it: it filters on
      `pulsera_uuid`, a column the registration never fills. */
  function DailySummaryAsWritten(workers: seq<Worker>, rows: seq<ProcessRow>, uuid: string,
                                 fecha: Option<string>): SummaryOutcome
  {
    SummaryOn(workers, rows, uuid, fecha, PulseraUuid)
  }

  /** `resumenDiarioPorPulsera` filtering on `id_pulsera`, the column the
      registration writes: the summary the handler is meant to give. */
  function DailySummaryFor(workers: seq<Worker>, rows: seq<ProcessRow>, uuid: string,
                           fecha: Option<string>): SummaryOutcome
  {
    SummaryOn(workers, rows, uuid, fecha, IdPulsera)
  }

  // ---------------------------------------------------------------------
  // Properties of registration

  /** A missing bracelet or quantity, including a quantity of 0, is a 400
      and inserts nothing. */
  lemma RegisterInputErrors(t: ProcessLog, workers: seq<Worker>, bracelets: BraceletTable,
                            uuid: Option<string>, quantity: Option<real>, now: DateTime)
    requires !Present(uuid) || quantity.None? || quantity == Some(0.0)
    ensures RegisterStep(t, workers, bracelets, uuid, quantity, now) == RegisterResult(RegisterRejected(MissingData), t)
    ensures RegisterStatus(RegisterRejected(MissingData)) == 400
  {
  }

  /** A bracelet not joined to a worker is a 404, an inactive one a 403;
      neither inserts a row. */
  lemma RegisterLinkErrors(t: ProcessLog, workers: seq<Worker>, bracelets: BraceletTable,
                           uuid: string, quantity: real, now: DateTime)
    requires uuid != "" && quantity != 0.0
    requires LinkedWorker(workers, bracelets, uuid).None? || bracelets[uuid] != ACTIVE
    ensures var r := RegisterStep(t, workers, bracelets, Some(uuid), Some(quantity), now);
            r.after == t
            && r.outcome == (if LinkedWorker(workers, bracelets, uuid).None? then RegisterRejected(NotLinked)
                             else RegisterRejected(Inactive))
  {
  }

  /** Otherwise exactly one row is appended, holding the bracelet, the
      quantity and `now` under the next id; nothing else changes. */
  lemma RegisterAppendsOne(t: ProcessLog, workers: seq<Worker>, bracelets: BraceletTable,
                           uuid: string, quantity: real, now: DateTime)
    requires uuid != "" && quantity != 0.0
    requires LinkedWorker(workers, bracelets, uuid).Some? && bracelets[uuid] == ACTIVE
    ensures var r := RegisterStep(t, workers, bracelets, Some(uuid), Some(quantity), now);
            && RegisterStatus(r.outcome) == 201
            && r.outcome.workerNames == LinkedWorker(workers, bracelets, uuid).value.names
            && r.after.nextId == t.nextId + 1
            && |r.after.rows| == |t.rows| + 1
            && r.after.rows[..|t.rows|] == t.rows
            && r.after.rows[|t.rows|] == ProcessRow(t.nextId, Some(uuid), None, Some(quantity), Some(now))
  {
    assert (t.rows + [RegisteredRow(t.nextId, uuid, quantity, now)])[..|t.rows|] == t.rows;
  }

  // ---------------------------------------------------------------------
  // Properties of update and delete

  /** An update matching no id is a 404 and changes nothing; otherwise
      only the row with that id is rewritten, and its `pulsera_uuid` and
      id are kept. */
  lemma UpdateChangesOnlyThatRow(t: ProcessLog, id: nat, braceletId: Option<string>, quantity: Option<real>,
                                 at: Option<DateTime>)
    requires UniqueIds(t)
    ensures var r := UpdateStep(t, id, braceletId, quantity, at);
            && (r.outcome == NoSuchProcess <==> forall j :: 0 <= j < |t.rows| ==> t.rows[j].id != id)
            && (r.outcome == NoSuchProcess ==> r.after == t)
            && r.after.nextId == t.nextId && |r.after.rows| == |t.rows|
            && forall j :: 0 <= j < |t.rows| ==>
                 r.after.rows[j] == if t.rows[j].id == id
                                    then ProcessRow(id, braceletId, t.rows[j].braceletUuid, quantity, at)
                                    else t.rows[j]
  {
    var r := UpdateStep(t, id, braceletId, quantity, at);
    if r.outcome == NoSuchProcess {
      assert r.after.rows == t.rows;
    }
  }

  /** Deleting an id held by the row at `i` removes that row and keeps the
      others in order; an id no row holds is a 404 and removes nothing. */
  lemma {:induction false} RemoveWhereIdUnique(rows: seq<ProcessRow>, id: nat, i: nat)
    requires i < |rows| && rows[i].id == id
    requires forall j :: 0 <= j < |rows| && j != i ==> rows[j].id != id
    ensures RemoveWhereId(rows, id) == rows[..i] + rows[i + 1..]
  {
    var tail := rows[1..];
    assert forall j :: 0 <= j < |tail| ==> tail[j] == rows[j + 1];
    if i == 0 {
      RemoveAbsentId(tail, id);
      assert rows[..0] + rows[1..] == tail;
    } else {
      RemoveWhereIdUnique(tail, id, i - 1);
      assert RemoveWhereId(rows, id) == [rows[0]] + (tail[..i - 1] + tail[i..]);
      assert rows[..i] == [rows[0]] + tail[..i - 1];
      assert tail[i..] == rows[i + 1..];
    }
  }

  lemma {:induction false} RemoveAbsentId(rows: seq<ProcessRow>, id: nat)
    requires forall j :: 0 <= j < |rows| ==> rows[j].id != id
    ensures RemoveWhereId(rows, id) == rows
  {
    if rows != [] {
      assert rows[0].id != id;
      RemoveAbsentId(rows[1..], id);
      assert rows == [rows[0]] + rows[1..];
    }
  }

  /** The delete keeps exactly the rows without the id: each such row as
      often as it occurs, and no other. */
  lemma {:induction false} RemoveWhereIdKeepsOthers(rows: seq<ProcessRow>, id: nat)
    ensures forall x :: multiset(RemoveWhereId(rows, id))[x] == if x.id == id then 0 else multiset(rows)[x]
  {
    if rows != [] {
      RemoveWhereIdKeepsOthers(rows[1..], id);
      assert rows == [rows[0]] + rows[1..];
      assert multiset(rows) == multiset{rows[0]} + multiset(rows[1..]);
    }
  }

  /** The delete keeps table order: a row added at the end survives at the
      end exactly when its id differs. */
  lemma {:induction false} RemoveWhereIdAppend(rows: seq<ProcessRow>, x: ProcessRow, id: nat)
    ensures RemoveWhereId(rows + [x], id) == RemoveWhereId(rows, id) + (if x.id == id then [] else [x])
  {
    if rows != [] {
      assert (rows + [x])[1..] == rows[1..] + [x];
      RemoveWhereIdAppend(rows[1..], x, id);
    }
  }

  lemma DeleteRemovesOnlyThatRow(t: ProcessLog, id: nat)
    requires UniqueIds(t)
    ensures var r := DeleteStep(t, id);
            && (r.outcome == NoSuchProcess <==> forall j :: 0 <= j < |t.rows| ==> t.rows[j].id != id)
            && (r.outcome == NoSuchProcess ==> r.after == t)
            && r.after.nextId == t.nextId
            && forall i :: 0 <= i < |t.rows| && t.rows[i].id == id ==> r.after.rows == t.rows[..i] + t.rows[i + 1..]
  {
    var r := DeleteStep(t, id);
    if r.outcome == NoSuchProcess {
      RemoveAbsentId(t.rows, id);
    }
    forall i | 0 <= i < |t.rows| && t.rows[i].id == id
      ensures r.after.rows == t.rows[..i] + t.rows[i + 1..]
    {
      RemoveWhereIdUnique(t.rows, id, i);
    }
  }

  /** Registration, update and delete keep ids distinct and below the counter. */
  lemma RegisterPreservesUniqueIds(t: ProcessLog, workers: seq<Worker>, bracelets: BraceletTable,
                                   uuid: Option<string>, quantity: Option<real>, now: DateTime)
    requires UniqueIds(t)
    ensures UniqueIds(RegisterStep(t, workers, bracelets, uuid, quantity, now).after)
  {
  }

  lemma UpdatePreservesUniqueIds(t: ProcessLog, id: nat, braceletId: Option<string>, quantity: Option<real>,
                                 at: Option<DateTime>)
    requires UniqueIds(t)
    ensures UniqueIds(UpdateStep(t, id, braceletId, quantity, at).after)
  {
    var u := UpdateStep(t, id, braceletId, quantity, at).after;
    assert forall j :: 0 <= j < |u.rows| ==> u.rows[j].id == t.rows[j].id;
  }

  lemma DeletePreservesUniqueIds(t: ProcessLog, id: nat)
    requires UniqueIds(t)
    ensures UniqueIds(DeleteStep(t, id).after)
  {
    if RowsWithId(t.rows, id) != 0 {
      var i :| 0 <= i < |t.rows| && t.rows[i].id == id;
      RemoveWhereIdUnique(t.rows, id, i);
      UniqueIdsWithout(t, i);
    } else {
      RemoveAbsentId(t.rows, id);
    }
  }

  lemma UniqueIdsWithout(t: ProcessLog, i: nat)
    requires UniqueIds(t) && i < |t.rows|
    ensures UniqueIds(ProcessLog(t.rows[..i] + t.rows[i + 1..], t.nextId))
  {
    var rest := t.rows[..i] + t.rows[i + 1..];
    assert forall a :: 0 <= a < |rest| ==> rest[a] == t.rows[if a < i then a else a + 1];
  }

  // ---------------------------------------------------------------------
  // Properties of the summary

  /** A missing `fecha` is a 400 and a bracelet worn by no worker a 404;
      otherwise the count and total of that bracelet's rows on that day,
      each 0 when there are none. */
  lemma SummaryOutcomes(workers: seq<Worker>, rows: seq<ProcessRow>, uuid: string, fecha: Option<string>,
                        column: BraceletColumn)
    ensures !Present(fecha) ==> SummaryOn(workers, rows, uuid, fecha, column) == SummaryRejected(MissingDate)
    ensures Present(fecha) && FindWorker(workers, uuid).None? ==>
              SummaryOn(workers, rows, uuid, fecha, column) == SummaryRejected(NoWorker)
    ensures Present(fecha) && FindWorker(workers, uuid).Some? && ParseIsoDate(fecha.value).None? ==>
              var s := SummaryOn(workers, rows, uuid, fecha, column);
              s.Summary? && s.summary.processCount == 0 && s.summary.totalFruit == 0.0
    ensures Present(fecha) && FindWorker(workers, uuid).Some? && ParseIsoDate(fecha.value).Some? ==>
              var day := ParseIsoDate(fecha.value).value;
              var s := SummaryOn(workers, rows, uuid, fecha, column);
              && s.Summary?
              && s.summary.processCount == CountOn(rows, column, uuid, day)
              && s.summary.totalFruit == SumOn(rows, column, uuid, day)
              && ((forall j :: 0 <= j < |rows| ==> !OnDay(rows[j], column, uuid, day)) ==>
                    s.summary.processCount == 0 && s.summary.totalFruit == 0.0)
  {
  }

  /** Appending a row adds one to the count and its quantity to the total
      exactly when the row matches. */
  lemma {:induction false} SummaryOfAppend(rows: seq<ProcessRow>, x: ProcessRow, column: BraceletColumn,
                                           uuid: string, day: Date)
    ensures CountOn(rows + [x], column, uuid, day)
            == CountOn(rows, column, uuid, day) + (if OnDay(x, column, uuid, day) then 1 else 0)
    ensures SumOn(rows + [x], column, uuid, day)
            == SumOn(rows, column, uuid, day)
               + (if OnDay(x, column, uuid, day) && x.quantity.Some? then x.quantity.value else 0.0)
  {
    if rows != [] {
      assert (rows + [x])[1..] == rows[1..] + [x];
      SummaryOfAppend(rows[1..], x, column, uuid, day);
    }
  }

  /** A registration at `now` shows up in that day's summary: the count
      goes up by one and the total by the quantity registered. */
  lemma RegisterThenSummaryCounts(t: ProcessLog, workers: seq<Worker>, bracelets: BraceletTable,
                                  uuid: string, quantity: real, now: DateTime)
    requires RegisterStep(t, workers, bracelets, Some(uuid), Some(quantity), now).outcome.Registered?
    requires 0 <= now.date.year <= 9999 && 1 <= now.date.month <= 12 && 1 <= now.date.day <= 31
    ensures var fecha := Some(FormatIsoDate(now.date));
            var before := DailySummaryFor(workers, t.rows, uuid, fecha);
            var after := DailySummaryFor(workers, RegisterStep(t, workers, bracelets, Some(uuid), Some(quantity), now).after.rows,
                                         uuid, fecha);
            && before.Summary? && after.Summary?
            && after.summary.processCount == before.summary.processCount + 1
            && after.summary.totalFruit == before.summary.totalFruit + quantity
  {
    ParseFormatRoundTrip(now.date);
    SummaryOfAppend(t.rows, RegisteredRow(t.nextId, uuid, quantity, now), IdPulsera, uuid, now.date);
  }

  /** As written, the summary never sees a registration: its count and
      total for the day are the same before and after one. */
  lemma AsWrittenSummaryMissesRegistration(t: ProcessLog, workers: seq<Worker>, bracelets: BraceletTable,
                                           uuid: string, quantity: real, now: DateTime)
    requires RegisterStep(t, workers, bracelets, Some(uuid), Some(quantity), now).outcome.Registered?
    requires 0 <= now.date.year <= 9999 && 1 <= now.date.month <= 12 && 1 <= now.date.day <= 31
    ensures var fecha := Some(FormatIsoDate(now.date));
            var before := DailySummaryAsWritten(workers, t.rows, uuid, fecha);
            var after := DailySummaryAsWritten(workers, RegisterStep(t, workers, bracelets, Some(uuid), Some(quantity), now).after.rows,
                                               uuid, fecha);
            && before.Summary? && after.Summary?
            && after.summary.processCount == before.summary.processCount
            && after.summary.totalFruit == before.summary.totalFruit
  {
    ParseFormatRoundTrip(now.date);
    SummaryOfAppend(t.rows, RegisteredRow(t.nextId, uuid, quantity, now), PulseraUuid, uuid, now.date);
  }

  /** The concrete case: worker "Ana" wears active bracelet "X1"; on an
      empty table, registering 12 units on 2025-05-03 and asking for that
      day's summary gives 0 processes as written, 1 process and 12 units
      as intended. */
  lemma AsWrittenSummaryCounterexample()
    ensures var workers := [Worker(1, "Ana", "cosechera", "", "", Some("X1"))];
            var bracelets := map["X1" := ACTIVE];
            var now := DateTime(Date(2025, 5, 3), 9 * 3600);
            var t := RegisterStep(ProcessLog([], 1), workers, bracelets, Some("X1"), Some(12.0), now).after;
            var asWritten := DailySummaryAsWritten(workers, t.rows, "X1", Some("2025-05-03"));
            var intended := DailySummaryFor(workers, t.rows, "X1", Some("2025-05-03"));
            && asWritten.Summary? && asWritten.summary.processCount == 0
            && intended.Summary? && intended.summary.processCount == 1 && intended.summary.totalFruit == 12.0
  {
    var now := DateTime(Date(2025, 5, 3), 9 * 3600);
    ParseFormatRoundTrip(now.date);
    assert FormatIsoDate(now.date) == "2025-05-03";
  }

  // ---------------------------------------------------------------------
  // The table as the handlers mutate it

  /** The `procesos` table. */
  class ProcessTable {
    var rows: seq<ProcessRow>
    var nextId: nat

    /** An empty table; AUTO_INCREMENT ids start at 1. */
    constructor ()
      ensures rows == [] && nextId == 1
      ensures UniqueIds(State())
    {
      rows := [];
      nextId := 1;
    }

    function State(): ProcessLog
      reads this
    {
      ProcessLog(rows, nextId)
    }

    /** `registrarDesdePulsera`. */
    method RegisterFromBracelet(workers: seq<Worker>, bracelets: BraceletTable, uuid: Option<string>,
                                quantity: Option<real>, now: DateTime)
      returns (outcome: RegisterOutcome)
      modifies this
      ensures RegisterResult(outcome, State()) == RegisterStep(old(State()), workers, bracelets, uuid, quantity, now)
      ensures old(UniqueIds(State())) ==> UniqueIds(State())
    {
      if UniqueIds(State()) {
        RegisterPreservesUniqueIds(State(), workers, bracelets, uuid, quantity, now);
      }
      if !Present(uuid) || quantity.None? || quantity.value == 0.0 {
        return RegisterRejected(MissingData);
      }
      var worker := LinkedWorker(workers, bracelets, uuid.value);
      if worker.None? {
        return RegisterRejected(NotLinked);
      }
      if bracelets[uuid.value] != ACTIVE {
        return RegisterRejected(Inactive);
      }
      rows := rows + [RegisteredRow(nextId, uuid.value, quantity.value, now)];
      nextId := nextId + 1;
      return Registered(worker.value.names);
    }

    /** `actualizarProceso`. */
    method Update(id: nat, braceletId: Option<string>, quantity: Option<real>, at: Option<DateTime>)
      returns (outcome: KeyedOutcome)
      modifies this
      ensures KeyedResult(outcome, State()) == UpdateStep(old(State()), id, braceletId, quantity, at)
      ensures old(UniqueIds(State())) ==> UniqueIds(State())
    {
      if UniqueIds(State()) {
        UpdatePreservesUniqueIds(State(), id, braceletId, quantity, at);
      }
      var affected := RowsWithId(rows, id);
      rows := ReplaceWhereId(rows, id, braceletId, quantity, at);
      if affected == 0 {
        return NoSuchProcess;
      }
      return Done;
    }

    /** `eliminarProceso`. */
    method Delete(id: nat) returns (outcome: KeyedOutcome)
      modifies this
      ensures KeyedResult(outcome, State()) == DeleteStep(old(State()), id)
      ensures old(UniqueIds(State())) ==> UniqueIds(State())
    {
      if UniqueIds(State()) {
        DeletePreservesUniqueIds(State(), id);
      }
      var affected := RowsWithId(rows, id);
      rows := RemoveWhereId(rows, id);
      if affected == 0 {
        return NoSuchProcess;
      }
      return Done;
    }
  }
}
