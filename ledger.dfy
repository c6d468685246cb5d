/** The attendance ledger (`asistencias` table) and the bracelet mark
    handler `marcarAsistencia` with its helper `obtenerAsistenciaActual`
    (src/controllers/asistenciaController.js). */
module AttendanceLedger {
  import opened Common
  import opened Clock
  import opened Directory

  /** The four mark types a bracelet reader may send, one per timestamp column. */
  datatype MarkKind = Entry | BreakOut | BreakIn | Exit

  /** The `campos` table: the request's `tipo` names the column it stamps. */
  function MarkKindOf(tipo: string): (k: Option<MarkKind>)
    ensures k == Some(Entry) <==> tipo == "entrada"
    ensures k == Some(BreakOut) <==> tipo == "salida_colacion"
    ensures k == Some(BreakIn) <==> tipo == "entrada_colacion"
    ensures k == Some(Exit) <==> tipo == "salida"
    ensures k.None? <==> tipo != "entrada" && tipo != "salida_colacion"
                         && tipo != "entrada_colacion" && tipo != "salida"
  {
    if tipo == "entrada" then Some(Entry)
    else if tipo == "salida_colacion" then Some(BreakOut)
    else if tipo == "entrada_colacion" then Some(BreakIn)
    else if tipo == "salida" then Some(Exit)
    else None
  }

  /** A row of `asistencias`: `horario_entrada`, `horario_salida_colacion`,
      `horario_entrada_colacion` and `horario_salida`, each NULL until marked. */
  datatype AttendanceRecord = AttendanceRecord(
    id: nat,
    bracelet: string,
    entry: Option<DateTime>,
    breakOut: Option<DateTime>,
    breakIn: Option<DateTime>,
    exit: Option<DateTime>)
  {
    function Field(k: MarkKind): Option<DateTime> {
      match k
      case Entry => entry
      case BreakOut => breakOut
      case BreakIn => breakIn
      case Exit => exit
    }

    /** The record with column `k` stamped `t`. */
    function WithField(k: MarkKind, t: DateTime): (r: AttendanceRecord)
      ensures r.Field(k) == Some(t)
      ensures forall k' :: k' != k ==> r.Field(k') == Field(k')
      ensures r.id == id && r.bracelet == bracelet
      ensures k != Entry ==> r.entry == entry
    {
      match k
      case Entry => this.(entry := Some(t))
      case BreakOut => this.(breakOut := Some(t))
      case BreakIn => this.(breakIn := Some(t))
      case Exit => this.(exit := Some(t))
    }
  }

  /** The row `INSERT INTO asistencias (pulsera_uuid, horario_entrada) VALUES (?, NOW())` adds. */
  function NewEntry(id: nat, uuid: string, now: DateTime): AttendanceRecord {
    AttendanceRecord(id, uuid, Some(now), None, None, None)
  }

  /** The condition of `obtenerAsistenciaActual`:
      `pulsera_uuid = ? AND DATE(horario_entrada) = CURDATE()`. */
  predicate IsTodays(r: AttendanceRecord, uuid: string, today: Date) {
    r.bracelet == uuid && r.entry.Some? && r.entry.value.date == today
  }

  /** Position of the first row `obtenerAsistenciaActual` returns, if any. */
  function TodayIndex(rows: seq<AttendanceRecord>, uuid: string, today: Date): (i: Option<nat>)
    ensures i.Some? ==> i.value < |rows| && IsTodays(rows[i.value], uuid, today)
    ensures i.Some? ==> forall j :: 0 <= j < i.value ==> !IsTodays(rows[j], uuid, today)
    ensures i.None? ==> forall j :: 0 <= j < |rows| ==> !IsTodays(rows[j], uuid, today)
  {
    if rows == [] then None
    else if IsTodays(rows[0], uuid, today) then Some(0)
    else
      match TodayIndex(rows[1..], uuid, today)
      case None =>
        assert forall j :: 1 <= j < |rows| ==> rows[j] == rows[1..][j - 1];
        None
      case Some(i) =>
        assert forall j :: 1 <= j < i + 1 ==> rows[j] == rows[1..][j - 1];
        Some(i + 1)
  }

  /** `obtenerAsistenciaActual`: scans the table for today's row of a bracelet. */
  method FindTodaysRecord(rows: seq<AttendanceRecord>, uuid: string, today: Date)
    returns (found: Option<nat>)
    ensures found == TodayIndex(rows, uuid, today)
  {
    var i := 0;
    while i < |rows|
      invariant 0 <= i <= |rows|
      invariant forall j :: 0 <= j < i ==> !IsTodays(rows[j], uuid, today)
    {
      if IsTodays(rows[i], uuid, today) {
        return Some(i);
      }
      i := i + 1;
    }
    return None;
  }

  /** `UPDATE asistencias SET <column> = NOW() WHERE id = ?`. */
  function SetFieldWhereId(rows: seq<AttendanceRecord>, id: nat, k: MarkKind, now: DateTime): (r: seq<AttendanceRecord>)
    ensures |r| == |rows|
    ensures forall j :: 0 <= j < |rows| ==> r[j].id == rows[j].id && r[j].bracelet == rows[j].bracelet
    ensures forall j :: 0 <= j < |rows| && rows[j].id != id ==> r[j] == rows[j]
    ensures forall j :: 0 <= j < |rows| && rows[j].id == id ==> r[j].Field(k) == Some(now)
    ensures forall j, k' :: 0 <= j < |rows| && rows[j].id == id && k' != k ==> r[j].Field(k') == rows[j].Field(k')
  {
    seq(|rows|, j requires 0 <= j < |rows| => if rows[j].id == id then rows[j].WithField(k, now) else rows[j])
  }

  /** The table's contents and its AUTO_INCREMENT counter. */
  datatype Ledger = Ledger(rows: seq<AttendanceRecord>, nextId: nat)

  datatype MarkError =
    | MissingInput          // 400 'Pulsera y tipo de marca requeridos'
    | UnknownMarkType       // 400 'Tipo de marca inválido'
    | BraceletNotRegistered // 404 'Pulsera no registrada en el sistema'
    | BraceletInactive      // 403 'Pulsera inactiva...'
    | NoEntryYet            // 404 '... sin haber marcado entrada primero'
    | DuplicateMark         // 409 'Ya existe una marca de tipo ... para hoy'

  datatype MarkOutcome = EntryRecorded | MarkRecorded | Rejected(error: MarkError)

  function StatusCode(o: MarkOutcome): int {
    match o
    case EntryRecorded => 201
    case MarkRecorded => 200
    case Rejected(MissingInput) => 400
    case Rejected(UnknownMarkType) => 400
    case Rejected(BraceletNotRegistered) => 404
    case Rejected(BraceletInactive) => 403
    case Rejected(NoEntryYet) => 404
    case Rejected(DuplicateMark) => 409
  }

  datatype MarkResult = MarkResult(outcome: MarkOutcome, after: Ledger)

  /** `marcarAsistencia` as a function of the ledger, the bracelet table,
      the request body and the clock reading `now` (`NOW()`, whose date
      is `CURDATE()`). */
  function MarkStep(l: Ledger, bracelets: BraceletTable, uuid: Option<string>, tipo: Option<string>,
                    now: DateTime): (r: MarkResult)
    ensures r.outcome.Rejected? ==> r.after == l
    ensures r.outcome == EntryRecorded ==> tipo == Some("entrada") && |r.after.rows| == |l.rows| + 1
    ensures r.outcome == MarkRecorded ==> tipo != Some("entrada") && |r.after.rows| == |l.rows|
    ensures !r.outcome.Rejected? ==> Present(uuid) && uuid.value in bracelets && bracelets[uuid.value] == ACTIVE
  {
    if !Present(uuid) || !Present(tipo) then MarkResult(Rejected(MissingInput), l)
    else if MarkKindOf(tipo.value).None? then MarkResult(Rejected(UnknownMarkType), l)
    else if uuid.value !in bracelets then MarkResult(Rejected(BraceletNotRegistered), l)
    else if bracelets[uuid.value] != ACTIVE then MarkResult(Rejected(BraceletInactive), l)
    else
      var k := MarkKindOf(tipo.value).value;
      match TodayIndex(l.rows, uuid.value, now.date)
      case None =>
        if tipo.value != "entrada" then MarkResult(Rejected(NoEntryYet), l)
        else MarkResult(EntryRecorded, Ledger(l.rows + [NewEntry(l.nextId, uuid.value, now)], l.nextId + 1))
      case Some(i) =>
        if l.rows[i].Field(k).Some? then MarkResult(Rejected(DuplicateMark), l)
        else MarkResult(MarkRecorded, Ledger(SetFieldWhereId(l.rows, l.rows[i].id, k, now), l.nextId))
  }

  // ---------------------------------------------------------------------
  // Ledger invariants

  /** Both rows belong to one bracelet and one calendar day. */
  predicate SameBraceletDay(a: AttendanceRecord, b: AttendanceRecord) {
    a.bracelet == b.bracelet && a.entry.Some? && b.entry.Some? && a.entry.value.date == b.entry.value.date
  }

  /** Entry is stamped first, and every other stamp falls on the entry's day. */
  predicate MarkedOnEntryDay(r: AttendanceRecord) {
    r.entry.Some? && forall k :: r.Field(k).Some? ==> r.Field(k).value.date == r.entry.value.date
  }

  /** What the mark handler keeps true of the table: ids are distinct and
      below the counter, every row has its entry and marks on that day,
      and no bracelet has two rows for one day. */
  predicate WellFormed(l: Ledger) {
    && (forall j :: 0 <= j < |l.rows| ==> l.rows[j].id < l.nextId && MarkedOnEntryDay(l.rows[j]))
    && (forall i, j :: 0 <= i < j < |l.rows| ==> l.rows[i].id != l.rows[j].id)
    && (forall i, j :: 0 <= i < j < |l.rows| ==> !SameBraceletDay(l.rows[i], l.rows[j]))
  }

  // ---------------------------------------------------------------------
  // Properties of one mark

  /** A missing bracelet or mark type, or an unknown mark type, is a 400
      and touches no table; the first check wins. */
  lemma MarkInputErrors(l: Ledger, bracelets: BraceletTable, uuid: Option<string>, tipo: Option<string>, now: DateTime)
    ensures var r := MarkStep(l, bracelets, uuid, tipo, now);
            (!Present(uuid) || !Present(tipo) ==> r.outcome == Rejected(MissingInput))
            && (Present(uuid) && Present(tipo) && MarkKindOf(tipo.value).None? ==> r.outcome == Rejected(UnknownMarkType))
            && (StatusCode(r.outcome) == 400 <==> !Present(uuid) || !Present(tipo) || MarkKindOf(tipo.value).None?)
            && (StatusCode(r.outcome) == 400 ==> r.after == l)
  {
  }

  /** An unregistered bracelet is a 404 and an inactive one a 403, on any
      two ledgers alike: the bracelet is checked before today's record. */
  lemma MarkBraceletErrors(l1: Ledger, l2: Ledger, bracelets: BraceletTable, uuid: string, tipo: string, now: DateTime)
    requires uuid != "" && MarkKindOf(tipo).Some?
    requires uuid !in bracelets || bracelets[uuid] != ACTIVE
    ensures var r1 := MarkStep(l1, bracelets, Some(uuid), Some(tipo), now);
            var r2 := MarkStep(l2, bracelets, Some(uuid), Some(tipo), now);
            r1.outcome == r2.outcome && r1.after == l1 && r2.after == l2
            && r1.outcome == (if uuid !in bracelets then Rejected(BraceletNotRegistered) else Rejected(BraceletInactive))
  {
  }

  /** With no row for today, any mark other than `entrada` is a 404 and
      nothing is inserted. */
  lemma MarkBeforeEntry(l: Ledger, bracelets: BraceletTable, uuid: string, tipo: string, now: DateTime)
    requires uuid != "" && uuid in bracelets && bracelets[uuid] == ACTIVE
    requires MarkKindOf(tipo).Some? && tipo != "entrada"
    requires forall j :: 0 <= j < |l.rows| ==> !IsTodays(l.rows[j], uuid, now.date)
    ensures MarkStep(l, bracelets, Some(uuid), Some(tipo), now) == MarkResult(Rejected(NoEntryYet), l)
  {
    assert TodayIndex(l.rows, uuid, now.date).None?;
  }

  /** With no row for today, `entrada` appends one row whose only stamp is
      the entry, at `now`, under the next id: a 201. */
  lemma MarkFirstEntry(l: Ledger, bracelets: BraceletTable, uuid: string, now: DateTime)
    requires uuid != "" && uuid in bracelets && bracelets[uuid] == ACTIVE
    requires forall j :: 0 <= j < |l.rows| ==> !IsTodays(l.rows[j], uuid, now.date)
    ensures var r := MarkStep(l, bracelets, Some(uuid), Some("entrada"), now);
            && StatusCode(r.outcome) == 201
            && r.after.nextId == l.nextId + 1
            && |r.after.rows| == |l.rows| + 1
            && r.after.rows[..|l.rows|] == l.rows
            && var added := r.after.rows[|l.rows|];
               added.id == l.nextId && added.bracelet == uuid && added.entry == Some(now)
               && added.breakOut.None? && added.breakIn.None? && added.exit.None?
  {
    assert TodayIndex(l.rows, uuid, now.date).None?;
  }

  /** A mark whose column is already stamped on today's row is a 409 and
      changes nothing; in particular a second `entrada` is always a 409. */
  lemma MarkAlreadyStamped(l: Ledger, bracelets: BraceletTable, uuid: string, tipo: string, now: DateTime, i: nat)
    requires uuid != "" && uuid in bracelets && bracelets[uuid] == ACTIVE
    requires TodayIndex(l.rows, uuid, now.date) == Some(i)
    requires MarkKindOf(tipo).Some? && (tipo == "entrada" || l.rows[i].Field(MarkKindOf(tipo).value).Some?)
    ensures MarkStep(l, bracelets, Some(uuid), Some(tipo), now) == MarkResult(Rejected(DuplicateMark), l)
    ensures StatusCode(Rejected(DuplicateMark)) == 409
  {
  }

  /** Otherwise exactly the target column of today's row is stamped `now`:
      the other three columns, every other row and the counter stay as
      they were. The marks after entry may come in any order. */
  lemma MarkStampsOneField(l: Ledger, bracelets: BraceletTable, uuid: string, tipo: string, now: DateTime, i: nat)
    requires WellFormed(l)
    requires uuid != "" && uuid in bracelets && bracelets[uuid] == ACTIVE
    requires TodayIndex(l.rows, uuid, now.date) == Some(i)
    requires MarkKindOf(tipo).Some? && l.rows[i].Field(MarkKindOf(tipo).value).None?
    ensures var r := MarkStep(l, bracelets, Some(uuid), Some(tipo), now);
            var k := MarkKindOf(tipo).value;
            && r.outcome == MarkRecorded && StatusCode(r.outcome) == 200
            && r.after.nextId == l.nextId
            && |r.after.rows| == |l.rows|
            && r.after.rows[i].Field(k) == Some(now)
            && r.after.rows[i].id == l.rows[i].id && r.after.rows[i].bracelet == l.rows[i].bracelet
            && (forall k' :: k' != k ==> r.after.rows[i].Field(k') == l.rows[i].Field(k'))
            && (forall j :: 0 <= j < |l.rows| && j != i ==> r.after.rows[j] == l.rows[j])
  {
    var k := MarkKindOf(tipo).value;
    var after := SetFieldWhereId(l.rows, l.rows[i].id, k, now);
    forall j | 0 <= j < |l.rows| && j != i
      ensures after[j] == l.rows[j]
    {
      assert l.rows[j].id != l.rows[i].id;
    }
  }

  /** One mark keeps the ledger well formed; in particular an insert only
      happens when no row of the bracelet is dated today, so each bracelet
      keeps at most one row per calendar day. */
  lemma MarkPreservesWellFormed(l: Ledger, bracelets: BraceletTable, uuid: Option<string>, tipo: Option<string>, now: DateTime)
    requires WellFormed(l)
    ensures WellFormed(MarkStep(l, bracelets, uuid, tipo, now).after)
  {
    var r := MarkStep(l, bracelets, uuid, tipo, now);
    if r.outcome == EntryRecorded {
      InsertPreservesWellFormed(l, uuid.value, now);
    } else if r.outcome == MarkRecorded {
      var i := TodayIndex(l.rows, uuid.value, now.date).value;
      MarkStampsOneField(l, bracelets, uuid.value, tipo.value, now, i);
      UpdatePreservesWellFormed(l, r.after, uuid.value, MarkKindOf(tipo.value).value, now, i);
    }
  }

  lemma InsertPreservesWellFormed(l: Ledger, uuid: string, now: DateTime)
    requires WellFormed(l)
    requires forall j :: 0 <= j < |l.rows| ==> !IsTodays(l.rows[j], uuid, now.date)
    ensures WellFormed(Ledger(l.rows + [NewEntry(l.nextId, uuid, now)], l.nextId + 1))
  {
    var added := NewEntry(l.nextId, uuid, now);
    assert MarkedOnEntryDay(added) by {
      forall k | added.Field(k).Some? ensures added.Field(k).value.date == now.date {
      }
    }
    forall j | 0 <= j < |l.rows|
      ensures !SameBraceletDay(l.rows[j], added)
    {
      assert !IsTodays(l.rows[j], uuid, now.date);
    }
  }

  lemma UpdatePreservesWellFormed(l: Ledger, after: Ledger, uuid: string, k: MarkKind, now: DateTime, i: nat)
    requires WellFormed(l)
    requires i < |l.rows| && IsTodays(l.rows[i], uuid, now.date) && k != Entry
    requires after.nextId == l.nextId && |after.rows| == |l.rows|
    requires after.rows[i] == l.rows[i].WithField(k, now)
    requires forall j :: 0 <= j < |l.rows| && j != i ==> after.rows[j] == l.rows[j]
    ensures WellFormed(after)
  {
    var changed := after.rows[i];
    assert changed.entry == l.rows[i].entry;
    assert MarkedOnEntryDay(changed) by {
      forall k' | changed.Field(k').Some?
        ensures changed.Field(k').value.date == changed.entry.value.date
      {
        if k' != k {
          assert changed.Field(k') == l.rows[i].Field(k');
        }
      }
    }
    forall j | 0 <= j < |after.rows|
      ensures after.rows[j].id == l.rows[j].id && after.rows[j].bracelet == l.rows[j].bracelet
      ensures after.rows[j].entry == l.rows[j].entry
    {
    }
  }

  /** One working day of bracelet "X1": `entrada` creates the row (201);
      `salida` is accepted straight away, with no break marks (200); a
      renewed `entrada` or `salida` the same day is a 409. */
  lemma OneDayScenario(day: Date)
    ensures var bracelets := map["X1" := ACTIVE];
            var r1 := MarkStep(Ledger([], 1), bracelets, Some("X1"), Some("entrada"), DateTime(day, 8 * 3600));
            var r2 := MarkStep(r1.after, bracelets, Some("X1"), Some("salida"), DateTime(day, 17 * 3600));
            var r3 := MarkStep(r2.after, bracelets, Some("X1"), Some("entrada"), DateTime(day, 17 * 3600 + 60));
            var r4 := MarkStep(r3.after, bracelets, Some("X1"), Some("salida"), DateTime(day, 17 * 3600 + 120));
            && StatusCode(r1.outcome) == 201 && StatusCode(r2.outcome) == 200
            && StatusCode(r3.outcome) == 409 && StatusCode(r4.outcome) == 409
            && r4.after == r2.after
            && r2.after.rows == [AttendanceRecord(1, "X1", Some(DateTime(day, 8 * 3600)), None, None,
                                                  Some(DateTime(day, 17 * 3600)))]
  {
    var bracelets := map["X1" := ACTIVE];
    var entryAt := DateTime(day, 8 * 3600);
    var row := NewEntry(1, "X1", entryAt);
    var r1 := MarkStep(Ledger([], 1), bracelets, Some("X1"), Some("entrada"), entryAt);
    assert r1.after == Ledger([row], 2);
    assert TodayIndex([row], "X1", day) == Some(0);
    var exitRow := row.WithField(Exit, DateTime(day, 17 * 3600));
    assert SetFieldWhereId([row], 1, Exit, DateTime(day, 17 * 3600)) == [exitRow];
    assert TodayIndex([exitRow], "X1", day) == Some(0);
  }

  // ---------------------------------------------------------------------
  // Sequences of marks

  /** One request to the handler, with the clock reading it is served at. */
  datatype MarkRequest = MarkRequest(uuid: Option<string>, tipo: Option<string>, at: DateTime)

  /** The ledger after serving `requests` one after another. */
  function Replay(l: Ledger, bracelets: BraceletTable, requests: seq<MarkRequest>): Ledger
    decreases |requests|
  {
    if requests == [] then l
    else
      var q := requests[0];
      Replay(MarkStep(l, bracelets, q.uuid, q.tipo, q.at).after, bracelets, requests[1..])
  }

  /** Any sequence of marks keeps the ledger well formed: from an empty
      table, every bracelet has at most one row per calendar day. */
  lemma {:induction false} ReplayPreservesWellFormed(l: Ledger, bracelets: BraceletTable, requests: seq<MarkRequest>)
    requires WellFormed(l)
    ensures WellFormed(Replay(l, bracelets, requests))
    decreases |requests|
  {
    if requests != [] {
      var q := requests[0];
      MarkPreservesWellFormed(l, bracelets, q.uuid, q.tipo, q.at);
      ReplayPreservesWellFormed(MarkStep(l, bracelets, q.uuid, q.tipo, q.at).after, bracelets, requests[1..]);
    }
  }

  /** No stamp in the ledger is later than `t`. */
  predicate StampsNotAfter(l: Ledger, t: DateTime) {
    forall j, k :: 0 <= j < |l.rows| && l.rows[j].Field(k).Some? ==>
      EpochSecond(l.rows[j].Field(k).value) <= EpochSecond(t)
  }

  /** Every stamp of the row is no earlier than its entry. */
  predicate MarksNotBeforeEntry(r: AttendanceRecord) {
    r.entry.Some? && forall k :: r.Field(k).Some? ==> EpochSecond(r.entry.value) <= EpochSecond(r.Field(k).value)
  }

  predicate Chronological(l: Ledger, latest: DateTime) {
    StampsNotAfter(l, latest) && forall j :: 0 <= j < |l.rows| ==> MarksNotBeforeEntry(l.rows[j])
  }

  /** Served at a clock reading no earlier than every stamp already in the
      table, a mark keeps each row's stamps at or after its entry. */
  lemma MarkKeepsChronological(l: Ledger, bracelets: BraceletTable, uuid: Option<string>, tipo: Option<string>,
                               latest: DateTime, now: DateTime)
    requires WellFormed(l) && Chronological(l, latest)
    requires EpochSecond(latest) <= EpochSecond(now)
    ensures Chronological(MarkStep(l, bracelets, uuid, tipo, now).after, now)
  {
    var r := MarkStep(l, bracelets, uuid, tipo, now);
    if r.outcome == EntryRecorded {
      var added := NewEntry(l.nextId, uuid.value, now);
      assert r.after.rows == l.rows + [added];
      assert MarksNotBeforeEntry(added) by {
        forall k | added.Field(k).Some? ensures added.Field(k).value == now {
        }
      }
      forall j, k | 0 <= j < |r.after.rows| && r.after.rows[j].Field(k).Some?
        ensures EpochSecond(r.after.rows[j].Field(k).value) <= EpochSecond(now)
      {
        if j < |l.rows| {
          assert r.after.rows[j] == l.rows[j];
        } else {
          assert r.after.rows[j] == added;
        }
      }
    } else if r.outcome == MarkRecorded {
      var k := MarkKindOf(tipo.value).value;
      var i := TodayIndex(l.rows, uuid.value, now.date).value;
      MarkStampsOneField(l, bracelets, uuid.value, tipo.value, now, i);
      var after := r.after.rows;
      assert k != Entry;
      forall j, k' | 0 <= j < |after| && after[j].Field(k').Some?
        ensures EpochSecond(after[j].Field(k').value) <= EpochSecond(now)
        ensures EpochSecond(after[j].entry.value) <= EpochSecond(after[j].Field(k').value)
      {
        if j != i {
          assert after[j] == l.rows[j];
          assert MarksNotBeforeEntry(l.rows[j]);
        } else if k' != k {
          assert after[i].Field(k') == l.rows[i].Field(k');
          assert MarksNotBeforeEntry(l.rows[i]);
        } else {
          assert after[i].entry == l.rows[i].entry;
          assert l.rows[i].Field(Entry).Some?;
        }
      }
    }
  }

  /** Consecutive requests are served at nondecreasing clock readings. */
  predicate ClockNondecreasing(requests: seq<MarkRequest>) {
    forall i, j :: 0 <= i < j < |requests| ==> EpochSecond(requests[i].at) <= EpochSecond(requests[j].at)
  }

  /** Under a clock that never runs backwards, every row's stamps stay at
      or after its entry, whatever marks arrive in whatever order. */
  lemma {:induction false} ReplayKeepsChronological(l: Ledger, bracelets: BraceletTable, requests: seq<MarkRequest>,
                                                    latest: DateTime)
    requires WellFormed(l) && Chronological(l, latest)
    requires ClockNondecreasing(requests)
    requires requests != [] ==> EpochSecond(latest) <= EpochSecond(requests[0].at)
    ensures forall j :: 0 <= j < |Replay(l, bracelets, requests).rows| ==>
              MarksNotBeforeEntry(Replay(l, bracelets, requests).rows[j])
    decreases |requests|
  {
    if requests != [] {
      var q := requests[0];
      var next := MarkStep(l, bracelets, q.uuid, q.tipo, q.at).after;
      MarkPreservesWellFormed(l, bracelets, q.uuid, q.tipo, q.at);
      MarkKeepsChronological(l, bracelets, q.uuid, q.tipo, latest, q.at);
      assert ClockNondecreasing(requests[1..]) by {
        forall i, j | 0 <= i < j < |requests[1..]|
          ensures EpochSecond(requests[1..][i].at) <= EpochSecond(requests[1..][j].at)
        {
          assert requests[1..][i] == requests[i + 1] && requests[1..][j] == requests[j + 1];
        }
      }
      if |requests| > 1 {
        assert requests[1..][0] == requests[1];
      }
      ReplayKeepsChronological(next, bracelets, requests[1..], q.at);
    }
  }

  // ---------------------------------------------------------------------
  // The table as the handler mutates it

  /** The `asistencias` table. `Mark` is `marcarAsistencia`: a chain of
      early-return guards, then one insert or one single-column update. */
  class AttendanceTable {
    var rows: seq<AttendanceRecord>
    var nextId: nat

    /** An empty table; AUTO_INCREMENT ids start at 1. */
    constructor ()
      ensures rows == [] && nextId == 1
      ensures WellFormed(State())
    {
      rows := [];
      nextId := 1;
    }

    function State(): Ledger
      reads this
    {
      Ledger(rows, nextId)
    }

    method Mark(bracelets: BraceletTable, uuid: Option<string>, tipo: Option<string>, now: DateTime)
      returns (outcome: MarkOutcome)
      modifies this
      ensures MarkResult(outcome, State()) == MarkStep(old(State()), bracelets, uuid, tipo, now)
      ensures old(WellFormed(State())) ==> WellFormed(State())
    {
      if WellFormed(State()) {
        MarkPreservesWellFormed(State(), bracelets, uuid, tipo, now);
      }
      if !Present(uuid) || !Present(tipo) {
        return Rejected(MissingInput);
      }
      var field := MarkKindOf(tipo.value);
      if field.None? {
        return Rejected(UnknownMarkType);
      }
      var key := uuid.value;
      if key !in bracelets {
        return Rejected(BraceletNotRegistered);
      }
      if bracelets[key] != ACTIVE {
        return Rejected(BraceletInactive);
      }
      var today := FindTodaysRecord(rows, key, now.date);
      if today.None? && tipo.value != "entrada" {
        return Rejected(NoEntryYet);
      }
      if today.None? && tipo.value == "entrada" {
        rows := rows + [NewEntry(nextId, key, now)];
        nextId := nextId + 1;
        return EntryRecorded;
      }
      var record := rows[today.value];
      if record.Field(field.value).Some? {
        return Rejected(DuplicateMark);
      }
      rows := SetFieldWhereId(rows, record.id, field.value, now);
      return MarkRecorded;
    }
  }
}
