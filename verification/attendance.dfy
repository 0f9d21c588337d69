/** The attendance ledger (table `Asistencia`, one record per activity and user)
    and the QR scan handler `registrarAsistenciaDesdeQR`
    (src/controllers/LudicaController.ts:214-294).

    Time is an integer number of milliseconds supplied by the caller; hours are
    kept in integer hundredths of an hour (1.50 h is 150). */
module Attendance {
  import opened Wrappers
  import opened JsText
  import opened QrToken

  /** `AsiEstado`: null, "Incompleta" or "Completa". */
  datatype Estado = SinEstado | Incompleta | Completa

  /** (IdActividad, IdUsuario) */
  type Key = (int, int)

  datatype Asistencia = Asistencia(
    idActividad: int,
    idUsuario: int,
    asiFecha: int,
    tipo: JsValue,
    estado: Estado,
    qrEntrada: Option<int>,
    qrSalida: Option<int>,
    registradorEntrada: Option<int>,
    registradorSalida: Option<int>,
    horas: int)

  function KeyOf(a: Asistencia): Key {
    (a.idActividad, a.idUsuario)
  }

  type Ledger = map<Key, Asistencia>

  /** `parseFloat((ms / 3600000).toFixed(2))` as hundredths of an hour: the
      nearest hundredth, a half rounded away from zero as `toFixed` does. */
  function Hundredths(ms: int): (h: int)
    ensures ms >= 0 ==> h >= 0 && 36000 * h - 18000 <= ms < 36000 * h + 18000
    ensures ms < 0 ==> h <= 0 && 36000 * h - 18000 < ms <= 36000 * h + 18000
  {
    if ms >= 0 then (ms + 18000) / 36000 else -((18000 - ms) / 36000)
  }

  /** 5,400,000 ms is 1.50 hours; 1,799 ms rounds to 0.00 and 18,000 ms (half a
      hundredth) up to 0.01. */
  lemma HundredthsExamples()
    ensures Hundredths(5400000) == 150
    ensures Hundredths(1799) == 0 && Hundredths(18000) == 1
  {
  }

  // ---------------------------------------------------------------------------
  // The scan as a transition of the ledger

  datatype Rejection =
    | NoActor               // 401 "Token inválido"
    | MalformedQr           // 400 "QR inválido o corrupto"
    | ActivityNotFound      // 404 "Actividad no encontrada"
    | EntryAlreadyRecorded  // 400 "Ya registraste entrada"
    | ExitAlreadyRecorded   // 400 "Ya registraste salida"
    | EntryRequired         // 400 "Debes registrar primero la entrada"

  /** `Recorded(entrada, r)` is the 200 reply "Entrada/Salida registrada
      correctamente" carrying the saved record. */
  datatype Outcome = Recorded(entrada: bool, record: Asistencia) | Rejected(reason: Rejection)

  function HttpStatus(o: Outcome): int {
    match o
    case Recorded(_, _) => 200
    case Rejected(NoActor) => 401
    case Rejected(ActivityNotFound) => 404
    case Rejected(_) => 400
  }

  /** `req.usuario?.IdUsuario` is present and truthy. */
  predicate Authenticated(actor: Option<int>) {
    actor.Some? && actor.value != 0
  }

  /** `Actividad.findByPk(data.IdActividad)` finds an activity. */
  predicate ActivityFound(d: ScanData, actividades: set<int>) {
    d.idActividad.Num? && d.idActividad.n in actividades
  }

  /** `data.tipo === "entrada"`: every other value, absent included, is an exit. */
  predicate IsEntry(d: ScanData) {
    d.tipo == Str(Entrada)
  }

  /** The record created by the first scan for a key. */
  function FirstRecord(act: int, user: int, tipo: JsValue, now: int): Asistencia {
    var entrada := tipo == Str(Entrada);
    Asistencia(act, user, now, tipo,
      if entrada then Incompleta else SinEstado,
      if entrada then Some(now) else None,
      if entrada then None else Some(now),
      if entrada then Some(user) else None,
      if entrada then None else Some(user),
      0)
  }

  /** What a later scan does to an existing record: the new record, or why the
      scan is refused. The exit checks run "already has an exit" first. */
  function Update(a: Asistencia, entrada: bool, user: int, now: int): Result<Asistencia, Rejection> {
    if entrada then
      if a.qrEntrada.Some? then Err(EntryAlreadyRecorded)
      else Ok(a.(qrEntrada := Some(now), registradorEntrada := Some(user)))
    else if a.qrSalida.Some? then Err(ExitAlreadyRecorded)
    else if a.qrEntrada.None? then Err(EntryRequired)
    else
      Ok(a.(qrSalida := Some(now), registradorSalida := Some(user),
            horas := Hundredths(now - a.qrEntrada.value), estado := Completa))
  }

  /** One scan by `actor` of a payload that parsed to `data` (None: `JSON.parse`
      threw), with `actividades` the ids of existing activities: the reply and
      the ledger afterwards. */
  function Scan(ledger: Ledger, actor: Option<int>, data: Option<ScanData>, actividades: set<int>, now: int)
    : (r: (Outcome, Ledger))
    ensures r.0.Rejected? ==> r.1 == ledger
    ensures r.0.Recorded? ==>
              && Authenticated(actor) && data.Some? && ActivityFound(data.value, actividades)
              && r.1 == ledger[(data.value.idActividad.n, actor.value) := r.0.record]
  {
    if !Authenticated(actor) then (Rejected(NoActor), ledger)
    else if data.None? then (Rejected(MalformedQr), ledger)
    else if !ActivityFound(data.value, actividades) then (Rejected(ActivityNotFound), ledger)
    else
      var d := data.value;
      var key := (d.idActividad.n, actor.value);
      if key !in ledger then
        var a := FirstRecord(key.0, key.1, d.tipo, now);
        (Recorded(IsEntry(d), a), ledger[key := a])
      else
        match Update(ledger[key], IsEntry(d), actor.value, now)
        case Err(why) => (Rejected(why), ledger)
        case Ok(a) => (Recorded(IsEntry(d), a), ledger[key := a])
  }

  // ---------------------------------------------------------------------------
  // The invariant every scan keeps

  /** What holds of every record the scan handler creates or updates. A record
      created by an exit scan has no state; an entry accepted on it later does not
      give it one, and it can never be completed. */
  predicate WellFormed(k: Key, a: Asistencia) {
    && KeyOf(a) == k
    && (a.registradorEntrada.Some? <==> a.qrEntrada.Some?)
    && (a.registradorSalida.Some? <==> a.qrSalida.Some?)
    && match a.estado
       case Incompleta =>
         a.qrEntrada.Some? && a.qrSalida.None? && a.tipo == Str(Entrada) && a.horas == 0
       case Completa =>
         && a.qrEntrada.Some? && a.qrSalida.Some? && a.tipo == Str(Entrada)
         && a.horas == Hundredths(a.qrSalida.value - a.qrEntrada.value)
       case SinEstado =>
         a.qrSalida.Some? && a.tipo != Str(Entrada) && a.horas == 0
  }

  predicate Valid(ledger: Ledger) {
    forall k :: k in ledger ==> WellFormed(k, ledger[k])
  }

  lemma ScanKeepsValid(ledger: Ledger, actor: Option<int>, data: Option<ScanData>, actividades: set<int>, now: int)
    requires Valid(ledger)
    ensures Valid(Scan(ledger, actor, data, actividades, now).1)
  {
    var (o, after) := Scan(ledger, actor, data, actividades, now);
    if o.Recorded? {
      var k := (data.value.idActividad.n, actor.value);
      if k in ledger {
        assert WellFormed(k, ledger[k]);
      }
      assert WellFormed(k, o.record);
      forall k' | k' in after ensures WellFormed(k', after[k']) {
        if k' != k {
          assert after[k'] == ledger[k'];
        }
      }
    }
  }

  /** A scan touches at most the record of its own key: no other record
      changes, none disappears, and at most that one key is added. */
  lemma ScanFrame(ledger: Ledger, actor: Option<int>, data: Option<ScanData>, actividades: set<int>, now: int)
    requires Valid(ledger)
    ensures var (o, after) := Scan(ledger, actor, data, actividades, now);
            && ledger.Keys <= after.Keys
            && |after.Keys - ledger.Keys| <= 1
            && (o.Recorded? ==> KeyOf(o.record) == (data.value.idActividad.n, actor.value))
            && forall k :: k in ledger && (o.Rejected? || k != KeyOf(o.record)) ==> after[k] == ledger[k]
  {
    var (o, after) := Scan(ledger, actor, data, actividades, now);
    if o.Recorded? {
      var k := (data.value.idActividad.n, actor.value);
      if k in ledger {
        assert WellFormed(k, ledger[k]);
      }
      assert after.Keys - ledger.Keys <= {k};
    }
  }

  /** A timestamp once set is never overwritten, nor is `tipo` or the creation
      date, and a completed record never changes again. */
  lemma NeverOverwritten(ledger: Ledger, actor: Option<int>, data: Option<ScanData>, actividades: set<int>, now: int, k: Key)
    requires Valid(ledger) && k in ledger
    ensures var after := Scan(ledger, actor, data, actividades, now).1;
            && k in after
            && (ledger[k].qrEntrada.Some? ==> after[k].qrEntrada == ledger[k].qrEntrada)
            && (ledger[k].qrSalida.Some? ==> after[k].qrSalida == ledger[k].qrSalida)
            && after[k].tipo == ledger[k].tipo && after[k].asiFecha == ledger[k].asiFecha
            && (ledger[k].estado == Completa ==> after[k] == ledger[k])
  {
  }

  // ---------------------------------------------------------------------------
  // The handler's cases

  /** A missing actor (401), an unparseable payload (400) or an unknown activity
      (404) is refused before the ledger is read, and nothing changes. */
  lemma GuardsReject(ledger: Ledger, actor: Option<int>, data: Option<ScanData>, actividades: set<int>, now: int)
    ensures var (o, after) := Scan(ledger, actor, data, actividades, now);
            && (!Authenticated(actor) ==> o == Rejected(NoActor) && HttpStatus(o) == 401)
            && (Authenticated(actor) && data.None? ==> o == Rejected(MalformedQr) && HttpStatus(o) == 400)
            && (Authenticated(actor) && data.Some? && !ActivityFound(data.value, actividades) ==>
                  o == Rejected(ActivityNotFound) && HttpStatus(o) == 404)
            && (o.Rejected? ==> after == ledger)
  {
  }

  /** The first scan for a key creates exactly one record, with no hours: an
      entry opens it ("Incompleta"); any other `tipo` records only the exit and
      leaves the entry and the state null. */
  lemma FirstScanCreates(ledger: Ledger, user: int, d: ScanData, actividades: set<int>, now: int)
    requires user != 0 && ActivityFound(d, actividades)
    requires (d.idActividad.n, user) !in ledger
    ensures var (o, after) := Scan(ledger, Some(user), Some(d), actividades, now);
            var a := o.record;
            && o.Recorded? && o.entrada == IsEntry(d)
            && after.Keys == ledger.Keys + {(d.idActividad.n, user)} && |after| == |ledger| + 1
            && KeyOf(a) == (d.idActividad.n, user) && a.asiFecha == now && a.tipo == d.tipo && a.horas == 0
            && (IsEntry(d) ==>
                  && a.qrEntrada == Some(now) && a.registradorEntrada == Some(user) && a.estado == Incompleta
                  && a.qrSalida.None? && a.registradorSalida.None?)
            && (!IsEntry(d) ==>
                  && a.qrSalida == Some(now) && a.registradorSalida == Some(user) && a.estado == SinEstado
                  && a.qrEntrada.None? && a.registradorEntrada.None?)
  {
  }

  /** An entry scan on a record that already has an entry is refused and changes
      nothing. */
  lemma DuplicateEntryRejected(ledger: Ledger, user: int, d: ScanData, actividades: set<int>, now: int)
    requires user != 0 && ActivityFound(d, actividades) && IsEntry(d)
    requires (d.idActividad.n, user) in ledger && ledger[(d.idActividad.n, user)].qrEntrada.Some?
    ensures Scan(ledger, Some(user), Some(d), actividades, now) == (Rejected(EntryAlreadyRecorded), ledger)
  {
  }

  /** An exit scan on a record that already has an exit is refused, whether or
      not it has an entry (this check comes first), and changes nothing. */
  lemma DuplicateExitRejected(ledger: Ledger, user: int, d: ScanData, actividades: set<int>, now: int)
    requires user != 0 && ActivityFound(d, actividades) && !IsEntry(d)
    requires (d.idActividad.n, user) in ledger && ledger[(d.idActividad.n, user)].qrSalida.Some?
    ensures Scan(ledger, Some(user), Some(d), actividades, now) == (Rejected(ExitAlreadyRecorded), ledger)
  {
  }

  /** An exit scan on an existing record without an entry (and without an exit)
      is refused and changes nothing. */
  lemma ExitWithoutEntryRejected(ledger: Ledger, user: int, d: ScanData, actividades: set<int>, now: int)
    requires user != 0 && ActivityFound(d, actividades) && !IsEntry(d)
    requires var k := (d.idActividad.n, user); k in ledger && ledger[k].qrSalida.None? && ledger[k].qrEntrada.None?
    ensures Scan(ledger, Some(user), Some(d), actividades, now) == (Rejected(EntryRequired), ledger)
  {
  }

  /** An accepted exit on an open record stamps the exit and its registrar,
      completes the record and stores the elapsed time rounded to hundredths of an
      hour, which is not negative when the clock has not gone back. */
  lemma AcceptedExit(ledger: Ledger, user: int, d: ScanData, actividades: set<int>, now: int)
    requires user != 0 && ActivityFound(d, actividades) && !IsEntry(d)
    requires var k := (d.idActividad.n, user); k in ledger && ledger[k].qrSalida.None? && ledger[k].qrEntrada.Some?
    ensures var k := (d.idActividad.n, user);
            var before := ledger[k];
            var (o, after) := Scan(ledger, Some(user), Some(d), actividades, now);
            && o.Recorded? && !o.entrada && after == ledger[k := o.record]
            && o.record == before.(qrSalida := Some(now), registradorSalida := Some(user),
                                 estado := Completa, horas := Hundredths(now - before.qrEntrada.value))
            && (now >= before.qrEntrada.value ==> o.record.horas >= 0)
  {
  }

  /** An entry scan on a record created by a bare exit is accepted: it stamps the
      entry and leaves the state (null) and the hours as they were. */
  lemma LateEntryAfterBareExit(ledger: Ledger, user: int, d: ScanData, actividades: set<int>, now: int)
    requires Valid(ledger)
    requires user != 0 && ActivityFound(d, actividades) && IsEntry(d)
    requires var k := (d.idActividad.n, user); k in ledger && ledger[k].estado == SinEstado && ledger[k].qrEntrada.None?
    ensures var k := (d.idActividad.n, user);
            var (o, after) := Scan(ledger, Some(user), Some(d), actividades, now);
            && o.Recorded? && o.entrada
            && o.record == ledger[k].(qrEntrada := Some(now), registradorEntrada := Some(user))
            && o.record.estado == SinEstado && o.record.horas == 0
  {
  }

  // ---------------------------------------------------------------------------
  // Sequences of scans

  /** Scanning the same entry code twice: the second scan is refused as a
      duplicate and leaves the ledger as the first scan left it. */
  lemma EntryIsIdempotent(ledger: Ledger, actor: Option<int>, d: ScanData, actividades: set<int>, t1: int, t2: int)
    requires IsEntry(d)
    requires Scan(ledger, actor, Some(d), actividades, t1).0.Recorded?
    ensures var after1 := Scan(ledger, actor, Some(d), actividades, t1).1;
            Scan(after1, actor, Some(d), actividades, t2) == (Rejected(EntryAlreadyRecorded), after1)
  {
  }

  /** After an accepted exit every further scan of the same key, entry or exit,
      is refused and changes nothing. */
  lemma CompletedIsFinal(ledger: Ledger, actor: Option<int>, d: ScanData, d2: ScanData, actividades: set<int>, t1: int, t2: int)
    requires Valid(ledger)
    requires d2.idActividad == d.idActividad
    requires var (o, _) := Scan(ledger, actor, Some(d), actividades, t1); o.Recorded? && o.record.estado == Completa
    ensures var after1 := Scan(ledger, actor, Some(d), actividades, t1).1;
            var (o2, after2) := Scan(after1, actor, Some(d2), actividades, t2);
            && o2.Rejected? && after2 == after1
            && o2.reason == (if IsEntry(d2) then EntryAlreadyRecorded else ExitAlreadyRecorded)
  {
    var (o, after1) := Scan(ledger, actor, Some(d), actividades, t1);
    ScanKeepsValid(ledger, actor, Some(d), actividades, t1);
    assert WellFormed(KeyOf(o.record), after1[KeyOf(o.record)]);
  }

  /** A record created by an exit scan never reaches "Completa", whatever is
      scanned afterwards. */
  lemma BareExitNeverCompletes(ledger: Ledger, k: Key, actor: Option<int>, data: Option<ScanData>, actividades: set<int>, now: int)
    requires Valid(ledger) && k in ledger && ledger[k].estado == SinEstado
    ensures var after := Scan(ledger, actor, data, actividades, now).1;
            k in after && after[k].estado == SinEstado
  {
  }

  /** Entry for activity 7 and user 42 at 10:00:00, exit at 11:30:00: the record
      opens, then completes with 1.50 hours; scanning the exit again is refused and
      changes nothing. */
  lemma Scenario()
    ensures
      var acts := {7};
      var entry := ScanData(Num(7), Str(Entrada), Str("Taller"), Str("Semana"));
      var exit := entry.(tipo := Str(Salida));
      var (o1, l1) := Scan(map[], Some(42), Some(entry), acts, 36000000);
      var (o2, l2) := Scan(l1, Some(42), Some(exit), acts, 41400000);
      var (o3, l3) := Scan(l2, Some(42), Some(exit), acts, 41500000);
      && o1.Recorded? && o1.record.estado == Incompleta && o1.record.qrEntrada == Some(36000000)
      && o2.Recorded? && o2.record.estado == Completa && o2.record.horas == 150
      && o3 == Rejected(ExitAlreadyRecorded) && l3 == l2
  {
  }

  // ---------------------------------------------------------------------------
  // The handler, step by step

  class AttendanceLedger {
    var records: Ledger

    constructor ()
      ensures records == map[]
    {
      records := map[];
    }

    /** `registrarAsistenciaDesdeQR`: look the record up, create it or change its
        fields one by one, then save it. */
    method RegisterScan(actor: Option<int>, data: Option<ScanData>, actividades: set<int>, now: int)
      returns (outcome: Outcome)
      modifies this
      ensures (outcome, records) == Scan(old(records), actor, data, actividades, now)
      ensures Valid(old(records)) ==> Valid(records)
    {
      if old(Valid(records)) {
        ScanKeepsValid(records, actor, data, actividades, now);
      }
      if actor.None? || actor.value == 0 {
        return Rejected(NoActor);
      }
      var user := actor.value;
      if data.None? {
        return Rejected(MalformedQr);
      }
      var d := data.value;
      if !(d.idActividad.Num? && d.idActividad.n in actividades) {
        return Rejected(ActivityNotFound);
      }
      var esEntrada := d.tipo == Str(Entrada);
      var key := (d.idActividad.n, user);
      if key !in records {
        var created := Asistencia(key.0, user, now, d.tipo,
          if esEntrada then Incompleta else SinEstado,
          if esEntrada then Some(now) else None,
          if !esEntrada then Some(now) else None,
          if esEntrada then Some(user) else None,
          if !esEntrada then Some(user) else None,
          0);
        records := records[key := created];
        return Recorded(esEntrada, created);
      }
      var a := records[key];
      if esEntrada {
        if a.qrEntrada.Some? {
          return Rejected(EntryAlreadyRecorded);
        }
        a := a.(qrEntrada := Some(now));
        a := a.(registradorEntrada := Some(user));
      } else {
        if a.qrSalida.Some? {
          return Rejected(ExitAlreadyRecorded);
        }
        if a.qrEntrada.None? {
          return Rejected(EntryRequired);
        }
        a := a.(qrSalida := Some(now));
        a := a.(registradorSalida := Some(user));
        var elapsed := now - a.qrEntrada.value;
        a := a.(horas := Hundredths(elapsed));
        a := a.(estado := Completa);
      }
      records := records[key := a];
      outcome := Recorded(esEntrada, a);
    }
  }
}
