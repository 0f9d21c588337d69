/** The two attendance reports of src/controllers/LudicaController.ts, read off
    the rows of table `Asistencia`: the per-user lúdica hours
    (`getHorasLudicasPorUsuario`) and the interest summary per lúdica
    (`getResumenInteresPorLudica`). Each query is a filter (`where`) followed by a
    count or a sum. */
module AttendanceReports {
  import opened Wrappers
  import opened JsText
  import opened QrToken
  import opened Attendance

  /** The stored rows, in storage order. */
  type Rows = seq<Asistencia>

  // ---------------------------------------------------------------------------
  // Filtering and summing

  /** The rows a `where` clause selects, in order. */
  function Filter(rows: Rows, p: Asistencia -> bool): (r: Rows)
    ensures |r| <= |rows|
    ensures forall a :: a in r <==> a in rows && p(a)
  {
    if rows == [] then []
    else (if p(rows[0]) then [rows[0]] else []) + Filter(rows[1..], p)
  }

  /** `reduce((sum, a) => sum + f(a), 0)` */
  function SumOf(rows: Rows, f: Asistencia -> int): int {
    if rows == [] then 0 else f(rows[0]) + SumOf(rows[1..], f)
  }

  function Indicator(p: Asistencia -> bool): Asistencia -> int {
    (a: Asistencia) => if p(a) then 1 else 0
  }

  function Masked(p: Asistencia -> bool, f: Asistencia -> int): Asistencia -> int {
    (a: Asistencia) => if p(a) then f(a) else 0
  }

  /** `AsiHorasAsistidas || 0`: the column is never null in this model. */
  const Hours: Asistencia -> int := (a: Asistencia) => a.horas

  lemma {:induction false} SumOfAppend(x: Rows, y: Rows, f: Asistencia -> int)
    ensures SumOf(x + y, f) == SumOf(x, f) + SumOf(y, f)
  {
    if x == [] {
      assert x + y == y;
    } else {
      assert (x + y)[1..] == x[1..] + y;
      SumOfAppend(x[1..], y, f);
    }
  }

  lemma {:induction false} SumOfLe(rows: Rows, f: Asistencia -> int, g: Asistencia -> int)
    requires forall i :: 0 <= i < |rows| ==> f(rows[i]) <= g(rows[i])
    ensures SumOf(rows, f) <= SumOf(rows, g)
  {
    if rows != [] {
      assert forall i :: 0 <= i < |rows[1..]| ==> rows[1..][i] == rows[i + 1];
      SumOfLe(rows[1..], f, g);
    }
  }

  /** Counting the selected rows is summing an indicator over all rows. */
  lemma {:induction false} CountIsSum(rows: Rows, p: Asistencia -> bool)
    ensures |Filter(rows, p)| == SumOf(rows, Indicator(p))
  {
    if rows != [] {
      CountIsSum(rows[1..], p);
    }
  }

  /** Summing over the selected rows is summing a masked term over all rows. */
  lemma {:induction false} SumOfFilter(rows: Rows, p: Asistencia -> bool, f: Asistencia -> int)
    ensures SumOf(Filter(rows, p), f) == SumOf(rows, Masked(p, f))
  {
    if rows != [] {
      var head := if p(rows[0]) then [rows[0]] else [];
      SumOfAppend(head, Filter(rows[1..], p), f);
      SumOfFilter(rows[1..], p, f);
    }
  }

  // ---------------------------------------------------------------------------
  // The reports

  const LudicaTipo := "Lúdica"

  /** `where: { IdUsuario, tipo: "Lúdica", AsiEstado: "Completa" }` */
  function ForUser(user: int): Asistencia -> bool {
    (a: Asistencia) => a.idUsuario == user && a.tipo == Str(LudicaTipo) && a.estado == Completa
  }

  /** `where: { IdActividad, QREntrada: { [Op.not]: null } }` */
  function EnteredAt(act: int): Asistencia -> bool {
    (a: Asistencia) => a.idActividad == act && a.qrEntrada.Some?
  }

  /** `where: { IdActividad, AsiEstado: "Completa" }` */
  function CompletedAt(act: int): Asistencia -> bool {
    (a: Asistencia) => a.idActividad == act && a.estado == Completa
  }

  /** `totalHoras` of `getHorasLudicasPorUsuario`, in hundredths of an hour. */
  function TotalHours(rows: Rows, user: int): int {
    SumOf(Filter(rows, ForUser(user)), Hours)
  }

  function Entradas(rows: Rows, act: int): nat {
    |Filter(rows, EnteredAt(act))|
  }

  function Completas(rows: Rows, act: int): nat {
    |Filter(rows, CompletedAt(act))|
  }

  /** `Asistencia.sum` of the completed hours, 0 when there are none. */
  function HorasTotales(rows: Rows, act: int): int {
    SumOf(Filter(rows, CompletedAt(act)), Hours)
  }

  /** An activity row of the summary query: only activities with `TipoLudica`
      set are reported. */
  datatype ActividadRow = ActividadRow(idActividad: int, nombreActi: string, tipoLudica: Option<string>)

  datatype Resumen = Resumen(actividad: string, entradas: nat, completas: nat, horas: int)

  function ResumenOf(act: ActividadRow, rows: Rows): Resumen {
    Resumen(act.nombreActi, Entradas(rows, act.idActividad), Completas(rows, act.idActividad),
            HorasTotales(rows, act.idActividad))
  }

  /** `Actividad.findAll({ where: { TipoLudica: { [Op.not]: null } } })`: the
      lúdicas among the activities, in order. */
  function Ludicas(acts: seq<ActividadRow>): (r: seq<ActividadRow>)
    ensures |r| <= |acts|
    ensures forall a :: a in r <==> a in acts && a.tipoLudica.Some?
  {
    if acts == [] then []
    else if acts[0].tipoLudica.Some? then [acts[0]] + Ludicas(acts[1..])
    else Ludicas(acts[1..])
  }

  /** `getResumenInteresPorLudica`: one entry per lúdica activity, in the order
      the activities are listed (`Promise.all` keeps the order of `map`). */
  function InterestSummary(acts: seq<ActividadRow>, rows: Rows): (r: seq<Resumen>)
    ensures |r| == |Ludicas(acts)|
    ensures forall i :: 0 <= i < |r| ==> r[i] == ResumenOf(Ludicas(acts)[i], rows)
  {
    if acts == [] then []
    else
      var rest := InterestSummary(acts[1..], rows);
      if acts[0].tipoLudica.Some? then [ResumenOf(acts[0], rows)] + rest else rest
  }

  /** Every lúdica in the list has its summary among the results. */
  lemma SummaryCoversLudicas(acts: seq<ActividadRow>, rows: Rows)
    ensures forall j :: 0 <= j < |acts| && acts[j].tipoLudica.Some? ==>
              ResumenOf(acts[j], rows) in InterestSummary(acts, rows)
  {
    var r, l := InterestSummary(acts, rows), Ludicas(acts);
    forall j | 0 <= j < |acts| && acts[j].tipoLudica.Some?
      ensures ResumenOf(acts[j], rows) in r
    {
      assert acts[j] in l;
      var k :| 0 <= k < |l| && l[k] == acts[j];
      assert r[k] == ResumenOf(acts[j], rows);
    }
  }

  // ---------------------------------------------------------------------------
  // What the reports say about rows the scan handler wrote

  predicate RowsWellFormed(rows: Rows) {
    forall i :: 0 <= i < |rows| ==> WellFormed(KeyOf(rows[i]), rows[i])
  }

  /** A user's total is 0 when no row of theirs passes the filter. */
  lemma {:induction false} TotalHoursWhenNone(rows: Rows, user: int)
    requires forall i :: 0 <= i < |rows| ==> !ForUser(user)(rows[i])
    ensures TotalHours(rows, user) == 0
  {
    if rows != [] {
      assert forall i :: 0 <= i < |rows[1..]| ==> rows[1..][i] == rows[i + 1];
      TotalHoursWhenNone(rows[1..], user);
      assert Filter(rows, ForUser(user)) == Filter(rows[1..], ForUser(user));
    } else {
      assert Filter(rows, ForUser(user)) == [];
    }
  }

  /** The scan handler stores the payload's `tipo` ("entrada" on every completed
      record), so the "Lúdica" filter selects none of its rows and the total is
      always 0. */
  lemma TotalHoursOfScans(rows: Rows, user: int)
    requires RowsWellFormed(rows)
    ensures TotalHours(rows, user) == 0
  {
    forall i | 0 <= i < |rows| ensures !ForUser(user)(rows[i]) {
      assert WellFormed(KeyOf(rows[i]), rows[i]);
    }
    TotalHoursWhenNone(rows, user);
  }

  /** Every completed record has an entry, so an activity never has more
      completed attendances than entries. */
  lemma CompletasAtMostEntradas(rows: Rows, act: int)
    requires RowsWellFormed(rows)
    ensures Completas(rows, act) <= Entradas(rows, act)
  {
    forall i | 0 <= i < |rows|
      ensures Indicator(CompletedAt(act))(rows[i]) <= Indicator(EnteredAt(act))(rows[i])
    {
      assert WellFormed(KeyOf(rows[i]), rows[i]);
    }
    CountIsSum(rows, CompletedAt(act));
    CountIsSum(rows, EnteredAt(act));
    SumOfLe(rows, Indicator(CompletedAt(act)), Indicator(EnteredAt(act)));
  }

  /** With no completed record the hours are 0. */
  lemma NoCompletedNoHours(rows: Rows, act: int)
    requires Completas(rows, act) == 0
    ensures HorasTotales(rows, act) == 0
  {
  }

  // ---------------------------------------------------------------------------
  // Rows and the ledger

  /** `save()` of an existing record replaces its row; `create` of a new record
      appends one. */
  function SaveRow(rows: Rows, rec: Asistencia): Rows {
    if rows == [] then [rec]
    else if KeyOf(rows[0]) == KeyOf(rec) then [rec] + rows[1..]
    else [rows[0]] + SaveRow(rows[1..], rec)
  }

  /** `findOne` by key: the first row with that key. */
  function RowFor(rows: Rows, k: Key): Option<Asistencia> {
    if rows == [] then None
    else if KeyOf(rows[0]) == k then Some(rows[0])
    else RowFor(rows[1..], k)
  }

  /** The rows hold exactly the ledger's records, one row per key. */
  predicate Stores(rows: Rows, ledger: Ledger) {
    && (forall i :: 0 <= i < |rows| ==> KeyOf(rows[i]) in ledger && ledger[KeyOf(rows[i])] == rows[i])
    && (forall k :: k in ledger ==> exists i :: 0 <= i < |rows| && KeyOf(rows[i]) == k)
    && (forall i, j :: 0 <= i < j < |rows| ==> KeyOf(rows[i]) != KeyOf(rows[j]))
  }

  lemma {:induction false} SaveRowAppends(rows: Rows, rec: Asistencia)
    requires forall i :: 0 <= i < |rows| ==> KeyOf(rows[i]) != KeyOf(rec)
    ensures SaveRow(rows, rec) == rows + [rec]
  {
    if rows != [] {
      assert forall i :: 0 <= i < |rows[1..]| ==> rows[1..][i] == rows[i + 1];
      SaveRowAppends(rows[1..], rec);
      assert rows[1..] + [rec] == (rows + [rec])[1..];
    }
  }

  lemma {:induction false} SaveRowReplaces(rows: Rows, rec: Asistencia, i: nat)
    requires i < |rows| && KeyOf(rows[i]) == KeyOf(rec)
    requires forall j :: 0 <= j < i ==> KeyOf(rows[j]) != KeyOf(rec)
    ensures SaveRow(rows, rec) == rows[i := rec]
  {
    if i > 0 {
      assert forall j :: 0 <= j < i - 1 ==> rows[1..][j] == rows[j + 1];
      SaveRowReplaces(rows[1..], rec, i - 1);
      assert rows[1..][i - 1 := rec] == rows[i := rec][1..];
    }
  }

  lemma {:induction false} RowForFirst(rows: Rows, k: Key, i: nat)
    requires i < |rows| && KeyOf(rows[i]) == k
    requires forall j :: 0 <= j < i ==> KeyOf(rows[j]) != k
    ensures RowFor(rows, k) == Some(rows[i])
  {
    if i > 0 {
      RowForFirst(rows[1..], k, i - 1);
    }
  }

  lemma {:induction false} RowForAbsent(rows: Rows, k: Key)
    requires forall i :: 0 <= i < |rows| ==> KeyOf(rows[i]) != k
    ensures RowFor(rows, k) == None
  {
    if rows != [] {
      RowForAbsent(rows[1..], k);
    }
  }

  /** Looking a key up in the rows finds the ledger's record for it. */
  lemma RowForStored(rows: Rows, ledger: Ledger, k: Key)
    requires Stores(rows, ledger)
    ensures RowFor(rows, k) == if k in ledger then Some(ledger[k]) else None
  {
    if k in ledger {
      var i :| 0 <= i < |rows| && KeyOf(rows[i]) == k;
      RowForFirst(rows, k, i);
    } else {
      RowForAbsent(rows, k);
    }
  }

  /** Saving a record changes a sum by the new row's term less the replaced
      row's. */
  lemma {:induction false} SumOfSave(rows: Rows, rec: Asistencia, f: Asistencia -> int)
    ensures SumOf(SaveRow(rows, rec), f) ==
            SumOf(rows, f) + f(rec) - (match RowFor(rows, KeyOf(rec)) case None => 0 case Some(a) => f(a))
  {
    if rows != [] {
      if KeyOf(rows[0]) == KeyOf(rec) {
        assert ([rec] + rows[1..])[1..] == rows[1..];
      } else {
        assert ([rows[0]] + SaveRow(rows[1..], rec))[1..] == SaveRow(rows[1..], rec);
        SumOfSave(rows[1..], rec, f);
      }
    }
  }

  /** Replacing the row of an existing key keeps the rows in step. */
  lemma StoresReplace(rows: Rows, ledger: Ledger, rec: Asistencia, i: nat)
    requires Stores(rows, ledger) && i < |rows| && KeyOf(rows[i]) == KeyOf(rec)
    ensures Stores(rows[i := rec], ledger[KeyOf(rec) := rec])
  {
    var r := rows[i := rec];
    var after := ledger[KeyOf(rec) := rec];
    forall k | k in after ensures exists j :: 0 <= j < |r| && KeyOf(r[j]) == k {
      if k == KeyOf(rec) {
        assert KeyOf(r[i]) == k;
      } else {
        var j :| 0 <= j < |rows| && KeyOf(rows[j]) == k;
        assert KeyOf(r[j]) == k;
      }
    }
  }

  /** Appending the row of a new key keeps the rows in step. */
  lemma StoresAppend(rows: Rows, ledger: Ledger, rec: Asistencia)
    requires Stores(rows, ledger) && KeyOf(rec) !in ledger
    ensures Stores(rows + [rec], ledger[KeyOf(rec) := rec])
  {
    var r := rows + [rec];
    var after := ledger[KeyOf(rec) := rec];
    forall k | k in after ensures exists j :: 0 <= j < |r| && KeyOf(r[j]) == k {
      if k == KeyOf(rec) {
        assert KeyOf(r[|rows|]) == k;
      } else {
        var j :| 0 <= j < |rows| && KeyOf(rows[j]) == k;
        assert KeyOf(r[j]) == k;
      }
    }
  }

  /** Saving the record of key `KeyOf(rec)` keeps the rows in step with the
      ledger updated at that key. */
  lemma SaveRowStores(rows: Rows, ledger: Ledger, rec: Asistencia)
    requires Stores(rows, ledger)
    ensures Stores(SaveRow(rows, rec), ledger[KeyOf(rec) := rec])
  {
    if KeyOf(rec) in ledger {
      var i :| 0 <= i < |rows| && KeyOf(rows[i]) == KeyOf(rec);
      SaveRowReplaces(rows, rec, i);
      StoresReplace(rows, ledger, rec, i);
    } else {
      SaveRowAppends(rows, rec);
      StoresAppend(rows, ledger, rec);
    }
  }

  lemma StoredRowsWellFormed(rows: Rows, ledger: Ledger)
    requires Stores(rows, ledger) && Valid(ledger)
    ensures RowsWellFormed(rows)
  {
  }

  /** The rows after a scan are the rows before with the scanned record saved. */
  function RowsAfter(rows: Rows, o: Outcome): Rows {
    if o.Recorded? then SaveRow(rows, o.record) else rows
  }

  /** The term a row had in a sum before a save replaced it: none for a new
      key. */
  function Replaced(rows: Rows, rec: Asistencia, f: Asistencia -> int): int {
    match RowFor(rows, KeyOf(rec))
    case None => 0
    case Some(a) => f(a)
  }

  /** Saving a record moves the entry count by the new row's term less the
      replaced row's. */
  lemma SaveMovesEntradas(rows: Rows, rec: Asistencia, act: int)
    ensures Entradas(SaveRow(rows, rec), act) ==
            Entradas(rows, act) + Indicator(EnteredAt(act))(rec) - Replaced(rows, rec, Indicator(EnteredAt(act)))
  {
    CountIsSum(rows, EnteredAt(act));
    CountIsSum(SaveRow(rows, rec), EnteredAt(act));
    SumOfSave(rows, rec, Indicator(EnteredAt(act)));
  }

  /** The same for the count of completed records. */
  lemma SaveMovesCompletas(rows: Rows, rec: Asistencia, act: int)
    ensures Completas(SaveRow(rows, rec), act) ==
            Completas(rows, act) + Indicator(CompletedAt(act))(rec) - Replaced(rows, rec, Indicator(CompletedAt(act)))
  {
    CountIsSum(rows, CompletedAt(act));
    CountIsSum(SaveRow(rows, rec), CompletedAt(act));
    SumOfSave(rows, rec, Indicator(CompletedAt(act)));
  }

  /** The same for the completed hours. */
  lemma SaveMovesHoras(rows: Rows, rec: Asistencia, act: int)
    ensures HorasTotales(SaveRow(rows, rec), act) ==
            HorasTotales(rows, act) + Masked(CompletedAt(act), Hours)(rec)
            - Replaced(rows, rec, Masked(CompletedAt(act), Hours))
  {
    SumOfFilter(rows, CompletedAt(act), Hours);
    SumOfFilter(SaveRow(rows, rec), CompletedAt(act), Hours);
    SumOfSave(rows, rec, Masked(CompletedAt(act), Hours));
  }

  /** The term the ledger's record for `k` has in a sum: none when there is
      no record. */
  function Before(ledger: Ledger, k: Key, f: Asistencia -> int): int {
    if k in ledger then f(ledger[k]) else 0
  }

  /** What an accepted scan does: it stores its record under the record's
      own key, and as to the terms of that record, an entry makes
      it count as entered (it did not before), an exit that completes it
      makes it count as completed with its hours (it did not before), and
      nothing else moves. */
  lemma ScanTerms(ledger: Ledger, actor: Option<int>, data: Option<ScanData>,
                  actividades: set<int>, now: int, act: int)
    requires Valid(ledger) && Scan(ledger, actor, data, actividades, now).0.Recorded?
    ensures var (o, after) := Scan(ledger, actor, data, actividades, now);
            after == ledger[KeyOf(o.record) := o.record]
    ensures var o := Scan(ledger, actor, data, actividades, now).0;
            var k := KeyOf(o.record);
            var here := o.record.idActividad == act;
            && Indicator(EnteredAt(act))(o.record) - Before(ledger, k, Indicator(EnteredAt(act)))
               == (if here && o.entrada then 1 else 0)
            && Indicator(CompletedAt(act))(o.record) - Before(ledger, k, Indicator(CompletedAt(act)))
               == (if here && o.record.estado == Completa then 1 else 0)
            && Masked(CompletedAt(act), Hours)(o.record) - Before(ledger, k, Masked(CompletedAt(act), Hours))
               == (if here && o.record.estado == Completa then o.record.horas else 0)
  {
    var k := (data.value.idActividad.n, actor.value);
    if k in ledger {
      assert WellFormed(k, ledger[k]);
    }
  }

  /** How one scan moves the interest summary of activity `act`: an accepted
      entry adds one to `entradas`, an exit that completes a record adds one to
      `completas` and its hours to `horas`, and nothing else changes any count.
      The rows stay in step with the ledger. */
  lemma ScanMovesSummary(rows: Rows, ledger: Ledger, actor: Option<int>, data: Option<ScanData>,
                         actividades: set<int>, now: int, act: int)
    requires Valid(ledger) && Stores(rows, ledger)
    ensures var (o, after) := Scan(ledger, actor, data, actividades, now);
            var rows' := RowsAfter(rows, o);
            var here := o.Recorded? && o.record.idActividad == act;
            && Stores(rows', after)
            && Entradas(rows', act) == Entradas(rows, act) + (if here && o.entrada then 1 else 0)
            && Completas(rows', act) == Completas(rows, act) + (if here && o.record.estado == Completa then 1 else 0)
            && HorasTotales(rows', act) ==
                 HorasTotales(rows, act) + (if here && o.record.estado == Completa then o.record.horas else 0)
  {
    var (o, after) := Scan(ledger, actor, data, actividades, now);
    if o.Recorded? {
      ScanTerms(ledger, actor, data, actividades, now, act);
      SaveRowStores(rows, ledger, o.record);
      RowForStored(rows, ledger, KeyOf(o.record));
      SaveMovesEntradas(rows, o.record, act);
      SaveMovesCompletas(rows, o.record, act);
      SaveMovesHoras(rows, o.record, act);
    }
  }

  /** The per-user totals do not move with any scan. */
  lemma ScanKeepsTotalHours(rows: Rows, ledger: Ledger, actor: Option<int>, data: Option<ScanData>,
                            actividades: set<int>, now: int, user: int)
    requires Valid(ledger) && Stores(rows, ledger)
    ensures var (o, after) := Scan(ledger, actor, data, actividades, now);
            TotalHours(RowsAfter(rows, o), user) == TotalHours(rows, user) == 0
  {
    var (o, after) := Scan(ledger, actor, data, actividades, now);
    ScanMovesSummary(rows, ledger, actor, data, actividades, now, 0);
    ScanKeepsValid(ledger, actor, data, actividades, now);
    StoredRowsWellFormed(rows, ledger);
    StoredRowsWellFormed(RowsAfter(rows, o), after);
    TotalHoursOfScans(rows, user);
    TotalHoursOfScans(RowsAfter(rows, o), user);
  }
}
