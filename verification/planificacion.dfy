/** Event planning (src/controllers/PlanificacionEventoController.ts): the
    quarter date ranges of `obtenerEventosPorTrimestre`, and the creation of
    plannings by `crearPlanificacion` and `crearEventosMasivos`, each linked to
    a fresh management record awaiting approval. Request bodies are JSON, so a
    field is any JavaScript value; the image upload is a foreign call whose
    `secure_url` is a parameter. */
module Planning {
  import opened Wrappers
  import opened JsText
  import Attendance

  // ---------------------------------------------------------------------------
  // Calendar quarters

  /** A proleptic Gregorian calendar date, as in ISO 8601. */
  datatype CalendarDate = CalendarDate(year: int, month: int, day: int)

  predicate IsLeapYear(y: int) {
    y % 4 == 0 && (y % 100 != 0 || y % 400 == 0)
  }

  function DaysInMonth(y: int, m: int): (n: int)
    requires 1 <= m <= 12
    ensures 28 <= n <= 31
  {
    if m == 2 then (if IsLeapYear(y) then 29 else 28)
    else if m == 4 || m == 6 || m == 9 || m == 11 then 30
    else 31
  }

  predicate ValidDate(d: CalendarDate) {
    1 <= d.month <= 12 && 1 <= d.day <= DaysInMonth(d.year, d.month)
  }

  /** Calendar order: `a` is on or before `b`. */
  predicate NotAfter(a: CalendarDate, b: CalendarDate) {
    a.year < b.year
    || (a.year == b.year && (a.month < b.month || (a.month == b.month && a.day <= b.day)))
  }

  /** `Op.between`: both ends included. */
  predicate Between(d: CalendarDate, range: (CalendarDate, CalendarDate)) {
    NotAfter(range.0, d) && NotAfter(d, range.1)
  }

  function NextDay(d: CalendarDate): (n: CalendarDate)
    requires ValidDate(d)
    ensures ValidDate(n) && NotAfter(d, n) && n != d
  {
    if d.day < DaysInMonth(d.year, d.month) then d.(day := d.day + 1)
    else if d.month < 12 then CalendarDate(d.year, d.month + 1, 1)
    else CalendarDate(d.year + 1, 1, 1)
  }

  /** The `rangos` table: first and last day of quarter `q` of year `y`. */
  function QuarterRange(y: int, q: int): (CalendarDate, CalendarDate)
    requires 1 <= q <= 4
  {
    if q == 1 then (CalendarDate(y, 1, 1), CalendarDate(y, 3, 31))
    else if q == 2 then (CalendarDate(y, 4, 1), CalendarDate(y, 6, 30))
    else if q == 3 then (CalendarDate(y, 7, 1), CalendarDate(y, 9, 30))
    else (CalendarDate(y, 10, 1), CalendarDate(y, 12, 31))
  }

  /** The quarter a month falls in. */
  function QuarterOf(month: int): (q: int)
    requires 1 <= month <= 12
    ensures 1 <= q <= 4
  {
    (month - 1) / 3 + 1
  }

  /** Both ends of every quarter are real dates, in order. */
  lemma QuarterRangeValid(y: int, q: int)
    requires 1 <= q <= 4
    ensures ValidDate(QuarterRange(y, q).0) && ValidDate(QuarterRange(y, q).1)
    ensures NotAfter(QuarterRange(y, q).0, QuarterRange(y, q).1)
  {
  }

  /** The first quarter starts on 1 January, each later one on the day after
      the previous one ends, and the last ends on 31 December. */
  lemma QuartersConsecutive(y: int, q: int)
    requires 1 <= q <= 3
    ensures QuarterRange(y, 1).0 == CalendarDate(y, 1, 1)
    ensures QuarterRange(y, 4).1 == CalendarDate(y, 12, 31)
    ensures ValidDate(QuarterRange(y, q).1) && NextDay(QuarterRange(y, q).1) == QuarterRange(y, q + 1).0
  {
  }

  /** A real date lies in the range of quarter `q` of year `y` exactly when it
      is in year `y` and its month is in quarter `q`. */
  lemma InQuarterRange(d: CalendarDate, y: int, q: int)
    requires ValidDate(d) && 1 <= q <= 4
    ensures Between(d, QuarterRange(y, q)) <==> d.year == y && QuarterOf(d.month) == q
  {
  }

  /** So the four ranges of a year are disjoint and together hold every date
      of that year. */
  lemma QuartersPartitionYear(d: CalendarDate)
    requires ValidDate(d)
    ensures exists q :: 1 <= q <= 4 && Between(d, QuarterRange(d.year, q))
    ensures forall q, r :: (1 <= q <= 4 && 1 <= r <= 4 && Between(d, QuarterRange(d.year, q))
                            && Between(d, QuarterRange(d.year, r))) ==> q == r
  {
    InQuarterRange(d, d.year, QuarterOf(d.month));
    forall q, r | 1 <= q <= 4 && 1 <= r <= 4 && Between(d, QuarterRange(d.year, q))
                  && Between(d, QuarterRange(d.year, r))
      ensures q == r
    {
      InQuarterRange(d, d.year, q);
      InQuarterRange(d, d.year, r);
    }
  }

  /** Two digits, zero-padded, as in the template literals `-01-01`. */
  function Pad2(n: int): (t: string)
    requires 0 <= n < 100
    ensures |t| == 2 && AllDigits(t) && DigitsValue(t, false) == n
  {
    var hi, lo := DigitChar(n / 10), DigitChar(n % 10);
    var t := [hi, lo];
    assert t[..1] == [hi] && [hi][..0] == [];
    assert DigitsValue([hi], false) == n / 10;
    t
  }

  /** `${anioNum}-MM-DD`, where the year is the text of `parseInt(anio)`
      ("NaN" when it does not parse). */
  function DateText(year: Option<int>, month: int, day: int): (t: string)
    requires 1 <= month <= 12 && 1 <= day <= 31
  {
    ToText(if year.Some? then Num(year.value) else NaN) + "-" + Pad2(month) + "-" + Pad2(day)
  }

  /** The text of a date of a four-digit year is its ISO 8601 calendar form
      YYYY-MM-DD. */
  lemma DateTextIso(d: CalendarDate)
    requires ValidDate(d) && 1000 <= d.year <= 9999
    ensures var t := DateText(Some(d.year), d.month, d.day);
            && |t| == 10 && t[4] == '-' && t[7] == '-'
            && AllDigits(t[..4]) && DigitsValue(t[..4], false) == d.year
            && t[5..7] == Pad2(d.month) && t[8..] == Pad2(d.day)
  {
    var y := NatText(d.year);
    NatTextLength4(d.year);
    NatTextValue(d.year);
    var t := DateText(Some(d.year), d.month, d.day);
    assert t == y + "-" + Pad2(d.month) + "-" + Pad2(d.day);
    assert t[..4] == y;
  }

  lemma NatTextLength4(n: nat)
    requires 1000 <= n <= 9999
    ensures |NatText(n)| == 4
  {
    assert |NatText(n / 10 / 10 / 10)| == 1;
    assert |NatText(n / 10 / 10)| == 2;
    assert |NatText(n / 10)| == 3;
  }

  /** `obtenerEventosPorTrimestre` up to its query, given `parseInt(anio)` and
      `parseInt(trimestre)` (None is NaN): None (400) unless the quarter is one
      of 1 to 4, else the text of the first and last day of that quarter. */
  function QuarterBounds(anio: Option<int>, trimestre: Option<int>): (r: Option<(string, string)>)
    ensures r.None? <==> !(trimestre.Some? && 1 <= trimestre.value <= 4)
    ensures r.Some? ==>
              var range := QuarterRange(anio.GetOr(0), trimestre.value);
              r.value == (DateText(anio, range.0.month, range.0.day), DateText(anio, range.1.month, range.1.day))
  {
    if trimestre.None? || !(1 <= trimestre.value <= 4) then None
    else
      var range := QuarterRange(anio.GetOr(0), trimestre.value);
      Some((DateText(anio, range.0.month, range.0.day), DateText(anio, range.1.month, range.1.day)))
  }

  /** The handler parses both path parameters without a radix. */
  function QuarterQuery(anio: string, trimestre: string): Option<(string, string)> {
    QuarterBounds(ParseInt(anio, NoRadix), ParseInt(trimestre, NoRadix))
  }

  /** For a real date of a four-digit year, the query's range is the text of
      that date's quarter, so the query selects exactly the dates of that
      quarter. */
  lemma QuarterQueryOfDate(d: CalendarDate, q: int)
    requires ValidDate(d) && 1000 <= d.year <= 9999 && 1 <= q <= 4
    ensures var range := QuarterRange(d.year, q);
            && QuarterBounds(Some(d.year), Some(q))
               == Some((DateText(Some(d.year), range.0.month, range.0.day),
                        DateText(Some(d.year), range.1.month, range.1.day)))
            && (Between(d, range) <==> QuarterOf(d.month) == q)
  {
    InQuarterRange(d, d.year, q);
  }

  // ---------------------------------------------------------------------------
  // Plannings

  /** The fields of one event in a request body. */
  datatype EventoInput = EventoInput(
    nombreEvento: JsValue,
    fechaEvento: JsValue,
    lugarDeEvento: JsValue,
    recursos: JsValue,
    tipoEvento: JsValue,
    imagenEvento: JsValue,
    trimestre: JsValue)

  /** A row of table `GestionEvento`. */
  datatype Gestion = Gestion(idGestionE: nat, aprobar: string, idUsuario: int)

  /** A row of table `PlanificacionEvento`; `Undefined` is a column the
      creation leaves to its default. */
  datatype Planificacion = Planificacion(
    idPlanificarE: nat,
    nombreEvento: JsValue,
    fechaEvento: JsValue,
    lugarDeEvento: JsValue,
    recursos: JsValue,
    tipoEvento: JsValue,
    imagenEvento: JsValue,
    trimestre: JsValue,
    estadoCarga: JsValue,
    idUsuario: int,
    idGestionE: nat)

  const Pendiente := "Pendiente"
  const Masivo := "Masivo"

  /** `x || null`: a falsy value is stored as null, any other as it is. */
  lemma OrNullStoresTruthy(v: JsValue)
    ensures Truthy(v) ==> Or(v, Null) == v
    ensures !Truthy(v) ==> Or(v, Null) == Null
    ensures Or(v, Null) == Null || Truthy(Or(v, Null))
  {
  }

  /** `crearPlanificacion`'s check: a name, a date, a place and a signed-in user. */
  predicate PlanRequestOk(e: EventoInput, actor: Option<int>) {
    Truthy(e.nombreEvento) && Truthy(e.fechaEvento) && Truthy(e.lugarDeEvento)
    && Attendance.Authenticated(actor)
  }

  /** `crearEventosMasivos`' check on each event: the type is required too, the
      user was checked before the loop. */
  predicate Complete(e: EventoInput) {
    Truthy(e.nombreEvento) && Truthy(e.fechaEvento) && Truthy(e.lugarDeEvento) && Truthy(e.tipoEvento)
  }

  /** The position of the first incomplete event, or the length when all are
      complete: how many events the loop creates before it stops. */
  function FirstIncomplete(es: seq<EventoInput>): (k: nat)
    ensures k <= |es|
    ensures forall i :: 0 <= i < k ==> Complete(es[i])
    ensures k < |es| ==> !Complete(es[k])
  {
    if es == [] || !Complete(es[0]) then 0 else 1 + FirstIncomplete(es[1..])
  }

  /** The loop stops at an incomplete event it reaches. */
  lemma FirstIncompleteAt(es: seq<EventoInput>, i: nat)
    requires i <= FirstIncomplete(es) && i < |es| && !Complete(es[i])
    ensures FirstIncomplete(es) == i
  {
  }

  /** A complete event it reaches is not where it stops. */
  lemma FirstIncompletePast(es: seq<EventoInput>, i: nat)
    requires i <= FirstIncomplete(es) && i < |es| && Complete(es[i])
    ensures i + 1 <= FirstIncomplete(es)
  {
  }

  /** The row `crearPlanificacion` creates: Recursos `|| null`, the uploaded
      image or null, Trimestre and EstadoCarga left to their defaults. */
  function SingleRecord(id: nat, idGestionE: nat, idUsuario: int, e: EventoInput, imagenUrl: Option<string>): Planificacion {
    Planificacion(id, e.nombreEvento, e.fechaEvento, e.lugarDeEvento, Or(e.recursos, Null), e.tipoEvento,
      if imagenUrl.Some? then Str(imagenUrl.value) else Null, Undefined, Undefined, idUsuario, idGestionE)
  }

  /** The row `crearEventosMasivos` creates for one event: Recursos, ImagenEvento
      and Trimestre `|| null`, EstadoCarga "Masivo". */
  function BulkRecord(id: nat, idGestionE: nat, idUsuario: int, e: EventoInput): Planificacion {
    Planificacion(id, e.nombreEvento, e.fechaEvento, e.lugarDeEvento, Or(e.recursos, Null), e.tipoEvento,
      Or(e.imagenEvento, Null), Or(e.trimestre, Null), Str(Masivo), idUsuario, idGestionE)
  }

  /** Every stored row sits under its own id below the next id, and every
      planning is linked to a management record of the same user. The two ids
      advance together, so a planning's record is its own id shifted by the
      distance between the next ids. */
  predicate TablesValid(gestiones: map<int, Gestion>, planificaciones: map<int, Planificacion>,
                        nextGestion: nat, nextPlan: nat)
  {
    && (forall g :: g in gestiones ==> 1 <= g < nextGestion && gestiones[g].idGestionE == g)
    && (forall p :: p in planificaciones ==>
          && 1 <= p < nextPlan && planificaciones[p].idPlanificarE == p
          && planificaciones[p].idGestionE == p + (nextGestion - nextPlan)
          && planificaciones[p].idGestionE in gestiones
          && gestiones[planificaciones[p].idGestionE].idUsuario == planificaciones[p].idUsuario)
  }

  /** No two plannings share a management record. */
  lemma TablesValidUnshared(gestiones: map<int, Gestion>, planificaciones: map<int, Planificacion>,
                            nextGestion: nat, nextPlan: nat, p: int, p': int)
    requires TablesValid(gestiones, planificaciones, nextGestion, nextPlan)
    requires p in planificaciones && p' in planificaciones && p != p'
    ensures planificaciones[p].idGestionE != planificaciones[p'].idGestionE
  {
  }

  /** Adding a planning under the next id, linked to a new management record
      under the next id, keeps the tables valid. */
  lemma TablesValidInsert(gestiones: map<int, Gestion>, planificaciones: map<int, Planificacion>,
                          nextGestion: nat, nextPlan: nat, p: Planificacion)
    requires TablesValid(gestiones, planificaciones, nextGestion, nextPlan)
    requires p.idPlanificarE == nextPlan && p.idGestionE == nextGestion && nextGestion >= 1 && nextPlan >= 1
    ensures TablesValid(gestiones[nextGestion := Gestion(nextGestion, Pendiente, p.idUsuario)],
                        planificaciones[nextPlan := p], nextGestion + 1, nextPlan + 1)
  {
  }

  datatype BulkBody = NotAnArray | EventList(eventos: seq<EventoInput>)

  datatype BulkResult = BulkRejected(status: int) | BulkCreated(cantidad: nat, eventos: seq<Planificacion>)

  /** The plannings the first `k` events of `es` become: event i as planning
      `pid0 + i`, linked to management record `gid0 + i`. */
  function BulkPlans(pid0: nat, gid0: nat, actor: int, es: seq<EventoInput>, k: nat): map<int, Planificacion>
    requires k <= |es|
  {
    if k == 0 then map[]
    else BulkPlans(pid0, gid0, actor, es, k - 1)[pid0 + k - 1 := BulkRecord(pid0 + k - 1, gid0 + k - 1, actor, es[k - 1])]
  }

  /** The pending management records created alongside them. */
  function BulkGestiones(gid0: nat, actor: int, k: nat): map<int, Gestion> {
    if k == 0 then map[]
    else BulkGestiones(gid0, actor, k - 1)[gid0 + k - 1 := Gestion(gid0 + k - 1, Pendiente, actor)]
  }

  /** The first `k` events give exactly the plannings `pid0` to `pid0 + k - 1`,
      event i as planning `pid0 + i`, each linked to its own pending management
      record `gid0 + i` of the requesting user. */
  lemma {:induction false} BulkContents(pid0: nat, gid0: nat, actor: int, es: seq<EventoInput>, k: nat)
    requires k <= |es|
    ensures forall id :: id in BulkPlans(pid0, gid0, actor, es, k) <==> pid0 <= id < pid0 + k
    ensures forall id :: id in BulkGestiones(gid0, actor, k) <==> gid0 <= id < gid0 + k
    ensures forall i :: 0 <= i < k ==>
              BulkPlans(pid0, gid0, actor, es, k)[pid0 + i] == BulkRecord(pid0 + i, gid0 + i, actor, es[i])
    ensures forall id :: gid0 <= id < gid0 + k ==> BulkGestiones(gid0, actor, k)[id] == Gestion(id, Pendiente, actor)
  {
    if k > 0 {
      BulkContents(pid0, gid0, actor, es, k - 1);
    }
  }

  /** Adding the next event's planning to a table that holds the first `k`. */
  lemma BulkPlansStep(p0: map<int, Planificacion>, pid0: nat, gid0: nat, actor: int, es: seq<EventoInput>,
                      k: nat, p: Planificacion)
    requires k < |es| && p == BulkRecord(pid0 + k, gid0 + k, actor, es[k])
    ensures (p0 + BulkPlans(pid0, gid0, actor, es, k))[pid0 + k := p] == p0 + BulkPlans(pid0, gid0, actor, es, k + 1)
  {
  }

  /** Adding the next event's management record likewise. */
  lemma BulkGestionesStep(g0: map<int, Gestion>, gid0: nat, actor: int, k: nat)
    ensures (g0 + BulkGestiones(gid0, actor, k))[gid0 + k := Gestion(gid0 + k, Pendiente, actor)]
            == g0 + BulkGestiones(gid0, actor, k + 1)
  {
  }

  /** One turn of the bulk loop: with the tables and the created list holding
      the first `k` events, adding event `k` gives them holding `k + 1`. */
  lemma BulkLoopStep(p0: map<int, Planificacion>, g0: map<int, Gestion>, pid0: nat, gid0: nat, actor: int,
                     es: seq<EventoInput>, k: nat, plans: map<int, Planificacion>, gs: map<int, Gestion>,
                     creados: seq<Planificacion>, p: Planificacion)
    requires k < |es| && p == BulkRecord(pid0 + k, gid0 + k, actor, es[k])
    requires plans == p0 + BulkPlans(pid0, gid0, actor, es, k) && gs == g0 + BulkGestiones(gid0, actor, k)
    requires |creados| == k && forall j :: 0 <= j < k ==> creados[j] == BulkRecord(pid0 + j, gid0 + j, actor, es[j])
    ensures plans[pid0 + k := p] == p0 + BulkPlans(pid0, gid0, actor, es, k + 1)
    ensures gs[gid0 + k := Gestion(gid0 + k, Pendiente, actor)] == g0 + BulkGestiones(gid0, actor, k + 1)
    ensures forall j :: 0 <= j < k + 1 ==> (creados + [p])[j] == BulkRecord(pid0 + j, gid0 + j, actor, es[j])
  {
    BulkPlansStep(p0, pid0, gid0, actor, es, k, p);
    BulkGestionesStep(g0, gid0, actor, k);
  }

  class PlanningStore {
    var gestiones: map<int, Gestion>
    var planificaciones: map<int, Planificacion>
    var nextGestion: nat
    var nextPlan: nat

    ghost predicate Valid()
      reads this
    {
      nextGestion >= 1 && nextPlan >= 1 && TablesValid(gestiones, planificaciones, nextGestion, nextPlan)
    }

    constructor ()
      ensures Valid() && gestiones == map[] && planificaciones == map[]
    {
      gestiones := map[];
      planificaciones := map[];
      nextGestion := 1;
      nextPlan := 1;
    }

    /** `GestionEvento.create({ Aprobar: "Pendiente", IdUsuario })` followed by
        `PlanificacionEvento.create` of row `p`, whose `IdGestionE` is the id
        the new management record receives. */
    method AddLinked(p: Planificacion)
      requires Valid() && p.idPlanificarE == nextPlan && p.idGestionE == nextGestion
      modifies this
      ensures Valid()
      ensures gestiones == old(gestiones)[old(nextGestion) := Gestion(old(nextGestion), Pendiente, p.idUsuario)]
      ensures planificaciones == old(planificaciones)[old(nextPlan) := p]
      ensures nextGestion == old(nextGestion) + 1 && nextPlan == old(nextPlan) + 1
    {
      var gestion := Gestion(nextGestion, Pendiente, p.idUsuario);
      TablesValidInsert(gestiones, planificaciones, nextGestion, nextPlan, p);
      gestiones := gestiones[nextGestion := gestion];
      nextGestion := nextGestion + 1;
      planificaciones := planificaciones[nextPlan := p];
      nextPlan := nextPlan + 1;
    }

    /** `crearPlanificacion`: 400 and nothing stored when a required field or
        the user is missing; else one pending management record and one
        planning linked to it. */
    method CrearPlanificacion(actor: Option<int>, e: EventoInput, imagenUrl: Option<string>)
      returns (r: Result<Planificacion, int>)
      requires Valid()
      modifies this
      ensures Valid()
      ensures r.Err? <==> !PlanRequestOk(e, actor)
      ensures r.Err? ==> r.error == 400 && unchanged(this)
      ensures r.Ok? ==>
                && r.value == SingleRecord(old(nextPlan), old(nextGestion), actor.value, e, imagenUrl)
                && gestiones == old(gestiones)[old(nextGestion) := Gestion(old(nextGestion), Pendiente, actor.value)]
                && planificaciones == old(planificaciones)[old(nextPlan) := r.value]
                && nextGestion == old(nextGestion) + 1 && nextPlan == old(nextPlan) + 1
    {
      if !PlanRequestOk(e, actor) {
        return Err(400);
      }
      var p := SingleRecord(nextPlan, nextGestion, actor.value, e, imagenUrl);
      AddLinked(p);
      r := Ok(p);
    }

    /** The loop of `crearEventosMasivos`: each event in turn becomes a
        planning linked to a new pending management record, until an event
        lacks a required field; `creados` are the plannings created, in order. */
    method CreateUntilIncomplete(actor: int, es: seq<EventoInput>) returns (creados: seq<Planificacion>)
      requires Valid()
      modifies this
      ensures Valid()
      ensures var k := FirstIncomplete(es);
              && |creados| == k
              && (forall i :: 0 <= i < k ==> creados[i] == BulkRecord(old(nextPlan) + i, old(nextGestion) + i, actor, es[i]))
              && nextGestion == old(nextGestion) + k && nextPlan == old(nextPlan) + k
              && planificaciones == old(planificaciones) + BulkPlans(old(nextPlan), old(nextGestion), actor, es, k)
              && gestiones == old(gestiones) + BulkGestiones(old(nextGestion), actor, k)
    {
      ghost var g0, p0, gid0, pid0 := gestiones, planificaciones, nextGestion, nextPlan;
      assert p0 + map[] == p0 && g0 + map[] == g0;
      creados := [];
      var i := 0;
      while i < |es|
        invariant 0 <= i <= |es| && i <= FirstIncomplete(es)
        invariant Valid()
        invariant nextGestion == gid0 + i && nextPlan == pid0 + i
        invariant planificaciones == p0 + BulkPlans(pid0, gid0, actor, es, i)
        invariant gestiones == g0 + BulkGestiones(gid0, actor, i)
        invariant |creados| == i
        invariant forall j :: 0 <= j < i ==> creados[j] == BulkRecord(pid0 + j, gid0 + j, actor, es[j])
      {
        var e := es[i];
        if !Complete(e) {
          FirstIncompleteAt(es, i);
          return;
        }
        FirstIncompletePast(es, i);
        var p := BulkRecord(nextPlan, nextGestion, actor, e);
        BulkLoopStep(p0, g0, pid0, gid0, actor, es, i, planificaciones, gestiones, creados, p);
        AddLinked(p);
        creados := creados + [p];
        i := i + 1;
      }
    }

    /** `crearEventosMasivos`: 401 without a user, 400 when the body is not a
        non-empty list; otherwise the events are created in turn, and the
        answer is 400 when one lacked a required field (the events before it
        stay created) or the created plannings and their count. */
    method CrearEventosMasivos(actor: Option<int>, body: BulkBody) returns (r: BulkResult)
      requires Valid()
      modifies this
      ensures Valid()
      ensures !Attendance.Authenticated(actor) ==> r == BulkRejected(401) && unchanged(this)
      ensures Attendance.Authenticated(actor) && (body.NotAnArray? || body.eventos == []) ==>
                r == BulkRejected(400) && unchanged(this)
      ensures Attendance.Authenticated(actor) && body.EventList? && body.eventos != [] ==>
                var es, k := body.eventos, FirstIncomplete(body.eventos);
                && (k < |es| ==> r == BulkRejected(400))
                && (k == |es| ==> r.BulkCreated? && r.cantidad == |es| && |r.eventos| == |es|
                                  && forall i :: 0 <= i < |es| ==>
                                       r.eventos[i] == BulkRecord(old(nextPlan) + i, old(nextGestion) + i, actor.value, es[i]))
                && nextGestion == old(nextGestion) + k && nextPlan == old(nextPlan) + k
                && planificaciones == old(planificaciones) + BulkPlans(old(nextPlan), old(nextGestion), actor.value, es, k)
                && gestiones == old(gestiones) + BulkGestiones(old(nextGestion), actor.value, k)
    {
      if !Attendance.Authenticated(actor) {
        return BulkRejected(401);
      }
      if body.NotAnArray? || body.eventos == [] {
        return BulkRejected(400);
      }
      var creados := CreateUntilIncomplete(actor.value, body.eventos);
      if |creados| < |body.eventos| {
        return BulkRejected(400);
      }
      r := BulkCreated(|creados|, creados);
    }
  }

  /** A bulk request whose every event is complete creates one planning per
      event, each with EstadoCarga "Masivo" and its own pending management
      record of the requesting user. */
  lemma BulkRecordLinks(id: nat, idGestionE: nat, idUsuario: int, e: EventoInput)
    ensures var p := BulkRecord(id, idGestionE, idUsuario, e);
            && p.estadoCarga == Str(Masivo) && p.idGestionE == idGestionE && p.idUsuario == idUsuario
            && (p.recursos == Null || Truthy(p.recursos))
            && (p.imagenEvento == Null || Truthy(p.imagenEvento))
            && (p.trimestre == Null || Truthy(p.trimestre))
  {
    OrNullStoresTruthy(e.recursos);
    OrNullStoresTruthy(e.imagenEvento);
    OrNullStoresTruthy(e.trimestre);
  }
}
