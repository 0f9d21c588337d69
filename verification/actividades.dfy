/** Activities and lúdicas: `crearActividad` and `actualizarIdActividad`
    (src/controllers/ActividadController.ts) and `crearLudica`
    (src/controllers/LudicaController.ts). Form fields arrive as multipart text,
    so each is absent or a string. The image upload is a foreign call: its
    `secure_url` is a parameter (None when no file was sent). The QR columns hold
    the payload the QR image encodes; its text is `Encode` of it. */
module Activities {
  import opened Wrappers
  import opened JsText
  import opened QrToken
  import opened Attendance

  /** The fields of the creation form; None is a field that was not sent. */
  datatype Form = Form(
    nombreActi: Option<string>,
    descripcion: Option<string>,
    fechaInicio: Option<string>,
    fechaFin: Option<string>,
    horaInicio: Option<string>,
    horaFin: Option<string>,
    tipoLudica: Option<string>,
    idEvento: Option<string>,
    ubicacion: Option<string>,
    idUsuario: Option<string>,
    horarioContinuo: Option<string>)

  /** What a QR column holds: the image of a payload's JSON text, as the
      creation handlers write it, or whatever text an update put there. */
  datatype QrColumn = QrImage(payload: Payload) | QrText(text: string)

  /** A row of table `Actividad`. `horarioContinuo` is None where the column is
      left to its default. */
  datatype Actividad = Actividad(
    idActividad: nat,
    nombreActi: string,
    descripcion: Option<string>,
    fechaInicio: string,
    fechaFin: string,
    horaInicio: string,
    horaFin: string,
    tipoLudica: Option<string>,
    idEvento: JsValue,
    ubicacion: string,
    imagen: Option<string>,
    idUsuario: JsValue,
    horarioContinuo: Option<bool>,
    codigoQR: Option<QrColumn>,
    codigoQRSalida: Option<QrColumn>)

  /** `isEmpty(field)` of the controllers. */
  predicate Blank(f: Option<string>) {
    IsEmpty(Field(f))
  }

  /** A form field is blank exactly when it is missing or only white space. */
  lemma BlankIff(f: Option<string>)
    ensures Blank(f) <==> f.None? || AllWhiteSpace(f.value)
  {
    IsEmptyIff(Field(f));
  }

  // ---------------------------------------------------------------------------
  // Validation

  datatype CreateError = MissingFields | MissingImage

  function HttpStatus(e: CreateError): int {
    400
  }

  /** `isEmpty(a) || isEmpty(b) || ...` */
  function AnyBlank(fields: seq<Option<string>>): bool {
    if fields == [] then false else Blank(fields[0]) || AnyBlank(fields[1..])
  }

  /** The chain of checks fails exactly when some field is blank. */
  lemma {:induction false} AnyBlankIff(fields: seq<Option<string>>)
    ensures AnyBlank(fields) <==> exists i :: 0 <= i < |fields| && Blank(fields[i])
  {
    if fields != [] {
      AnyBlankIff(fields[1..]);
      assert forall i :: 1 <= i < |fields| ==> fields[i] == fields[1..][i - 1];
      if !Blank(fields[0]) && AnyBlank(fields[1..]) {
        var i :| 0 <= i < |fields[1..]| && Blank(fields[1..][i]);
        assert fields[i + 1] == fields[1..][i];
      }
    }
  }

  /** The fields `crearActividad` requires: TipoLudica is not among them. */
  function RequiredActividad(f: Form): seq<Option<string>> {
    [f.nombreActi, f.fechaInicio, f.fechaFin, f.horaInicio, f.horaFin, f.ubicacion]
  }

  /** The fields `crearLudica` requires. */
  function RequiredLudica(f: Form): seq<Option<string>> {
    [f.nombreActi, f.fechaInicio, f.fechaFin, f.horaInicio, f.horaFin, f.tipoLudica, f.ubicacion]
  }

  /** A form that passes the activity check has every required field. */
  lemma ActividadFieldsPresent(f: Form)
    requires !AnyBlank(RequiredActividad(f))
    ensures f.nombreActi.Some? && f.fechaInicio.Some? && f.fechaFin.Some?
    ensures f.horaInicio.Some? && f.horaFin.Some? && f.ubicacion.Some?
  {
    var r := RequiredActividad(f);
    AnyBlankIff(r);
    assert !Blank(r[0]) && !Blank(r[1]) && !Blank(r[2]) && !Blank(r[3]) && !Blank(r[4]) && !Blank(r[5]);
  }

  /** A form that passes the lúdica check has every required field. */
  lemma LudicaFieldsPresent(f: Form)
    requires !AnyBlank(RequiredLudica(f))
    ensures f.nombreActi.Some? && f.fechaInicio.Some? && f.fechaFin.Some?
    ensures f.horaInicio.Some? && f.horaFin.Some? && f.tipoLudica.Some? && f.ubicacion.Some?
    ensures !Blank(f.tipoLudica)
  {
    var r := RequiredLudica(f);
    AnyBlankIff(r);
    assert !Blank(r[0]) && !Blank(r[1]) && !Blank(r[2]) && !Blank(r[3]);
    assert !Blank(r[4]) && !Blank(r[5]) && !Blank(r[6]);
  }

  /** The fields are checked first, then the presence of the image. */
  function Validate(required: seq<Option<string>>, upload: Option<string>): Option<CreateError> {
    if AnyBlank(required) then Some(MissingFields)
    else if upload.None? then Some(MissingImage)
    else None
  }

  /** A request passes exactly when no required field is blank and a file was
      sent; it fails on the fields exactly when one of them is blank, and on the
      image otherwise. */
  lemma ValidateIff(required: seq<Option<string>>, upload: Option<string>)
    ensures Validate(required, upload).None? <==>
              (forall i :: 0 <= i < |required| ==> !Blank(required[i])) && upload.Some?
    ensures Validate(required, upload) == Some(MissingFields) <==>
              exists i :: 0 <= i < |required| && Blank(required[i])
    ensures Validate(required, upload) == Some(MissingImage) <==>
              (forall i :: 0 <= i < |required| ==> !Blank(required[i])) && upload.None?
  {
    AnyBlankIff(required);
  }

  /** A form without TipoLudica but otherwise complete creates an activity and
      is refused as a lúdica. */
  lemma TipoLudicaOnlyForLudica(f: Form, url: string)
    requires forall i :: 0 <= i < 6 ==> !Blank(RequiredActividad(f)[i])
    requires f.tipoLudica.None?
    ensures Validate(RequiredActividad(f), Some(url)) == None
    ensures Validate(RequiredLudica(f), Some(url)) == Some(MissingFields)
  {
    ValidateIff(RequiredActividad(f), Some(url));
    ValidateIff(RequiredLudica(f), Some(url));
    assert Blank(RequiredLudica(f)[5]);
  }

  // ---------------------------------------------------------------------------
  // The stored columns

  /** `Descripcion || null` */
  function OrNull(f: Option<string>): (r: Option<string>)
    ensures r.Some? <==> f.Some? && f.value != ""
    ensures r.Some? ==> r == f
  {
    if f.Some? && f.value != "" then f else None
  }

  /** `parseInt(field)`; a missing field is `parseInt(undefined)`, which is NaN. */
  function ParseIntField(f: Option<string>): (r: JsValue)
    ensures r.Num? || r == NaN
    ensures f.None? ==> r == NaN
    ensures f.Some? ==> (r == NaN <==> ParseInt(f.value, NoRadix).None?)
    ensures f.Some? && ParseInt(f.value, NoRadix).Some? ==> r == Num(ParseInt(f.value, NoRadix).value)
  {
    if f.None? then NaN
    else match ParseInt(f.value, NoRadix)
      case None => NaN
      case Some(n) => Num(n)
  }

  /** `IdEvento ? parseInt(IdEvento) : null` */
  function StoredIdEvento(f: Option<string>): (r: JsValue)
    ensures f.None? || f.value == "" ==> r == Null
    ensures f.Some? && f.value != "" ==> r == ParseIntField(f)
  {
    if Truthy(Field(f)) then ParseIntField(f) else Null
  }

  /** An IdEvento that starts with digits is stored as the number they spell,
      whatever follows them ("12abc" is 12). */
  lemma StoredIdEventoLeadingDigits(d: string, rest: string)
    requires |d| >= 1 && AllDigits(d) && (rest == "" || !IsDigit(rest[0]))
    requires d[0] != '0' || |d| > 1 || rest == "" || (rest[0] != 'x' && rest[0] != 'X')
    ensures StoredIdEvento(Some(d + rest)) == Num(DigitsValue(d, false))
  {
    LeadingDigits(d, rest, NoRadix);
  }

  /** An IdEvento that starts with neither white space, a sign nor a digit is
      stored as NaN, and an empty or missing one as null. */
  lemma StoredIdEventoNoDigits(s: string)
    requires s != "" && !IsWhiteSpace(s[0]) && !IsDigit(s[0]) && s[0] != '-' && s[0] != '+'
    ensures StoredIdEvento(Some(s)) == NaN
    ensures StoredIdEvento(Some("")) == Null && StoredIdEvento(None) == Null
  {
    NoLeadingDigit(s, NoRadix);
  }

  /** `evento?.NombreEvento` where `evento` is looked up by `parseInt(IdEvento)`
      among the events (id to name). */
  function EventName(idEvento: Option<string>, eventos: map<int, string>): (r: Option<string>)
    ensures r.Some? ==> StoredIdEvento(idEvento).Num? && StoredIdEvento(idEvento).n in eventos
                        && r.value == eventos[StoredIdEvento(idEvento).n]
  {
    var id := StoredIdEvento(idEvento);
    if id.Num? && id.n in eventos then Some(eventos[id.n]) else None
  }

  /** `Actividad.create({...})` in `crearActividad`: the row before its QR
      codes are set. */
  function NewActividad(id: nat, f: Form, url: string): (a: Actividad)
    requires !AnyBlank(RequiredActividad(f))
    ensures a.idActividad == id && a.nombreActi == f.nombreActi.value && a.tipoLudica == f.tipoLudica
    ensures a.descripcion == OrNull(f.descripcion) && a.imagen == OrNull(Some(url))
    ensures a.idEvento == StoredIdEvento(f.idEvento) && a.idUsuario == ParseIntField(f.idUsuario)
    ensures a.horarioContinuo.None?
  {
    ActividadFieldsPresent(f);
    Actividad(id, f.nombreActi.value, OrNull(f.descripcion), f.fechaInicio.value, f.fechaFin.value,
      f.horaInicio.value, f.horaFin.value, f.tipoLudica, StoredIdEvento(f.idEvento), f.ubicacion.value,
      OrNull(Some(url)), ParseIntField(f.idUsuario), None, None, None)
  }

  /** `Actividad.create({...})` in `crearLudica`. */
  function NewLudica(id: nat, f: Form, url: string): (a: Actividad)
    requires !AnyBlank(RequiredLudica(f))
    ensures a.idActividad == id && a.nombreActi == f.nombreActi.value
    ensures a.tipoLudica.Some? && !Blank(a.tipoLudica)
    ensures a.descripcion == OrNull(f.descripcion) && a.imagen == Some(url) && a.idEvento == Null
    ensures a.idUsuario == ParseIntField(f.idUsuario)
    ensures a.horarioContinuo == Some(f.horarioContinuo == Some("true"))
  {
    LudicaFieldsPresent(f);
    Actividad(id, f.nombreActi.value, OrNull(f.descripcion), f.fechaInicio.value, f.fechaFin.value,
      f.horaInicio.value, f.horaFin.value, f.tipoLudica, Null, f.ubicacion.value,
      Some(url), ParseIntField(f.idUsuario), Some(f.horarioContinuo == Some("true")), None, None)
  }

  /** The row `crearActividad` leaves behind: created, then given the codes of
      its entry and exit payloads. */
  function ActividadRecord(id: nat, f: Form, url: string, eventos: map<int, string>): Actividad
    requires !AnyBlank(RequiredActividad(f))
  {
    var a := NewActividad(id, f, url);
    var codes := ActivityPayloads(id, a.nombreActi, EventName(f.idEvento, eventos));
    a.(codigoQR := Some(QrImage(codes.0)), codigoQRSalida := Some(QrImage(codes.1)))
  }

  /** The row `crearLudica` leaves behind. */
  function LudicaRecord(id: nat, f: Form, url: string): Actividad
    requires !AnyBlank(RequiredLudica(f))
  {
    var a := NewLudica(id, f, url);
    var codes := LudicaPayloads(id, a.nombreActi);
    a.(codigoQR := Some(QrImage(codes.0)), codigoQRSalida := Some(QrImage(codes.1)))
  }

  // ---------------------------------------------------------------------------
  // Update

  /** `body[key]` when the body sets the column, else the current value. */
  function Given(body: map<string, string>, key: string, current: string): string {
    if key in body then body[key] else current
  }

  function GivenOpt(body: map<string, string>, key: string, current: Option<string>): Option<string> {
    if key in body then Some(body[key]) else current
  }

  /** An integer column written from body text: the text itself, which the
      database then coerces. */
  function GivenValue(body: map<string, string>, key: string, current: JsValue): JsValue {
    if key in body then Str(body[key]) else current
  }

  /** A QR column written from body text replaces the stored image by that text. */
  function GivenCode(body: map<string, string>, key: string, current: Option<QrColumn>): Option<QrColumn> {
    if key in body then Some(QrText(body[key])) else current
  }

  /** The columns of `Actividad` that `...req.body` can set; `Imagen` is
      overridden by the handler and `IdActividad` is the key. */
  const UpdatableColumns: set<string> := {"NombreActi", "Descripcion", "FechaInicio", "FechaFin", "HoraInicio",
    "HoraFin", "TipoLudica", "IdEvento", "Ubicacion", "IdUsuario", "HorarioContinuo", "CodigoQR", "CodigoQRSalida"}

  /** `actividad.update({ ...req.body, Imagen: result?.secure_url || actividad.Imagen })`:
      the body's value for each column it names, and the new upload's URL for
      the image, or the old image when nothing was uploaded, whatever the body
      says about `Imagen`. */
  function Merge(a: Actividad, body: map<string, string>, url: Option<string>): (r: Actividad)
    ensures r.idActividad == a.idActividad
    ensures url.None? || url.value == "" ==> r.imagen == a.imagen
    ensures url.Some? && url.value != "" ==> r.imagen == url
    ensures "NombreActi" in body ==> r.nombreActi == body["NombreActi"]
    ensures "NombreActi" !in body ==> r.nombreActi == a.nombreActi
    ensures "Descripcion" in body ==> r.descripcion == Some(body["Descripcion"])
    ensures "Descripcion" !in body ==> r.descripcion == a.descripcion
    ensures "FechaInicio" in body ==> r.fechaInicio == body["FechaInicio"]
    ensures "FechaInicio" !in body ==> r.fechaInicio == a.fechaInicio
    ensures "FechaFin" in body ==> r.fechaFin == body["FechaFin"]
    ensures "FechaFin" !in body ==> r.fechaFin == a.fechaFin
    ensures "HoraInicio" in body ==> r.horaInicio == body["HoraInicio"]
    ensures "HoraInicio" !in body ==> r.horaInicio == a.horaInicio
    ensures "HoraFin" in body ==> r.horaFin == body["HoraFin"]
    ensures "HoraFin" !in body ==> r.horaFin == a.horaFin
    ensures "TipoLudica" in body ==> r.tipoLudica == Some(body["TipoLudica"])
    ensures "TipoLudica" !in body ==> r.tipoLudica == a.tipoLudica
    ensures "IdEvento" in body ==> r.idEvento == Str(body["IdEvento"])
    ensures "IdEvento" !in body ==> r.idEvento == a.idEvento
    ensures "Ubicacion" in body ==> r.ubicacion == body["Ubicacion"]
    ensures "Ubicacion" !in body ==> r.ubicacion == a.ubicacion
    ensures "IdUsuario" in body ==> r.idUsuario == Str(body["IdUsuario"])
    ensures "IdUsuario" !in body ==> r.idUsuario == a.idUsuario
    ensures "HorarioContinuo" in body ==> r.horarioContinuo == Some(body["HorarioContinuo"] == "true")
    ensures "HorarioContinuo" !in body ==> r.horarioContinuo == a.horarioContinuo
    ensures "CodigoQR" in body ==> r.codigoQR == Some(QrText(body["CodigoQR"]))
    ensures "CodigoQR" !in body ==> r.codigoQR == a.codigoQR
    ensures "CodigoQRSalida" in body ==> r.codigoQRSalida == Some(QrText(body["CodigoQRSalida"]))
    ensures "CodigoQRSalida" !in body ==> r.codigoQRSalida == a.codigoQRSalida
  {
    a.(nombreActi := Given(body, "NombreActi", a.nombreActi),
       descripcion := GivenOpt(body, "Descripcion", a.descripcion),
       fechaInicio := Given(body, "FechaInicio", a.fechaInicio),
       fechaFin := Given(body, "FechaFin", a.fechaFin),
       horaInicio := Given(body, "HoraInicio", a.horaInicio),
       horaFin := Given(body, "HoraFin", a.horaFin),
       tipoLudica := GivenOpt(body, "TipoLudica", a.tipoLudica),
       idEvento := GivenValue(body, "IdEvento", a.idEvento),
       ubicacion := Given(body, "Ubicacion", a.ubicacion),
       idUsuario := GivenValue(body, "IdUsuario", a.idUsuario),
       horarioContinuo := if "HorarioContinuo" in body then Some(body["HorarioContinuo"] == "true")
                          else a.horarioContinuo,
       codigoQR := GivenCode(body, "CodigoQR", a.codigoQR),
       codigoQRSalida := GivenCode(body, "CodigoQRSalida", a.codigoQRSalida),
       imagen := if url.Some? && url.value != "" then url else a.imagen)
  }

  /** An update whose body names no column of the table and that uploads
      nothing leaves the row as it was. */
  lemma NoColumnNamedKeepsRow(a: Actividad, body: map<string, string>)
    requires forall k :: k in body ==> k !in UpdatableColumns
    ensures Merge(a, body, None) == a
  {
  }

  /** Sending the same update twice leaves the row as the first one did. */
  lemma MergeIdempotent(a: Actividad, body: map<string, string>, url: Option<string>)
    ensures Merge(Merge(a, body, url), body, url) == Merge(a, body, url)
  {
  }

  /** An update that does not name the QR columns keeps a created activity's
      codes scannable, whatever else it changes. */
  lemma UpdatedCodesScan(id: nat, f: Form, url: string, eventos: map<int, string>, stored: set<int>,
                         body: map<string, string>, upload: Option<string>)
    requires !AnyBlank(RequiredActividad(f)) && id in stored
    requires "CodigoQR" !in body && "CodigoQRSalida" !in body
    ensures var a := Merge(ActividadRecord(id, f, url, eventos), body, upload);
            && a.idActividad == id
            && a.codigoQR.Some? && a.codigoQR.value.QrImage?
            && a.codigoQRSalida.Some? && a.codigoQRSalida.value.QrImage?
            && var e, s := Decode(Encode(a.codigoQR.value.payload)), Decode(Encode(a.codigoQRSalida.value.payload));
            && e.Some? && s.Some?
            && ActivityFound(e.value, stored) && IsEntry(e.value) && e.value.idActividad == Num(id)
            && ActivityFound(s.value, stored) && !IsEntry(s.value) && s.value.idActividad == Num(id)
  {
    ActividadCodesScan(id, f, url, eventos, stored);
  }

  // ---------------------------------------------------------------------------
  // The store

  /** Both codes of a created activity reach it in the attendance handler
      once it is stored: the entry code as an entry, the exit code as an exit. */
  lemma ActividadCodesScan(id: nat, f: Form, url: string, eventos: map<int, string>, stored: set<int>)
    requires !AnyBlank(RequiredActividad(f)) && id in stored
    ensures var a := ActividadRecord(id, f, url, eventos);
            && a.codigoQR.Some? && a.codigoQR.value.QrImage?
            && a.codigoQRSalida.Some? && a.codigoQRSalida.value.QrImage?
            && var e, s := Decode(Encode(a.codigoQR.value.payload)), Decode(Encode(a.codigoQRSalida.value.payload));
            && e.Some? && s.Some?
            && ActivityFound(e.value, stored) && IsEntry(e.value) && e.value.idActividad == Num(id)
            && ActivityFound(s.value, stored) && !IsEntry(s.value) && s.value.idActividad == Num(id)
  {
    var a := ActividadRecord(id, f, url, eventos);
    EntryAndExitCodes(id, a.nombreActi, EventName(f.idEvento, eventos));
  }

  /** The same for a created lúdica, whose codes name "Lúdica individual" as
      the event. */
  lemma LudicaCodesScan(id: nat, f: Form, url: string, stored: set<int>)
    requires !AnyBlank(RequiredLudica(f)) && id in stored
    ensures var a := LudicaRecord(id, f, url);
            && a.codigoQR.Some? && a.codigoQR.value.QrImage?
            && a.codigoQRSalida.Some? && a.codigoQRSalida.value.QrImage?
            && var e, s := Decode(Encode(a.codigoQR.value.payload)), Decode(Encode(a.codigoQRSalida.value.payload));
            && e.Some? && s.Some?
            && ActivityFound(e.value, stored) && IsEntry(e.value) && e.value.idActividad == Num(id)
            && ActivityFound(s.value, stored) && !IsEntry(s.value) && s.value.idActividad == Num(id)
            && e.value.nombreEvento == s.value.nombreEvento == Str(LudicaIndividual)
  {
    var a := LudicaRecord(id, f, url);
    var (entrada, salida) := LudicaPayloads(id, a.nombreActi);
    DecodeEncode(entrada);
    DecodeEncode(salida);
  }

  /** Every stored activity sits under its own id, below the next id. */
  predicate StoreValid(actividades: map<int, Actividad>, nextId: nat) {
    forall id :: id in actividades ==> 0 <= id < nextId && actividades[id].idActividad == id
  }

  /** Adding a row for the next id keeps the store valid. */
  lemma StoreValidInsert(actividades: map<int, Actividad>, nextId: nat, a: Actividad)
    requires StoreValid(actividades, nextId) && a.idActividad == nextId
    ensures StoreValid(actividades[nextId := a], nextId + 1)
  {
  }

  class ActivityStore {
    var actividades: map<int, Actividad>
    var nextId: nat

    ghost predicate Valid()
      reads this
    {
      StoreValid(actividades, nextId)
    }

    constructor ()
      ensures Valid() && actividades == map[] && nextId == 1
    {
      actividades := map[];
      nextId := 1;
    }

    /** `crearActividad`: validate, create the row with the next id, build the
        two payloads and store them on the row. */
    method CrearActividad(f: Form, upload: Option<string>, eventos: map<int, string>)
      returns (r: Result<Actividad, CreateError>)
      requires Valid()
      modifies this
      ensures Valid()
      ensures r.Err? ==> Some(r.error) == Validate(RequiredActividad(f), upload)
                         && actividades == old(actividades) && nextId == old(nextId)
      ensures r.Ok? ==> Validate(RequiredActividad(f), upload) == None
                        && r.value == ActividadRecord(old(nextId), f, upload.value, eventos)
                        && actividades == old(actividades)[old(nextId) := r.value]
                        && nextId == old(nextId) + 1
    {
      var check := Validate(RequiredActividad(f), upload);
      if check.Some? {
        return Err(check.value);
      }
      // The row is created and then updated with its codes; nothing reads it
      // in between, so it is stored once, complete.
      var id := nextId;
      var a := NewActividad(id, f, upload.value);
      var evento := EventName(f.idEvento, eventos);
      var (entrada, salida) := ActivityPayloads(id, a.nombreActi, evento);
      a := a.(codigoQR := Some(QrImage(entrada)));
      a := a.(codigoQRSalida := Some(QrImage(salida)));
      StoreValidInsert(actividades, id, a);
      actividades := actividades[id := a];
      nextId := nextId + 1;
      r := Ok(a);
    }

    /** `crearLudica`: the same steps with TipoLudica required and the
        "Lúdica individual" payloads. */
    method CrearLudica(f: Form, upload: Option<string>)
      returns (r: Result<Actividad, CreateError>)
      requires Valid()
      modifies this
      ensures Valid()
      ensures r.Err? ==> Some(r.error) == Validate(RequiredLudica(f), upload)
                         && actividades == old(actividades) && nextId == old(nextId)
      ensures r.Ok? ==> Validate(RequiredLudica(f), upload) == None
                        && r.value == LudicaRecord(old(nextId), f, upload.value)
                        && actividades == old(actividades)[old(nextId) := r.value]
                        && nextId == old(nextId) + 1
    {
      var check := Validate(RequiredLudica(f), upload);
      if check.Some? {
        return Err(check.value);
      }
      var id := nextId;
      var a := NewLudica(id, f, upload.value);
      var (entrada, salida) := LudicaPayloads(id, a.nombreActi);
      a := a.(codigoQR := Some(QrImage(entrada)));
      a := a.(codigoQRSalida := Some(QrImage(salida)));
      StoreValidInsert(actividades, id, a);
      actividades := actividades[id := a];
      nextId := nextId + 1;
      r := Ok(a);
    }

    /** `actualizarIdActividad`: 404 when the activity does not exist, else the
        merged row. The QR codes are not regenerated. */
    method Actualizar(id: int, body: map<string, string>, upload: Option<string>)
      returns (r: Option<Actividad>)
      requires Valid()
      modifies this
      ensures Valid() && nextId == old(nextId)
      ensures id !in old(actividades) ==> r.None? && actividades == old(actividades)
      ensures id in old(actividades) ==>
                r == Some(Merge(old(actividades)[id], body, upload))
                && actividades == old(actividades)[id := r.value]
    {
      if id !in actividades {
        return None;
      }
      var a := Merge(actividades[id], body, upload);
      actividades := actividades[id := a];
      r := Some(a);
    }
  }
}
