/** The attendance QR payload: the JSON object the activity controllers encode
    when an activity is created (one code for entry, one for exit), and what the
    scan handler reads back out of it. Rendering the text into a QR image is not
    part of this model; an activity stores the payload its image encodes. */
module QrToken {
  import opened Wrappers
  import opened JsText
  import opened JsonText

  /** `{ IdActividad, tipo, nombreActividad, nombreEvento }` */
  datatype Payload = Payload(idActividad: nat, tipo: string, nombreActividad: string, nombreEvento: string)

  /** The members of a parsed payload that the scan handler looks at; a member
      missing from the object is `undefined`. */
  datatype ScanData = ScanData(idActividad: JsValue, tipo: JsValue, nombreActividad: JsValue, nombreEvento: JsValue)

  const Entrada := "entrada"
  const Salida := "salida"
  const SinEvento := "Evento sin nombre"
  const LudicaIndividual := "Lúdica individual"

  /** The object literal's members, in the order they are written. */
  function Members(p: Payload): seq<Member> {
    [ ("IdActividad", JNat(p.idActividad)), ("tipo", JString(p.tipo)),
      ("nombreActividad", JString(p.nombreActividad)), ("nombreEvento", JString(p.nombreEvento)) ]
  }

  /** `JSON.stringify(payload)` */
  function Encode(p: Payload): string {
    Stringify(Members(p))
  }

  function ToJs(v: JsonValue): JsValue {
    match v
    case JString(s) => Str(s)
    case JNat(n) => Num(n)
  }

  /** `data[key]` after `JSON.parse`: the value of the last member with that
      name (a later duplicate wins), or undefined. */
  function MemberValue(ms: seq<Member>, key: string): JsValue {
    if ms == [] then Undefined
    else if ms[|ms| - 1].0 == key then ToJs(ms[|ms| - 1].1)
    else MemberValue(ms[..|ms| - 1], key)
  }

  /** `JSON.parse(codigoQR)` restricted to the compact objects this codec writes;
      None where the text is not such an object. */
  function Decode(text: string): Option<ScanData> {
    match Parse(text)
    case None => None
    case Some(ms) =>
      Some(ScanData(MemberValue(ms, "IdActividad"), MemberValue(ms, "tipo"),
                    MemberValue(ms, "nombreActividad"), MemberValue(ms, "nombreEvento")))
  }

  /** Decoding the text of any members reads each field off those members. */
  lemma DecodeStringify(ms: seq<Member>)
    ensures Decode(Stringify(ms)) ==
      Some(ScanData(MemberValue(ms, "IdActividad"), MemberValue(ms, "tipo"),
                    MemberValue(ms, "nombreActividad"), MemberValue(ms, "nombreEvento")))
  {
    ParseStringify(ms);
  }

  /** Each field of a payload is read back from its own member. */
  lemma MemberValues(p: Payload)
    ensures MemberValue(Members(p), "IdActividad") == Num(p.idActividad)
    ensures MemberValue(Members(p), "tipo") == Str(p.tipo)
    ensures MemberValue(Members(p), "nombreActividad") == Str(p.nombreActividad)
    ensures MemberValue(Members(p), "nombreEvento") == Str(p.nombreEvento)
  {
    var ms := Members(p);
    var m3, m2, m1 := ms[..3], ms[..2], ms[..1];
    assert m3[..2] == m2 && m2[..1] == m1 && m1[..0] == [];
    assert MemberValue(m1, "IdActividad") == Num(p.idActividad);
    assert MemberValue(m2, "tipo") == Str(p.tipo);
    assert MemberValue(m3, "nombreActividad") == Str(p.nombreActividad);
    assert MemberValue(m2, "IdActividad") == Num(p.idActividad);
    assert MemberValue(m3, "IdActividad") == Num(p.idActividad);
    assert MemberValue(m3, "tipo") == Str(p.tipo);
  }

  /** Decoding an encoded payload gives back all four fields unchanged. */
  lemma DecodeEncode(p: Payload)
    ensures Decode(Encode(p)) ==
      Some(ScanData(Num(p.idActividad), Str(p.tipo), Str(p.nombreActividad), Str(p.nombreEvento)))
  {
    DecodeStringify(Members(p));
    MemberValues(p);
  }

  /** `evento?.NombreEvento || "Evento sin nombre"`: a missing parent event and
      one with an empty name both fall back. */
  function EventLabel(eventName: Option<string>): (text: string)
    ensures eventName.Some? && eventName.value != "" ==> text == eventName.value
    ensures eventName.None? || eventName.value == "" ==> text == SinEvento
  {
    if eventName.Some? && eventName.value != "" then eventName.value else SinEvento
  }

  /** The entry and exit payloads of an activity (ActividadController.ts:130-141):
      the same activity, name and event label, told apart only by `tipo`. */
  function ActivityPayloads(id: nat, nombreActi: string, eventName: Option<string>): (r: (Payload, Payload))
    ensures r.0.tipo == Entrada && r.1.tipo == Salida
    ensures r.1 == r.0.(tipo := Salida)
    ensures r.0.idActividad == id && r.0.nombreActividad == nombreActi
    ensures r.0.nombreEvento == EventLabel(eventName)
  {
    var entrada := Payload(id, Entrada, nombreActi, EventLabel(eventName));
    (entrada, entrada.(tipo := Salida))
  }

  /** The payloads of a stand-alone lúdica (LudicaController.ts:69-80), labelled
      "Lúdica individual". */
  function LudicaPayloads(id: nat, nombreActi: string): (r: (Payload, Payload))
    ensures r.0.tipo == Entrada && r.1.tipo == Salida
    ensures r.1 == r.0.(tipo := Salida)
    ensures r.0.idActividad == id && r.0.nombreActividad == nombreActi
    ensures r.0.nombreEvento == LudicaIndividual
  {
    var entrada := Payload(id, Entrada, nombreActi, LudicaIndividual);
    (entrada, entrada.(tipo := Salida))
  }

  /** The two codes of an activity decode to the same activity, one read as an
      entry (`tipo` is "entrada") and the other not; so their texts differ. */
  lemma EntryAndExitCodes(id: nat, nombreActi: string, eventName: Option<string>)
    ensures var (e, s) := ActivityPayloads(id, nombreActi, eventName);
            && Decode(Encode(e)).Some? && Decode(Encode(s)).Some?
            && Decode(Encode(e)).value.idActividad == Decode(Encode(s)).value.idActividad == Num(id)
            && Decode(Encode(e)).value.tipo == Str(Entrada)
            && Decode(Encode(s)).value.tipo == Str(Salida)
            && Encode(e) != Encode(s)
  {
    var (e, s) := ActivityPayloads(id, nombreActi, eventName);
    DecodeEncode(e);
    DecodeEncode(s);
  }
}
