/** Catalog items: `subirElemento`, `getCatalogo`, `actualizarImagen` and
    `eliminarElemento` of src/controllers/CatalogoAlquiler.ts, and
    `crearElemento` and `eliminarElemento` of
    src/controllers/ElementoController.ts. An item is an `Elemento` (the stock)
    and, when it is offered in the catalog, a `PrestamoElementos` record whose
    Observaciones is "catalogo"; rentals are records of the same table. Form
    fields arrive as multipart text. The image upload is a foreign call: its
    `secure_url` is a parameter, and so is the clock. */
module Inventory {
  import opened Wrappers
  import opened JsText
  import opened JsonText

  // ---------------------------------------------------------------------------
  // Records

  /** A row of table `Elemento`. */
  datatype Elemento = Elemento(
    idElemento: nat,
    nombre: string,
    descripcion: Option<string>,
    imagen: Option<string>,
    cantidadTotal: int,
    cantidadDisponible: int,
    disponible: bool)

  /** A row of table `PrestamoElementos`: a rental, or the catalog record of an
      item. `cumplioConEntrega` is None where the column is left to its
      default. */
  datatype Prestamo = Prestamo(
    idAlquiler: nat,
    idElemento: nat,
    nombreElemento: Option<string>,
    imagen: Option<string>,
    cantidadDisponible: int,
    observaciones: Option<string>,
    registradoPor: Option<string>,
    idUsuario: Option<nat>,
    cumplioConEntrega: Option<bool>)

  /** The uploaded file as multer hands it over. Storage is in memory, so a
      file always has its buffer. */
  datatype Upload = Upload(mimetype: string)

  datatype Rejection = MissingFields | BadCantidad | BadMimeType | MissingImage | NotFound

  function Status(e: Rejection): int {
    if e == NotFound then 404 else 400
  }

  // ---------------------------------------------------------------------------
  // Validation

  const AllowedMimeTypes: seq<string> := ["image/jpeg", "image/png", "image/webp"]

  /** The image check of both creation handlers and of `actualizarImagen`: a
      file with a MIME type is required, and the type must be JPEG, PNG or
      WEBP. */
  function ImageCheck(file: Option<Upload>): (r: Option<Rejection>)
    ensures r.None? <==> file.Some? && file.value.mimetype in AllowedMimeTypes
    ensures r == Some(MissingImage) <==> file.None? || file.value.mimetype == ""
    ensures r == Some(BadMimeType) <==>
              file.Some? && file.value.mimetype != "" && file.value.mimetype !in AllowedMimeTypes
  {
    if file.Some? && file.value.mimetype != "" then
      if file.value.mimetype in AllowedMimeTypes then None else Some(BadMimeType)
    else Some(MissingImage)
  }

  /** The checks of a creation request, in the handlers' order: Nombre and
      Cantidad present, `parseInt(Cantidad)` a number of at least 1, then the
      image. `subirElemento` parses with radix 10, `crearElemento` without a
      radix. The result is the quantity. */
  function CheckItem(nombre: Option<string>, cantidad: Option<string>, file: Option<Upload>, radix: Radix)
    : (r: Result<nat, Rejection>)
    ensures r == Err(MissingFields) <==> !Truthy(Field(nombre)) || !Truthy(Field(cantidad))
    ensures r == Err(BadCantidad) <==>
              nombre.Some? && nombre.value != "" && cantidad.Some? && cantidad.value != ""
              && (ParseInt(cantidad.value, radix).None? || ParseInt(cantidad.value, radix).value < 1)
    ensures r.Ok? <==>
              nombre.Some? && nombre.value != "" && cantidad.Some? && cantidad.value != ""
              && ParseInt(cantidad.value, radix).Some? && ParseInt(cantidad.value, radix).value >= 1
              && ImageCheck(file).None?
    ensures r.Ok? ==> r.value >= 1 && r.value as int == ParseInt(cantidad.value, radix).value
    ensures r.Err? && r.error in {BadMimeType, MissingImage} ==> Some(r.error) == ImageCheck(file)
    ensures r != Err(NotFound)
  {
    if !Truthy(Field(nombre)) || !Truthy(Field(cantidad)) then Err(MissingFields)
    else match ParseInt(cantidad.value, radix)
      case None => Err(BadCantidad)
      case Some(n) =>
        if n < 1 then Err(BadCantidad)
        else match ImageCheck(file)
          case Some(e) => Err(e)
          case None => Ok(n)
  }

  /** The decimal text of any integer is accepted as that quantity exactly
      when it is at least 1, with or without a radix. */
  lemma CantidadText(nombre: string, n: int, file: Option<Upload>, radix: Radix)
    requires nombre != "" && ImageCheck(file).None?
    ensures CheckItem(Some(nombre), Some(IntText(n)), file, radix)
            == if n >= 1 then Ok(n as nat) else Err(BadCantidad)
  {
    IntTextRoundTrip(n, radix);
  }

  /** Only the leading digits count: digits followed by text that does not
      start with a digit ("3 unidades") are that many units, with or without a
      radix, as long as they are not a lone `0` before an `x`. */
  lemma CantidadLeadingDigits(nombre: string, d: string, rest: string, file: Option<Upload>, radix: Radix)
    requires nombre != "" && ImageCheck(file).None?
    requires |d| >= 1 && AllDigits(d) && (rest == "" || !IsDigit(rest[0]))
    requires d[0] != '0' || |d| > 1 || rest == "" || (rest[0] != 'x' && rest[0] != 'X')
    ensures CheckItem(Some(nombre), Some(d + rest), file, radix)
            == if DigitsValue(d, false) >= 1 then Ok(DigitsValue(d, false)) else Err(BadCantidad)
  {
    LeadingDigits(d, rest, radix);
  }

  /** The two handlers disagree on a `0x` prefix: without a radix "0x10" is
      16 units, with radix 10 it reads as 0 and is rejected. */
  lemma CantidadHexPrefix(nombre: string, d: string, file: Option<Upload>)
    requires nombre != "" && ImageCheck(file).None?
    requires |d| >= 1 && forall i :: 0 <= i < |d| ==> IsHexDigit(d[i])
    ensures CheckItem(Some(nombre), Some("0x" + d), file, NoRadix)
            == if DigitsValue(d, true) >= 1 then Ok(DigitsValue(d, true)) else Err(BadCantidad)
    ensures CheckItem(Some(nombre), Some("0x" + d), file, Base10) == Err(BadCantidad)
  {
    HexPrefix(d);
  }

  // ---------------------------------------------------------------------------
  // New records

  const CatalogDescripcion := "Elemento agregado desde catálogo"

  /** The new `Elemento` of both creation handlers: all of the quantity in
      stock, available. */
  function NewElemento(id: nat, nombre: string, descripcion: Option<string>, cantidad: nat, url: string): Elemento {
    Elemento(id, nombre, descripcion, Some(url), cantidad, cantidad, true)
  }

  /** The catalog record `subirElemento` creates for a new element: nobody's
      rental, registered by "sistema". */
  function CatalogRecord(id: nat, e: Elemento, url: string): Prestamo {
    Prestamo(id, e.idElemento, Some(e.nombre), Some(url), e.cantidadTotal,
             Some("catalogo"), Some("sistema"), None, None)
  }

  /** The members of the QR that `subirElemento` renders; `now` is `Date.now()`. */
  function CatalogQrMembers(e: Elemento, now: nat): seq<Member> {
    [("tipo", JString("alquiler")),
     ("IdElemento", JNat(e.idElemento)),
     ("nombreElemento", JString(e.nombre)),
     ("nombreAprendiz", JString("Aprendiz desconocido")),
     ("codigo", JString("ALQ-" + NatText(now)))]
  }

  /** The members of the QR that `crearElemento` renders. */
  function ElementoQrMembers(e: Elemento): seq<Member> {
    [("IdElemento", JNat(e.idElemento)), ("Nombre", JString(e.nombre)), ("tipo", JString("alquiler"))]
  }

  /** Where `crearElemento` says the QR image of element `id` is served. */
  function QrUrl(id: nat): string {
    "/qrcodes/" + NatText(id) + ".png"
  }

  /** Distinct elements get distinct QR image paths. */
  lemma QrUrlInjective(a: nat, b: nat)
    requires QrUrl(a) == QrUrl(b)
    ensures a == b
  {
    var u := QrUrl(a);
    assert |NatText(a)| == |NatText(b)|;
    assert NatText(a) == u[9..|u| - 4];
    assert NatText(b) == u[9..|u| - 4];
    NatTextValue(a);
    NatTextValue(b);
  }

  /** What a creation handler returns, with the members of the QR it renders
      (the image encodes `Stringify(qr)`). */
  datatype CatalogItem = CatalogItem(elemento: Elemento, alquiler: Prestamo, qr: seq<Member>)

  datatype NewItem = NewItem(elemento: Elemento, qr: seq<Member>, qrUrl: string)

  /** What `subirElemento` creates for a valid request: the element (a
      missing Descripcion takes the catalog default), its catalog record and
      the members of its QR. */
  function CatalogItemFor(idElemento: nat, idAlquiler: nat, nombre: string, descripcion: Option<string>,
                          cantidad: nat, url: string, now: nat): CatalogItem
  {
    var e := NewElemento(idElemento, nombre, Some(descripcion.GetOr(CatalogDescripcion)), cantidad, url);
    CatalogItem(e, CatalogRecord(idAlquiler, e, url), CatalogQrMembers(e, now))
  }

  /** What `crearElemento` creates for a valid request: the element, the
      members of its QR and where the QR image is served. */
  function NewItemFor(idElemento: nat, nombre: string, descripcion: Option<string>, cantidad: nat, url: string)
    : NewItem
  {
    var e := NewElemento(idElemento, nombre, descripcion, cantidad, url);
    NewItem(e, ElementoQrMembers(e), QrUrl(idElemento))
  }

  /** A catalog item starts with all of its quantity in stock and available;
      its record is nobody's rental, points at the element, is listed, and its
      QR names the element. */
  lemma CatalogItemShape(idElemento: nat, idAlquiler: nat, nombre: string, descripcion: Option<string>,
                         cantidad: nat, url: string, now: nat)
    requires idElemento >= 1
    ensures var item := CatalogItemFor(idElemento, idAlquiler, nombre, descripcion, cantidad, url, now);
            && item.elemento.idElemento == idElemento
            && item.elemento.cantidadTotal == item.elemento.cantidadDisponible == cantidad
            && item.elemento.disponible && item.elemento.imagen == Some(url)
            && (descripcion.None? ==> item.elemento.descripcion == Some(CatalogDescripcion))
            && item.alquiler.idAlquiler == idAlquiler && item.alquiler.idElemento == idElemento
            && item.alquiler.cantidadDisponible == cantidad
            && Listed(item.alquiler) && item.alquiler.idUsuario.None?
            && item.alquiler.registradoPor == Some("sistema")
            && item.qr[1] == ("IdElemento", JNat(idElemento))
            && Parse(Stringify(item.qr)) == Some(item.qr)
  {
    var item := CatalogItemFor(idElemento, idAlquiler, nombre, descripcion, cantidad, url, now);
    ParseStringify(CatalogQrMembers(item.elemento, now));
  }

  /** A new element starts with all of its quantity in stock and available,
      its QR decodes to its id and name, and its QR path names it alone. */
  lemma NewItemShape(idElemento: nat, nombre: string, descripcion: Option<string>, cantidad: nat, url: string)
    ensures var item := NewItemFor(idElemento, nombre, descripcion, cantidad, url);
            && item.elemento.idElemento == idElemento
            && item.elemento.cantidadTotal == item.elemento.cantidadDisponible == cantidad
            && item.elemento.disponible && item.elemento.descripcion == descripcion
            && item.qr[0] == ("IdElemento", JNat(idElemento))
            && Parse(Stringify(item.qr)) == Some(item.qr)
            && forall other: nat :: QrUrl(other) == item.qrUrl ==> other == idElemento
  {
    var item := NewItemFor(idElemento, nombre, descripcion, cantidad, url);
    ParseStringify(ElementoQrMembers(item.elemento));
    forall other: nat | QrUrl(other) == item.qrUrl ensures other == idElemento {
      QrUrlInjective(other, idElemento);
    }
  }

  // ---------------------------------------------------------------------------
  // Queries

  /** The record with primary key `id` (`findByPk`). */
  function IndexOf(ps: seq<Prestamo>, id: nat): (r: Option<nat>)
    ensures r.Some? ==> r.value < |ps| && ps[r.value].idAlquiler == id
    ensures r.Some? ==> forall i :: 0 <= i < r.value ==> ps[i].idAlquiler != id
    ensures r.None? <==> forall i :: 0 <= i < |ps| ==> ps[i].idAlquiler != id
  {
    if ps == [] then None
    else if ps[0].idAlquiler == id then Some(0)
    else match IndexOf(ps[1..], id)
      case None => None
      case Some(k) => Some(k + 1)
  }

  function RemoveAt(ps: seq<Prestamo>, k: nat): (r: seq<Prestamo>)
    requires k < |ps|
    ensures |r| == |ps| - 1
    ensures forall p :: p in ps && p != ps[k] ==> p in r
    ensures forall p :: p in r ==> p in ps
  {
    ps[..k] + ps[k + 1..]
  }

  predicate IsCatalog(p: Prestamo) {
    p.observaciones == Some("catalogo")
  }

  /** A pending rental of element `id`: SQL's `Observaciones <> 'catalogo'` is
      false on NULL, and `CumplioConEntrega = false` on NULL too. */
  predicate ActiveRental(p: Prestamo, id: nat) {
    p.idElemento == id && p.observaciones.Some? && p.observaciones.value != "catalogo"
    && p.cumplioConEntrega == Some(false)
  }

  function ActiveRentals(ps: seq<Prestamo>, id: nat): (r: seq<Prestamo>)
    ensures forall p :: p in r <==> p in ps && ActiveRental(p, id)
  {
    if ps == [] then []
    else (if ActiveRental(ps[0], id) then [ps[0]] else []) + ActiveRentals(ps[1..], id)
  }

  /** Record ids are increasing in creation order, and below the next id. */
  predicate LedgerValid(ps: seq<Prestamo>, nextAlquiler: nat) {
    && (forall i, j :: 0 <= i < j < |ps| ==> ps[i].idAlquiler < ps[j].idAlquiler)
    && (forall i :: 0 <= i < |ps| ==> ps[i].idAlquiler < nextAlquiler)
  }

  /** Every element sits under its own id, and ids start at 1. */
  predicate StockValid(elementos: map<nat, Elemento>, nextElemento: nat) {
    && 1 <= nextElemento
    && forall id :: id in elementos ==> id < nextElemento && elementos[id].idElemento == id
  }

  lemma StockInsert(elementos: map<nat, Elemento>, n: nat, e: Elemento)
    requires StockValid(elementos, n) && e.idElemento == n
    ensures StockValid(elementos[n := e], n + 1)
  {
  }

  /** With increasing ids, the record with an id is the only one with it. */
  lemma IndexOfUnique(ps: seq<Prestamo>, n: nat, id: nat, i: nat)
    requires LedgerValid(ps, n) && i < |ps| && ps[i].idAlquiler == id
    ensures IndexOf(ps, id) == Some(i)
  {
    var k := IndexOf(ps, id).value;
    assert ps[k].idAlquiler == ps[i].idAlquiler;
  }

  lemma LedgerAppend(ps: seq<Prestamo>, n: nat, p: Prestamo)
    requires LedgerValid(ps, n) && p.idAlquiler == n
    ensures LedgerValid(ps + [p], n + 1)
  {
  }

  lemma LedgerRemove(ps: seq<Prestamo>, n: nat, k: nat)
    requires LedgerValid(ps, n) && k < |ps|
    ensures LedgerValid(RemoveAt(ps, k), n)
  {
    var r := RemoveAt(ps, k);
    forall i | 0 <= i < |r|
      ensures r[i] == if i < k then ps[i] else ps[i + 1]
    {
    }
  }

  // ---------------------------------------------------------------------------
  // The catalog listing

  /** What `getCatalogo` lists: catalog records of a real element (IdElemento
      is not 0). */
  predicate Listed(p: Prestamo) {
    IsCatalog(p) && p.idElemento != 0
  }

  /** `e.Imagen || e.elemento?.Imagen || null`: the record's own image first,
      then its element's, and null when neither is a non-empty text. */
  function ImagenUrl(p: Prestamo, elementos: map<nat, Elemento>): (r: Option<string>)
    ensures p.imagen.Some? && p.imagen.value != "" ==> r == p.imagen
    ensures (p.imagen.None? || p.imagen.value == "") ==>
              r == if p.idElemento in elementos && elementos[p.idElemento].imagen.Some?
                      && elementos[p.idElemento].imagen.value != ""
                   then elementos[p.idElemento].imagen else None
    ensures r.Some? ==> r.value != ""
  {
    if p.imagen.Some? && p.imagen.value != "" then p.imagen
    else if p.idElemento in elementos then
      var img := elementos[p.idElemento].imagen;
      if img.Some? && img.value != "" then img else None
    else None
  }

  datatype CatalogEntry = CatalogEntry(record: Prestamo, imagenUrl: Option<string>)

  /** `getCatalogo`: the listed records, newest first (the creation time is the
      order of the table), each with its image URL. */
  function Catalogo(ps: seq<Prestamo>, elementos: map<nat, Elemento>): (r: seq<CatalogEntry>)
    ensures |r| <= |ps|
    ensures forall e :: e in r ==> e.record in ps && Listed(e.record) && e.imagenUrl == ImagenUrl(e.record, elementos)
    ensures forall p :: p in ps && Listed(p) ==> CatalogEntry(p, ImagenUrl(p, elementos)) in r
  {
    if ps == [] then []
    else
      var last := ps[|ps| - 1];
      assert forall p :: p in ps ==> p in ps[..|ps| - 1] || p == last;
      (if Listed(last) then [CatalogEntry(last, ImagenUrl(last, elementos))] else [])
      + Catalogo(ps[..|ps| - 1], elementos)
  }

  predicate NewestFirst(r: seq<CatalogEntry>) {
    forall i, j :: 0 <= i < j < |r| ==> r[i].record.idAlquiler > r[j].record.idAlquiler
  }

  lemma ConsNewestFirst(x: CatalogEntry, rest: seq<CatalogEntry>)
    requires NewestFirst(rest)
    requires forall e :: e in rest ==> e.record.idAlquiler < x.record.idAlquiler
    ensures NewestFirst([x] + rest)
  {
    var r := [x] + rest;
    forall i, j | 0 <= i < j < |r| ensures r[i].record.idAlquiler > r[j].record.idAlquiler {
      assert r[j] == rest[j - 1];
      if i > 0 {
        assert r[i] == rest[i - 1];
      }
    }
  }

  /** The listing is newest first: record ids strictly decrease. */
  lemma {:induction false} CatalogoNewestFirst(ps: seq<Prestamo>, n: nat, elementos: map<nat, Elemento>)
    requires LedgerValid(ps, n)
    ensures NewestFirst(Catalogo(ps, elementos))
  {
    if ps != [] {
      var init := ps[..|ps| - 1];
      var last := ps[|ps| - 1];
      assert LedgerValid(init, last.idAlquiler) by {
        forall i | 0 <= i < |init| ensures init[i].idAlquiler < last.idAlquiler {
          assert init[i] == ps[i];
        }
      }
      CatalogoNewestFirst(init, last.idAlquiler, elementos);
      var rest := Catalogo(init, elementos);
      if Listed(last) {
        forall e | e in rest ensures e.record.idAlquiler < last.idAlquiler {
          var i :| 0 <= i < |init| && init[i] == e.record;
        }
        ConsNewestFirst(CatalogEntry(last, ImagenUrl(last, elementos)), rest);
      } else {
        assert Catalogo(ps, elementos) == rest;
      }
    }
  }

  /** An item just added through `subirElemento` heads the listing, with the
      uploaded image (null when the upload returned no URL). */
  lemma NewItemListedFirst(ps: seq<Prestamo>, elementos: map<nat, Elemento>, e: Elemento, id: nat, url: string)
    requires e.idElemento != 0 && e.imagen == Some(url)
    ensures Catalogo(ps + [CatalogRecord(id, e, url)], elementos[e.idElemento := e])[0]
            == CatalogEntry(CatalogRecord(id, e, url), if url == "" then None else Some(url))
  {
    var qs := ps + [CatalogRecord(id, e, url)];
    assert qs[..|qs| - 1] == ps;
  }

  /** A record that was deleted is no longer listed. */
  lemma RemovedNotListed(ps: seq<Prestamo>, n: nat, k: nat, elementos: map<nat, Elemento>)
    requires LedgerValid(ps, n) && k < |ps|
    ensures forall e :: e in Catalogo(RemoveAt(ps, k), elementos) ==> e.record.idAlquiler != ps[k].idAlquiler
  {
    var r := RemoveAt(ps, k);
    forall e | e in Catalogo(r, elementos) ensures e.record.idAlquiler != ps[k].idAlquiler {
      var i :| 0 <= i < |r| && r[i] == e.record;
      if i < k {
        assert r[i] == ps[i];
      } else {
        assert r[i] == ps[i + 1];
      }
    }
  }

  // ---------------------------------------------------------------------------
  // Deleting from the catalog (ElementoController)

  datatype Removal = NotInCatalog | Deactivated | Removed

  function RemovalStatus(r: Removal): int {
    if r == NotInCatalog then 404 else 200
  }

  /** `eliminarElemento` of ElementoController, on the records and the
      elements: 404 without a catalog record `id`; when the item's element has
      a pending rental, the element is marked unavailable (if it exists) and
      the record stays; otherwise only the record is deleted. `asWritten`
      looks the rentals and the element up under the record's own id, as the
      handler does; the corrected rule uses the record's IdElemento. */
  function EliminarRule(ps: seq<Prestamo>, elementos: map<nat, Elemento>, id: nat, asWritten: bool)
    : (Removal, seq<Prestamo>, map<nat, Elemento>)
  {
    match IndexOf(ps, id)
    case None => (NotInCatalog, ps, elementos)
    case Some(k) =>
      var c := ps[k];
      if !IsCatalog(c) then (NotInCatalog, ps, elementos)
      else
        var key := if asWritten then c.idAlquiler else c.idElemento;
        if |ActiveRentals(ps, key)| > 0 then
          (Deactivated, ps,
           if key in elementos then elementos[key := elementos[key].(disponible := false)] else elementos)
        else (Removed, RemoveAt(ps, k), elementos)
  }

  function EliminarAsWritten(ps: seq<Prestamo>, elementos: map<nat, Elemento>, id: nat)
    : (Removal, seq<Prestamo>, map<nat, Elemento>)
  {
    EliminarRule(ps, elementos, id, true)
  }

  function Eliminar(ps: seq<Prestamo>, elementos: map<nat, Elemento>, id: nat)
    : (Removal, seq<Prestamo>, map<nat, Elemento>)
  {
    EliminarRule(ps, elementos, id, false)
  }

  /** A catalog record whose id differs from its element's id, beside a
      pending rental of that element: the handler as written finds no pending
      rental under the record's id and deletes the record; the corrected rule
      keeps it and marks the element unavailable. */
  lemma AsWrittenDeletesRentedItem()
    ensures var catalogo := Prestamo(1, 2, Some("Balón"), None, 3, Some("catalogo"), Some("sistema"), None, None);
            var alquiler := Prestamo(2, 2, Some("Balón"), None, 1, Some("Préstamo"), None, Some(7), Some(false));
            var ps := [catalogo, alquiler];
            var els := map[2 := Elemento(2, "Balón", None, None, 3, 2, true)];
            && EliminarAsWritten(ps, els, 1) == (Removed, [alquiler], els)
            && Eliminar(ps, els, 1) == (Deactivated, ps, map[2 := Elemento(2, "Balón", None, None, 3, 2, false)])
  {
    var catalogo := Prestamo(1, 2, Some("Balón"), None, 3, Some("catalogo"), Some("sistema"), None, None);
    var alquiler := Prestamo(2, 2, Some("Balón"), None, 1, Some("Préstamo"), None, Some(7), Some(false));
    var ps := [catalogo, alquiler];
    assert ps[1..] == [alquiler] && [alquiler][1..] == [];
    assert IndexOf(ps, 1) == Some(0);
    assert ActiveRentals([alquiler], 1) == [];
    assert ActiveRentals(ps, 1) == ActiveRentals([alquiler], 1);
    assert alquiler in ActiveRentals(ps, 2);
    assert RemoveAt(ps, 0) == [alquiler];
    var els := map[2 := Elemento(2, "Balón", None, None, 3, 2, true)];
    assert EliminarAsWritten(ps, els, 1) == (Removed, [alquiler], els);
    assert els[2 := els[2].(disponible := false)] == map[2 := Elemento(2, "Balón", None, None, 3, 2, false)];
    assert Eliminar(ps, els, 1).0 == Deactivated;
  }

  /** The corrected rule answers 404 exactly when there is no catalog record
      with that id, and then changes nothing. */
  lemma EliminarNotFound(ps: seq<Prestamo>, n: nat, elementos: map<nat, Elemento>, id: nat)
    requires LedgerValid(ps, n)
    ensures Eliminar(ps, elementos, id).0 == NotInCatalog <==>
              forall i :: 0 <= i < |ps| && ps[i].idAlquiler == id ==> !IsCatalog(ps[i])
    ensures Eliminar(ps, elementos, id).0 == NotInCatalog ==>
              Eliminar(ps, elementos, id).1 == ps && Eliminar(ps, elementos, id).2 == elementos
  {
    if i :| 0 <= i < |ps| && ps[i].idAlquiler == id {
      IndexOfUnique(ps, n, id, i);
    }
  }

  /** An item whose element has a pending rental is never deleted: its record
      stays, the element (when it exists) becomes unavailable and nothing else
      changes. */
  lemma EliminarKeepsRented(ps: seq<Prestamo>, elementos: map<nat, Elemento>, k: nat, a: nat)
    requires k < |ps| && IsCatalog(ps[k]) && IndexOf(ps, ps[k].idAlquiler) == Some(k)
    requires a < |ps| && ActiveRental(ps[a], ps[k].idElemento)
    ensures var (r, ps', els') := Eliminar(ps, elementos, ps[k].idAlquiler);
            && r == Deactivated && ps' == ps
            && els'.Keys == elementos.Keys
            && (ps[k].idElemento in els' ==> !els'[ps[k].idElemento].disponible)
            && forall id :: id in elementos && id != ps[k].idElemento ==> els'[id] == elementos[id]
  {
    assert ps[a] in ActiveRentals(ps, ps[k].idElemento);
  }

  /** A deletion removes exactly the catalog record, only when its element has
      no pending rental, and leaves the elements alone. */
  lemma EliminarRemoves(ps: seq<Prestamo>, n: nat, elementos: map<nat, Elemento>, id: nat)
    requires LedgerValid(ps, n)
    requires Eliminar(ps, elementos, id).0 == Removed
    ensures exists k :: 0 <= k < |ps| && ps[k].idAlquiler == id && IsCatalog(ps[k])
                        && (forall i :: 0 <= i < |ps| ==> !ActiveRental(ps[i], ps[k].idElemento))
                        && Eliminar(ps, elementos, id).1 == RemoveAt(ps, k)
    ensures Eliminar(ps, elementos, id).2 == elementos
    ensures LedgerValid(Eliminar(ps, elementos, id).1, n)
  {
    var k := IndexOf(ps, id).value;
    forall i | 0 <= i < |ps| ensures !ActiveRental(ps[i], ps[k].idElemento) {
      assert ps[i] !in ActiveRentals(ps, ps[k].idElemento);
    }
    LedgerRemove(ps, n, k);
  }

  // ---------------------------------------------------------------------------
  // The handlers

  /** The `Elemento` and `PrestamoElementos` tables. */
  class Inventory {
    var elementos: map<nat, Elemento>
    var nextElemento: nat
    var prestamos: seq<Prestamo>
    var nextAlquiler: nat

    ghost predicate Valid()
      reads this
    {
      StockValid(elementos, nextElemento) && LedgerValid(prestamos, nextAlquiler)
    }

    constructor ()
      ensures Valid()
      ensures elementos == map[] && nextElemento == 1 && prestamos == [] && nextAlquiler == 1
    {
      elementos, nextElemento := map[], 1;
      prestamos, nextAlquiler := [], 1;
    }

    /** `subirElemento`: validate, create the element, render its QR, and
        create its catalog record. */
    method SubirElemento(nombre: Option<string>, descripcion: Option<string>, cantidad: Option<string>,
                         file: Option<Upload>, url: string, now: nat)
      returns (r: Result<CatalogItem, Rejection>)
      requires Valid()
      modifies this
      ensures Valid()
      ensures r.Err? ==> CheckItem(nombre, cantidad, file, Base10) == Err(r.error) && unchanged(this)
      ensures r.Ok? ==>
                && CheckItem(nombre, cantidad, file, Base10).Ok?
                && r.value == CatalogItemFor(old(nextElemento), old(nextAlquiler), nombre.value, descripcion,
                                             CheckItem(nombre, cantidad, file, Base10).value, url, now)
                && elementos == old(elementos)[old(nextElemento) := r.value.elemento]
                && nextElemento == old(nextElemento) + 1
                && prestamos == old(prestamos) + [r.value.alquiler]
                && nextAlquiler == old(nextAlquiler) + 1
    {
      var check := CheckItem(nombre, cantidad, file, Base10);
      if check.Err? {
        return Err(check.error);
      }
      var item := CatalogItemFor(nextElemento, nextAlquiler, nombre.value, descripcion, check.value, url, now);
      StockInsert(elementos, nextElemento, item.elemento);
      elementos := elementos[nextElemento := item.elemento];
      nextElemento := nextElemento + 1;
      LedgerAppend(prestamos, nextAlquiler, item.alquiler);
      prestamos := prestamos + [item.alquiler];
      nextAlquiler := nextAlquiler + 1;
      r := Ok(item);
    }

    /** `crearElemento`: validate (parseInt without a radix), create the
        element and render its QR. */
    method CrearElemento(nombre: Option<string>, descripcion: Option<string>, cantidad: Option<string>,
                         file: Option<Upload>, url: string)
      returns (r: Result<NewItem, Rejection>)
      requires Valid()
      modifies this
      ensures Valid()
      ensures r.Err? ==> CheckItem(nombre, cantidad, file, NoRadix) == Err(r.error) && unchanged(this)
      ensures r.Ok? ==>
                && CheckItem(nombre, cantidad, file, NoRadix).Ok?
                && r.value == NewItemFor(old(nextElemento), nombre.value, descripcion,
                                         CheckItem(nombre, cantidad, file, NoRadix).value, url)
                && elementos == old(elementos)[old(nextElemento) := r.value.elemento]
                && nextElemento == old(nextElemento) + 1
                && prestamos == old(prestamos) && nextAlquiler == old(nextAlquiler)
    {
      var check := CheckItem(nombre, cantidad, file, NoRadix);
      if check.Err? {
        return Err(check.error);
      }
      var item := NewItemFor(nextElemento, nombre.value, descripcion, check.value, url);
      StockInsert(elementos, nextElemento, item.elemento);
      elementos := elementos[nextElemento := item.elemento];
      nextElemento := nextElemento + 1;
      r := Ok(item);
    }

    /** `actualizarImagen`: 404 for an unknown record; a missing or disallowed
        file is rejected and the image stays; otherwise the record takes the
        new URL. */
    method ActualizarImagen(id: nat, file: Option<Upload>, url: string) returns (r: Result<Prestamo, Rejection>)
      requires Valid()
      modifies this
      ensures Valid() && elementos == old(elementos) && nextAlquiler == old(nextAlquiler)
              && nextElemento == old(nextElemento)
      ensures r == Err(NotFound) <==> forall i :: 0 <= i < |old(prestamos)| ==> old(prestamos)[i].idAlquiler != id
      ensures r.Err? && r.error != NotFound ==> Some(r.error) == ImageCheck(file)
      ensures r.Err? ==> prestamos == old(prestamos)
      ensures r.Ok? ==> ImageCheck(file).None?
                        && exists k :: 0 <= k < |old(prestamos)| && old(prestamos)[k].idAlquiler == id
                                       && r.value == old(prestamos)[k].(imagen := Some(url))
                                       && prestamos == old(prestamos)[k := r.value]
    {
      var k := IndexOf(prestamos, id);
      if k.None? {
        return Err(NotFound);
      }
      var check := ImageCheck(file);
      if check.Some? {
        return Err(check.value);
      }
      var p := prestamos[k.value].(imagen := Some(url));
      prestamos := prestamos[k.value := p];
      r := Ok(p);
    }

    /** `eliminarElemento` of CatalogoController: 404 for an unknown record,
        else the record is deleted, whatever it is. */
    method EliminarRegistro(id: nat) returns (found: bool)
      requires Valid()
      modifies this
      ensures Valid() && elementos == old(elementos) && nextAlquiler == old(nextAlquiler)
              && nextElemento == old(nextElemento)
      ensures !found <==> forall i :: 0 <= i < |old(prestamos)| ==> old(prestamos)[i].idAlquiler != id
      ensures !found ==> prestamos == old(prestamos)
      ensures found ==> exists k :: 0 <= k < |old(prestamos)| && old(prestamos)[k].idAlquiler == id
                                    && prestamos == RemoveAt(old(prestamos), k)
    {
      var k := IndexOf(prestamos, id);
      if k.None? {
        return false;
      }
      LedgerRemove(prestamos, nextAlquiler, k.value);
      prestamos := RemoveAt(prestamos, k.value);
      found := true;
    }

    /** `eliminarElemento` of ElementoController, with the pending rentals and
        the element looked up under the record's IdElemento. */
    method EliminarElemento(id: nat) returns (r: Removal)
      requires Valid()
      modifies this
      ensures Valid() && nextElemento == old(nextElemento) && nextAlquiler == old(nextAlquiler)
      ensures (r, prestamos, elementos) == Eliminar(old(prestamos), old(elementos), id)
    {
      var k := IndexOf(prestamos, id);
      if k.None? || !IsCatalog(prestamos[k.value]) {
        return NotInCatalog;
      }
      var c := prestamos[k.value];
      var activos := ActiveRentals(prestamos, c.idElemento);
      if |activos| > 0 {
        if c.idElemento in elementos {
          elementos := elementos[c.idElemento := elementos[c.idElemento].(disponible := false)];
        }
        return Deactivated;
      }
      LedgerRemove(prestamos, nextAlquiler, k.value);
      prestamos := RemoveAt(prestamos, k.value);
      r := Removed;
    }
  }
}
