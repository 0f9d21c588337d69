/** Importing apprentices from a spreadsheet (`subirDesdeExcel` in
    src/controllers/AprendizController.ts): find the header row among the
    first rows, turn every later non-blank row into an object keyed by the
    header, rename the keys through a table of synonyms, then create a user,
    a role and an apprentice record per row, keeping a report of what became
    of each row. Reading the workbook, hashing and the database are foreign:
    the sheet arrives as rows of cells, the password is stored as the text
    that would be hashed, and whether a row's writes fail is a parameter. */
module SpreadsheetImport {
  import opened Wrappers
  import opened JsText

  /** A cell as the sheet reader returns it; empty cells read as `''`.
      Numbers are integers here. */
  datatype Cell = Text(text: string) | Number(n: int) | Boolean(b: bool)

  type Row = seq<Cell>

  /** `cell.toString()` */
  function CellString(c: Cell): string {
    match c
    case Text(s) => s
    case Number(n) => IntText(n)
    case Boolean(b) => if b then "true" else "false"
  }

  // ---------------------------------------------------------------------------
  // Normalising cells and keys

  /** A combining diacritical mark, U+0300 to U+036F. */
  predicate IsCombiningMark(c: char) {
    '̀' <= c <= 'ͯ'
  }

  /** The base letter of a Spanish accented letter, which is what canonical
      decomposition followed by removal of the combining marks leaves. */
  function FoldAccent(c: char): char {
    if c == 'á' then 'a' else if c == 'é' then 'e' else if c == 'í' then 'i'
    else if c == 'ó' then 'o' else if c == 'ú' || c == 'ü' then 'u' else if c == 'ñ' then 'n'
    else if c == 'Á' then 'A' else if c == 'É' then 'E' else if c == 'Í' then 'I'
    else if c == 'Ó' then 'O' else if c == 'Ú' || c == 'Ü' then 'U' else if c == 'Ñ' then 'N'
    else c
  }

  /** `.normalize('NFD').replace(/[̀-ͯ]/g, '')` */
  function StripAccents(s: string): (r: string)
    ensures |r| <= |s|
    ensures forall i :: 0 <= i < |r| ==> !IsCombiningMark(r[i])
  {
    if s == [] then []
    else if IsCombiningMark(s[0]) then StripAccents(s[1..])
    else [FoldAccent(s[0])] + StripAccents(s[1..])
  }

  predicate IsSeparator(c: char) {
    c == '_' || c == '-' || IsWhiteSpace(c)
  }

  function DropSeparators(s: string): (r: string)
    ensures |r| <= |s|
    ensures r == [] || !IsSeparator(r[0])
  {
    if s != [] && IsSeparator(s[0]) then DropSeparators(s[1..]) else s
  }

  /** `.replace(/[_\-\s]+/g, ' ')`: each run of separators becomes one space. */
  function CollapseSeparators(s: string): (r: string)
    ensures forall i :: 0 <= i < |r| ==> r[i] == ' ' || !IsSeparator(r[i])
    decreases |s|
  {
    if s == [] then []
    else if IsSeparator(s[0]) then " " + CollapseSeparators(DropSeparators(s[1..]))
    else [s[0]] + CollapseSeparators(s[1..])
  }

  /** `normalizeCell` / `normalizeKey` on text. */
  function Normalize(s: string): string {
    ToLower(CollapseSeparators(StripAccents(Trim(s))))
  }

  /** `.replace(/\s+/g, '_')` */
  function Underscored(s: string): (r: string)
    decreases |s|
  {
    if s == [] then []
    else if IsWhiteSpace(s[0]) then "_" + Underscored(DropWhiteSpace(s[1..]))
    else [s[0]] + Underscored(s[1..])
  }

  function DropWhiteSpace(s: string): (r: string)
    ensures |r| <= |s|
  {
    if s != [] && IsWhiteSpace(s[0]) then DropWhiteSpace(s[1..]) else s
  }

  /** `normalizeCell(v)`: a cell's text, normalised (the text of a boolean
      is already normal). */
  function NormalizeCell(v: Cell): string {
    match v
    case Text(s) => Normalize(s)
    case Number(n) => Normalize(IntText(n))
    case Boolean(b) => if b then "true" else "false"
  }

  /** A normalised key holds no `-`, no `_` and no white space but single
      spaces; after `Underscored` it holds no white space at all. */
  lemma {:induction false} CollapsedSeparators(s: string)
    ensures forall i :: 0 <= i < |CollapseSeparators(s)| ==>
              CollapseSeparators(s)[i] != '_' && CollapseSeparators(s)[i] != '-'
              && (IsWhiteSpace(CollapseSeparators(s)[i]) ==> CollapseSeparators(s)[i] == ' ')
  {
  }

  lemma {:induction false} UnderscoredHasNoWhiteSpace(s: string)
    ensures forall i :: 0 <= i < |Underscored(s)| ==> !IsWhiteSpace(Underscored(s)[i])
    decreases |s|
  {
    if s != [] {
      if IsWhiteSpace(s[0]) {
        UnderscoredHasNoWhiteSpace(DropWhiteSpace(s[1..]));
      } else {
        UnderscoredHasNoWhiteSpace(s[1..]);
      }
    }
  }

  // ---------------------------------------------------------------------------
  // Header row

  const HeaderKeywords: seq<string> := [
    "identificacion", "documento", "id", "cedula", "correo", "email", "e mail",
    "nombre", "nombres", "apellido", "apellidos", "ficha", "programa", "jornada"]

  /** `s.includes(t)` */
  predicate Includes(s: string, t: string)
    decreases |s|
  {
    |t| <= |s| && (s[..|t|] == t || (s != [] && Includes(s[1..], t)))
  }

  /** `keywords.some(kw => c.includes(kw))` */
  predicate IncludesSome(c: string, keywords: seq<string>) {
    keywords != [] && (Includes(c, keywords[0]) || IncludesSome(c, keywords[1..]))
  }

  predicate HasKeyword(c: string) {
    IncludesSome(c, HeaderKeywords)
  }

  /** `normalizedCells.filter(c => headerKeywords.some(kw => c.includes(kw))).length` */
  function KeywordHits(row: Row): nat {
    if row == [] then 0
    else (if HasKeyword(NormalizeCell(row[0])) then 1 else 0) + KeywordHits(row[1..])
  }

  /** A cell that is not `''`; the reader gives no null or undefined cell. */
  predicate Filled(c: Cell) {
    c != Text("")
  }

  function FilledCount(row: Row): nat {
    if row == [] then 0 else (if Filled(row[0]) then 1 else 0) + FilledCount(row[1..])
  }

  predicate KeywordRow(row: Row) {
    KeywordHits(row) >= 2
  }

  predicate FilledRow(row: Row) {
    FilledCount(row) >= 2
  }

  /** `Math.min(rawRows.length, 10)` */
  function ScanLimit(rows: seq<Row>): (n: nat)
    ensures n <= |rows| && n <= 10
  {
    if |rows| < 10 then |rows| else 10
  }

  lemma KeywordRowsBefore(rows: seq<Row>, r: nat)
    requires r < |rows| && !KeywordRow(rows[r])
    requires forall j :: 0 <= j < r ==> !KeywordRow(rows[j])
    ensures forall j :: 0 <= j < r + 1 ==> !KeywordRow(rows[j])
  {
  }

  lemma FilledRowsBefore(rows: seq<Row>, r: nat)
    requires r < |rows| && !FilledRow(rows[r])
    requires forall j :: 0 <= j < r ==> !FilledRow(rows[j])
    ensures forall j :: 0 <= j < r + 1 ==> !FilledRow(rows[j])
  {
  }

  /** `h` is the header row: the first of the scanned rows with two
      keyword cells if there is one; else the first of them with two filled
      cells if there is one; else row 0. */
  predicate IsHeaderIndex(rows: seq<Row>, h: int) {
    && 0 <= h && (h == 0 || h < ScanLimit(rows))
    && ((exists r :: 0 <= r < ScanLimit(rows) && KeywordRow(rows[r])) ==>
          h < ScanLimit(rows) && KeywordRow(rows[h])
          && forall r :: 0 <= r < h ==> !KeywordRow(rows[r]))
    && ((forall r :: 0 <= r < ScanLimit(rows) ==> !KeywordRow(rows[r]))
        && (exists r :: 0 <= r < ScanLimit(rows) && FilledRow(rows[r])) ==>
          h < ScanLimit(rows) && FilledRow(rows[h])
          && forall r :: 0 <= r < h ==> !FilledRow(rows[r]))
    && ((forall r :: 0 <= r < ScanLimit(rows) ==> !KeywordRow(rows[r]) && !FilledRow(rows[r])) ==>
          h == 0)
  }

  /** The header row is determined by the rows. */
  lemma HeaderIndexUnique(rows: seq<Row>, h1: int, h2: int)
    requires IsHeaderIndex(rows, h1) && IsHeaderIndex(rows, h2)
    ensures h1 == h2
  {
  }

  /** The two searches over the first rows and the default. */
  method DetectHeader(rows: seq<Row>) returns (headerRowIndex: int)
    ensures IsHeaderIndex(rows, headerRowIndex)
  {
    var limit := ScanLimit(rows);
    headerRowIndex := -1;
    var r := 0;
    while r < limit
      invariant 0 <= r <= limit && headerRowIndex == -1
      invariant forall j :: 0 <= j < r ==> !KeywordRow(rows[j])
    {
      if KeywordRow(rows[r]) {
        headerRowIndex := r;
        break;
      }
      KeywordRowsBefore(rows, r);
      r := r + 1;
    }
    if headerRowIndex == -1 {
      r := 0;
      while r < limit
        invariant 0 <= r <= limit && headerRowIndex == -1
        invariant forall j :: 0 <= j < r ==> !FilledRow(rows[j])
      {
        if FilledRow(rows[r]) {
          headerRowIndex := r;
          break;
        }
        FilledRowsBefore(rows, r);
        r := r + 1;
      }
    }
    if headerRowIndex == -1 {
      headerRowIndex := 0;
    }
  }

  // ---------------------------------------------------------------------------
  // Objects keyed by text

  /** A plain object with text values: its members in insertion order. */
  type Obj = seq<(string, string)>

  /** `o[k]` */
  function Get(o: Obj, k: string): Option<string> {
    if o == [] then None else if o[0].0 == k then Some(o[0].1) else Get(o[1..], k)
  }

  /** `o[k] = v`: an existing member keeps its place, a new one goes last. */
  function Put(o: Obj, k: string, v: string): Obj {
    if o == [] then [(k, v)]
    else if o[0].0 == k then [(k, v)] + o[1..]
    else [o[0]] + Put(o[1..], k, v)
  }

  function Keys(o: Obj): set<string> {
    if o == [] then {} else {o[0].0} + Keys(o[1..])
  }

  /** No key occurs twice. */
  predicate UniqueKeys(o: Obj) {
    o == [] || (o[0].0 !in Keys(o[1..]) && UniqueKeys(o[1..]))
  }

  /** After `o[k] = v`, `o[k]` is `v` and every other member reads as before. */
  lemma {:induction false} PutGet(o: Obj, k: string, v: string, k': string)
    ensures Get(Put(o, k, v), k') == if k' == k then Some(v) else Get(o, k')
  {
    if o != [] && o[0].0 != k {
      PutGet(o[1..], k, v, k');
    }
  }

  /** The assignment adds `k` to the keys, never repeats a key, and puts a
      new key last. */
  lemma {:induction false} PutKeys(o: Obj, k: string, v: string)
    ensures Keys(Put(o, k, v)) == Keys(o) + {k}
    ensures UniqueKeys(o) ==> UniqueKeys(Put(o, k, v))
    ensures k in Keys(o) ==> |Put(o, k, v)| == |o|
    ensures k !in Keys(o) ==> Put(o, k, v) == o + [(k, v)]
  {
    if o != [] && o[0].0 != k {
      PutKeys(o[1..], k, v);
      assert [o[0]] + (o[1..] + [(k, v)]) == o + [(k, v)];
    }
  }

  /** The object that assigning each pair in turn to `{}` builds. */
  function Assign(pairs: Obj): Obj {
    if pairs == [] then []
    else
      var last := pairs[|pairs| - 1];
      Put(Assign(pairs[..|pairs| - 1]), last.0, last.1)
  }

  /** Assigning one more pair extends the object built so far. */
  lemma AssignPrefix(pairs: Obj, i: nat)
    requires i < |pairs|
    ensures Assign(pairs[..i + 1]) == Put(Assign(pairs[..i]), pairs[i].0, pairs[i].1)
  {
    assert pairs[..i + 1][..i] == pairs[..i];
  }

  /** The value of the last pair with key `k`, if any. */
  function LastValue(pairs: Obj, k: string): (r: Option<string>)
    ensures r.None? <==> forall i :: 0 <= i < |pairs| ==> pairs[i].0 != k
    ensures r.Some? ==> exists i :: 0 <= i < |pairs| && pairs[i] == (k, r.value)
                                    && forall j :: i < j < |pairs| ==> pairs[j].0 != k
  {
    if pairs == [] then None
    else if pairs[|pairs| - 1].0 == k then Some(pairs[|pairs| - 1].1)
    else LastValue(pairs[..|pairs| - 1], k)
  }

  /** Assigning the pairs gives an object with no repeated key in which each
      key holds the value of its last pair: a later assignment overrides. */
  lemma {:induction false} AssignMembers(pairs: Obj, k: string)
    ensures UniqueKeys(Assign(pairs))
    ensures Get(Assign(pairs), k) == LastValue(pairs, k)
  {
    if pairs != [] {
      var last := pairs[|pairs| - 1];
      AssignMembers(pairs[..|pairs| - 1], k);
      PutKeys(Assign(pairs[..|pairs| - 1]), last.0, last.1);
      PutGet(Assign(pairs[..|pairs| - 1]), last.0, last.1, k);
    }
  }

  // ---------------------------------------------------------------------------
  // Data rows

  /** The header cells as keys: normalised, white space turned into `_`. */
  function HeaderKeys(row: Row): (keys: seq<string>)
    ensures |keys| == |row|
  {
    if row == [] then [] else [Underscored(NormalizeCell(row[0]))] + HeaderKeys(row[1..])
  }

  /** `headerRow[c] || \`col_${c}\`` */
  function ColumnKey(header: seq<string>, c: nat): string
    requires c < |header|
  {
    if header[c] != "" then header[c] else "col_" + NatText(c)
  }

  /** `(row[c] ?? '').toString()`: a cell past the end of the row is
      undefined and reads as `''`. */
  function CellText(row: Row, c: nat): string {
    if c < |row| then CellString(row[c]) else ""
  }

  /** A row skipped as empty: every cell is `''`, null or undefined. */
  predicate BlankRow(row: Row) {
    forall c :: 0 <= c < |row| ==> !Filled(row[c])
  }

  /** The assignments the loop over the header makes for one row. */
  function ColumnPairs(header: seq<string>, row: Row): (pairs: Obj)
    ensures |pairs| == |header|
    ensures forall c :: 0 <= c < |header| ==> pairs[c] == (ColumnKey(header, c), CellText(row, c))
  {
    seq(|header|, c requires 0 <= c < |header| => (ColumnKey(header, c), CellText(row, c)))
  }

  /** The object of one data row. */
  function RowObject(header: seq<string>, row: Row): Obj {
    Assign(ColumnPairs(header, row))
  }

  /** The object of a row has no repeated key, and each key holds the text
      of the last column whose header gives that key; keys of no column are
      absent. */
  lemma RowObjectMembers(header: seq<string>, row: Row, k: string)
    ensures UniqueKeys(RowObject(header, row))
    ensures (forall c :: 0 <= c < |header| ==> ColumnKey(header, c) != k) ==> Get(RowObject(header, row), k) == None
    ensures forall c :: 0 <= c < |header| && ColumnKey(header, c) == k
                        && (forall d :: c < d < |header| ==> ColumnKey(header, d) != k) ==>
                        Get(RowObject(header, row), k) == Some(CellText(row, c))
  {
    var pairs := ColumnPairs(header, row);
    AssignMembers(pairs, k);
    forall c | 0 <= c < |header| && ColumnKey(header, c) == k
                && (forall d :: c < d < |header| ==> ColumnKey(header, d) != k)
      ensures Get(RowObject(header, row), k) == Some(CellText(row, c))
    {
      assert pairs[c].0 == k;
      var v := LastValue(pairs, k).value;
      var i :| 0 <= i < |pairs| && pairs[i] == (k, v) && forall j :: i < j < |pairs| ==> pairs[j].0 != k;
      assert i == c;
    }
  }

  /** The objects of the non-blank rows among `rest`, in order. */
  function DataRows(header: seq<string>, rest: seq<Row>): seq<Obj> {
    if rest == [] then []
    else
      var last := rest[|rest| - 1];
      DataRows(header, rest[..|rest| - 1]) + (if BlankRow(last) then [] else [RowObject(header, last)])
  }

  /** The rows of `rest` that are not blank, in order. */
  function NonBlank(rest: seq<Row>): (r: seq<Row>)
    ensures |r| <= |rest|
    ensures forall x :: x in r <==> x in rest && !BlankRow(x)
  {
    if rest == [] then []
    else NonBlank(rest[..|rest| - 1]) + (if BlankRow(rest[|rest| - 1]) then [] else [rest[|rest| - 1]])
  }

  /** Each data row is the object of one non-blank row, in sheet order, and
      there is one per non-blank row. */
  lemma {:induction false} DataRowsAreNonBlankRows(header: seq<string>, rest: seq<Row>)
    ensures |DataRows(header, rest)| == |NonBlank(rest)|
    ensures forall i :: 0 <= i < |NonBlank(rest)| ==> DataRows(header, rest)[i] == RowObject(header, NonBlank(rest)[i])
  {
    if rest != [] {
      DataRowsAreNonBlankRows(header, rest[..|rest| - 1]);
    }
  }

  /** One row's object, built column by column. */
  method BuildRowObject(headerRow: seq<string>, row: Row) returns (obj: Obj)
    ensures obj == RowObject(headerRow, row)
  {
    ghost var pairs := ColumnPairs(headerRow, row);
    obj := [];
    var c := 0;
    while c < |headerRow|
      invariant 0 <= c <= |headerRow|
      invariant obj == Assign(pairs[..c])
    {
      var key := if headerRow[c] != "" then headerRow[c] else "col_" + NatText(c);
      assert pairs[..c + 1][..c] == pairs[..c];
      obj := Put(obj, key, CellText(row, c));
      c := c + 1;
    }
    assert pairs[..c] == pairs;
  }

  /** The loop that builds `dataRaw` from the rows below the header row,
      `headerRow` being the header's keys. */
  method BuildDataRows(rows: seq<Row>, headerRowIndex: nat, headerRow: seq<string>) returns (dataRaw: seq<Obj>)
    requires headerRowIndex < |rows|
    ensures dataRaw == DataRows(headerRow, rows[headerRowIndex + 1..])
  {
    dataRaw := [];
    var r := headerRowIndex + 1;
    while r < |rows|
      invariant headerRowIndex + 1 <= r <= |rows|
      invariant dataRaw == DataRows(headerRow, rows[headerRowIndex + 1..r])
    {
      var row := rows[r];
      assert rows[headerRowIndex + 1..r + 1][..r - headerRowIndex - 1] == rows[headerRowIndex + 1..r];
      if !BlankRow(row) {
        var obj := BuildRowObject(headerRow, row);
        dataRaw := dataRaw + [obj];
      }
      r := r + 1;
    }
    assert rows[headerRowIndex + 1..r] == rows[headerRowIndex + 1..];
  }

  // ---------------------------------------------------------------------------
  // Canonical keys

  /** `headerMap`: synonyms (as normalised keys) of the canonical column names. */
  const HeaderMap: map<string, string> := map[
    "identificacionusuario" := "IdentificacionUsuario",
    "identificacion" := "IdentificacionUsuario",
    "id" := "IdentificacionUsuario",
    "documento" := "IdentificacionUsuario",
    "numero" := "IdentificacionUsuario",
    "cedula" := "IdentificacionUsuario",
    "cedula_de_ciudadania" := "IdentificacionUsuario",
    "correo" := "Correo",
    "email" := "Correo",
    "e_mail" := "Correo",
    "correo_electronico" := "Correo",
    "correo_electronico_" := "Correo",
    "correo_electrónico" := "Correo",
    "nombre" := "Nombre",
    "nombres" := "Nombre",
    "apellido" := "Apellido",
    "apellidos" := "Apellido",
    "telefono" := "Telefono",
    "celular" := "Telefono",
    "tel" := "Telefono",
    "telefono_movil" := "Telefono",
    "contrasena" := "Contrasena",
    "contraseña" := "Contrasena",
    "password" := "Contrasena",
    "ficha" := "Ficha",
    "ficha_caracterizacion" := "Ficha",
    "ficha_de_caracterizacion" := "Ficha",
    "programa" := "ProgramaFormacion",
    "programa_formacion" := "ProgramaFormacion",
    "programa_de_formacion" := "ProgramaFormacion",
    "jornada" := "Jornada"]

  const CanonicalKeys: set<string> := {"IdentificacionUsuario", "Correo", "Nombre", "Apellido",
    "Telefono", "Contrasena", "Ficha", "ProgramaFormacion", "Jornada"}

  /** `s.replace(/_/g, t)` for a one-character or empty `t`. */
  function ReplaceUnderscores(s: string, t: string): string {
    if s == [] then [] else (if s[0] == '_' then t else [s[0]]) + ReplaceUnderscores(s[1..], t)
  }

  /** `headerMap[k]`, undefined (None) when `k` is no synonym. */
  function Lookup(k: string): Option<string> {
    if k in HeaderMap then Some(HeaderMap[k]) else None
  }

  /** The key a member of a raw row gets: the canonical name of the first of
      its three spellings (without `_`, as is, `_` as spaces) that is a
      synonym, else its own normalised spelling. */
  function TargetKey(origKey: string): string {
    var nk := Underscored(Normalize(origKey));
    var mapped :=
      if Lookup(ReplaceUnderscores(nk, "")).Some? then Lookup(ReplaceUnderscores(nk, ""))
      else if Lookup(nk).Some? then Lookup(nk)
      else Lookup(ReplaceUnderscores(nk, " "));
    if mapped.Some? then mapped.value else nk
  }

  /** Every key ends up either a canonical name or the normalised spelling
      of the original key; a synonym (as its spelling without `_`) always
      becomes its canonical name. */
  lemma TargetKeyIsCanonicalOrKept(origKey: string)
    ensures var nk := Underscored(Normalize(origKey));
            && (TargetKey(origKey) in CanonicalKeys || TargetKey(origKey) == nk)
            && (ReplaceUnderscores(nk, "") in HeaderMap ==>
                  TargetKey(origKey) == HeaderMap[ReplaceUnderscores(nk, "")])
            && ((Lookup(ReplaceUnderscores(nk, "")).None? && Lookup(nk).None?
                 && Lookup(ReplaceUnderscores(nk, " ")).None?) ==> TargetKey(origKey) == nk)
  {
    assert forall k :: k in HeaderMap ==> HeaderMap[k] in CanonicalKeys;
  }

  /** The row's members under their target keys, in the row's order. */
  function Retargeted(row: Obj): (pairs: Obj)
    ensures |pairs| == |row|
    ensures forall i :: 0 <= i < |row| ==> pairs[i] == (TargetKey(row[i].0), row[i].1)
  {
    seq(|row|, i requires 0 <= i < |row| => (TargetKey(row[i].0), row[i].1))
  }

  /** The `dataRaw.map(...)` step on one row: each member assigned under its
      target key. */
  function MapRow(row: Obj): Obj {
    Assign(Retargeted(row))
  }

  /** The mapped row has no repeated key; under each key it holds the value
      of the last raw member whose target that key is, and it has no key
      that is no member's target. */
  lemma MapRowMembers(row: Obj, t: string)
    ensures UniqueKeys(MapRow(row))
    ensures Get(MapRow(row), t) == LastValue(Retargeted(row), t)
  {
    AssignMembers(Retargeted(row), t);
  }

  /** The loop over `Object.keys(row)` that builds the mapped row. */
  method MapKeys(row: Obj) returns (nr: Obj)
    ensures nr == MapRow(row)
  {
    ghost var pairs := Retargeted(row);
    nr := [];
    var i := 0;
    while i < |row|
      invariant 0 <= i <= |row|
      invariant nr == Assign(pairs[..i])
    {
      AssignPrefix(pairs, i);
      nr := Put(nr, TargetKey(row[i].0), row[i].1);
      i := i + 1;
    }
    assert pairs[..i] == pairs;
  }

  /** `dataRaw.map(...)` */
  function MapAll(dataRaw: seq<Obj>): (data: seq<Obj>)
    ensures |data| == |dataRaw|
    ensures forall i :: 0 <= i < |dataRaw| ==> data[i] == MapRow(dataRaw[i])
  {
    seq(|dataRaw|, i requires 0 <= i < |dataRaw| => MapRow(dataRaw[i]))
  }

  method MapData(dataRaw: seq<Obj>) returns (data: seq<Obj>)
    ensures data == MapAll(dataRaw)
  {
    data := [];
    var i := 0;
    while i < |dataRaw|
      invariant 0 <= i <= |dataRaw|
      invariant |data| == i && forall k :: 0 <= k < i ==> data[k] == MapRow(dataRaw[k])
    {
      var nr := MapKeys(dataRaw[i]);
      data := data + [nr];
      i := i + 1;
    }
  }

  // ---------------------------------------------------------------------------
  // Importing the rows

  /** The values read from a mapped row. */
  datatype Fields = Fields(
    identificacion: string, nombre: string, apellido: string, correo: string,
    telefono: string, contrasena: string, ficha: string, programaFormacion: string,
    jornada: string)

  /** `row[k1] ?? row[k2] ?? ... ?? ''` */
  function FirstPresent(row: Obj, keys: seq<string>): string {
    if keys == [] then ""
    else match Get(row, keys[0])
      case Some(v) => v
      case None => FirstPresent(row, keys[1..])
  }

  /** `a ?? b ?? …`: the value of the first spelling the row has, whatever
      the later ones hold. */
  lemma {:induction false} FirstPresentIsFirst(row: Obj, keys: seq<string>, i: nat)
    requires i < |keys| && Get(row, keys[i]).Some?
    requires forall j :: 0 <= j < i ==> Get(row, keys[j]).None?
    ensures FirstPresent(row, keys) == Get(row, keys[i]).value
  {
    if i > 0 {
      assert forall j :: 0 <= j < i - 1 ==> keys[1..][j] == keys[j + 1];
      FirstPresentIsFirst(row, keys[1..], i - 1);
    }
  }

  /** `… ?? ''`: a row with none of the spellings gives the empty text. */
  lemma {:induction false} FirstPresentAbsent(row: Obj, keys: seq<string>)
    requires forall j :: 0 <= j < |keys| ==> Get(row, keys[j]).None?
    ensures FirstPresent(row, keys) == ""
  {
    if keys != [] {
      assert forall j :: 0 <= j < |keys| - 1 ==> keys[1..][j] == keys[j + 1];
      FirstPresentAbsent(row, keys[1..]);
    }
  }

  /** The spellings the identification and the e-mail are read from, in the
      order of the `??` chain. */
  const IdentificacionKeys := ["IdentificacionUsuario", "identificacion", "id", "documento"]
  const CorreoKeys := ["Correo", "email", "correo"]

  /** The fields of a row, all trimmed, the e-mail also lower-cased (the
      password is trimmed where it is chosen, which comes to the same). */
  function Extract(row: Obj): Fields {
    Fields(
      Trim(FirstPresent(row, IdentificacionKeys)),
      Trim(FirstPresent(row, ["Nombre", "nombre", "Nombres"])),
      Trim(FirstPresent(row, ["Apellido", "apellidos"])),
      ToLower(Trim(FirstPresent(row, CorreoKeys))),
      Trim(FirstPresent(row, ["Telefono", "celular", "tel"])),
      Trim(FirstPresent(row, ["Contrasena", "password", "contraseña"])),
      Trim(FirstPresent(row, ["Ficha", "ficha", "ficha_de_caracterizacion"])),
      Trim(FirstPresent(row, ["ProgramaFormacion", "programa"])),
      Trim(FirstPresent(row, ["Jornada", "jornada"])))
  }

  /** The identification of a row comes from `IdentificacionUsuario` when the
      row has it, and is empty when the row has none of its spellings. */
  lemma ExtractIdentificacion(row: Obj)
    ensures Get(row, "IdentificacionUsuario").Some? ==>
              Extract(row).identificacion == Trim(Get(row, "IdentificacionUsuario").value)
    ensures (forall j :: 0 <= j < |IdentificacionKeys| ==> Get(row, IdentificacionKeys[j]).None?) ==>
              Extract(row).identificacion == ""
  {
    var ids := IdentificacionKeys;
    if Get(row, ids[0]).Some? {
      FirstPresentIsFirst(row, ids, 0);
    } else if forall j :: 0 <= j < |ids| ==> Get(row, ids[j]).None? {
      FirstPresentAbsent(row, ids);
      assert Trim("") == "";
    }
  }

  /** The e-mail of a row comes from `Correo`, lower-cased, when the row has
      it, and is empty when the row has none of its spellings. */
  lemma ExtractCorreo(row: Obj)
    ensures Get(row, "Correo").Some? ==> Extract(row).correo == ToLower(Trim(Get(row, "Correo").value))
    ensures (forall j :: 0 <= j < |CorreoKeys| ==> Get(row, CorreoKeys[j]).None?) ==>
              Extract(row).correo == ""
  {
    var correos := CorreoKeys;
    if Get(row, correos[0]).Some? {
      FirstPresentIsFirst(row, correos, 0);
    } else if forall j :: 0 <= j < |correos| ==> Get(row, correos[j]).None? {
      FirstPresentAbsent(row, correos);
      assert ToLower(Trim("")) == "";
    }
  }

  /** The password that is hashed, from the trimmed text: that text, or
      `123456` when it is empty. */
  function Password(trimmed: string): string {
    if trimmed != "" then trimmed else "123456"
  }

  /** The password chosen for a row's text is never empty, never starts or
      ends with white space, and is the trimmed text whenever that is not
      blank. */
  lemma PasswordTrimmed(raw: string)
    ensures var p := Password(Trim(raw));
            && p != "" && !IsWhiteSpace(p[0]) && !IsWhiteSpace(p[|p| - 1])
            && (Trim(raw) != "" ==> p == Trim(raw))
            && (Trim(raw) == "" ==> p == "123456")
  {
    TrimEnds(raw);
    if Trim(raw) == "" {
      var p := "123456";
      assert p[0] == '1' && p[|p| - 1] == '6';
    }
  }

  datatype Usuario = Usuario(
    idUsuario: nat, identificacion: string, nombre: string, apellido: string,
    correo: string, telefono: string,
    contrasena: string,   // the text given to the password hash
    idRol: int, confirmed: bool, token: string)

  datatype RolUsuario = RolUsuario(idRol: nat, idUsuario: nat, nombreRol: string)

  datatype Aprendiz = Aprendiz(idUsuario: nat, idRolUsuario: nat, ficha: string, programaFormacion: string, jornada: string)

  /** The user, role and apprentice tables. */
  datatype Tables = Tables(
    usuarios: map<nat, Usuario>, nextUsuario: nat,
    roles: map<nat, RolUsuario>, nextRol: nat,
    aprendices: seq<Aprendiz>)

  /** Where a row's processing throws: looking up the existing users,
      hashing the password, or one of the three creations. */
  datatype Stage = AtLookup | AtHash | AtUsuario | AtRol | AtAprendiz

  /** A thrown error and the step that throws it. `text` is what `String(err)`
      gives for it once its message is empty: the error's name, such as
      "TypeError". */
  datatype Failure = Failure(stage: Stage, message: string, text: string)

  datatype Outcome = Missing | Existing | Failed(failure: Failure) | Created

  /** Some user already has the row's (non-empty) e-mail or identification. */
  predicate Registered(usuarios: map<nat, Usuario>, f: Fields) {
    exists id | id in usuarios ::
      (f.correo != "" && usuarios[id].correo == f.correo)
      || (f.identificacion != "" && usuarios[id].identificacion == f.identificacion)
  }

  /** What becomes of a row: skipped for lack of both e-mail and
      identification, failed at a lookup, skipped as existing, failed at a
      later step, or created. */
  function Classify(usuarios: map<nat, Usuario>, f: Fields, failure: Option<Failure>): Outcome {
    if f.correo == "" && f.identificacion == "" then Missing
    else if failure.Some? && failure.value.stage == AtLookup then Failed(failure.value)
    else if Registered(usuarios, f) then Existing
    else if failure.Some? then Failed(failure.value)
    else Created
  }

  /** The user created for a row, with the password that is hashed. */
  function NewUsuario(id: nat, f: Fields, contrasena: string): Usuario {
    Usuario(id, f.identificacion, f.nombre, f.apellido, f.correo, f.telefono, contrasena, 2, true, "")
  }

  /** The row reaches the user creation and that creation does not throw. */
  predicate AddsUser(o: Outcome) {
    o.Created? || (o.Failed? && (o.failure.stage == AtRol || o.failure.stage == AtAprendiz))
  }

  /** The row reaches the role creation and that creation does not throw. */
  predicate AddsRole(o: Outcome) {
    o.Created? || (o.Failed? && o.failure.stage == AtAprendiz)
  }

  /** The tables after a row that came to `o`, its password being
      `contrasena`: the creations made before the failing step (all three
      when none fails). */
  function Effect(t: Tables, f: Fields, contrasena: string, o: Outcome): Tables {
    Tables(
      if AddsUser(o) then t.usuarios[t.nextUsuario := NewUsuario(t.nextUsuario, f, contrasena)] else t.usuarios,
      if AddsUser(o) then t.nextUsuario + 1 else t.nextUsuario,
      if AddsRole(o) then t.roles[t.nextRol := RolUsuario(t.nextRol, t.nextUsuario, "Aprendiz")] else t.roles,
      if AddsRole(o) then t.nextRol + 1 else t.nextRol,
      if o.Created? then t.aprendices + [Aprendiz(t.nextUsuario, t.nextRol, f.ficha, f.programaFormacion, f.jornada)]
      else t.aprendices)
  }

  /** The tables after a row with fields `f`. */
  function StepTables(t: Tables, f: Fields, failure: Option<Failure>): Tables {
    Effect(t, f, Password(f.contrasena), Classify(t.usuarios, f, failure))
  }

  datatype Status = Inserted | Skipped | Error

  datatype Processed = Processed(
    identificacion: string, correo: string, nombre: string, apellido: string,
    status: Status, motivo: string)

  datatype RowError = RowError(row: nat, reason: string)

  datatype Report = Report(
    total: nat, inserted: nat, skippedExisting: nat, skippedMissing: nat,
    errors: seq<RowError>, processed: seq<Processed>)

  const MotivoMissing := "Falta correo e identificación"
  const MotivoExisting := "Ya existe usuario con ese correo o identificación"

  /** `(data[i]?.k ?? '').toString()` */
  function RawField(row: Obj, k: string): string {
    Get(row, k).GetOr("")
  }

  /** The report after row `i`, of fields `f`, has come to `o`. */
  function Record(rep: Report, i: nat, row: Obj, f: Fields, o: Outcome): Report {
    match o
    case Missing =>
      rep.(skippedMissing := rep.skippedMissing + 1,
           processed := rep.processed + [Processed(f.identificacion, f.correo, f.nombre, f.apellido, Skipped, MotivoMissing)])
    case Existing =>
      rep.(skippedExisting := rep.skippedExisting + 1,
           processed := rep.processed + [Processed(f.identificacion, f.correo, f.nombre, f.apellido, Skipped, MotivoExisting)])
    case Created =>
      rep.(inserted := rep.inserted + 1,
           processed := rep.processed + [Processed(f.identificacion, f.correo, f.nombre, f.apellido, Inserted, "Insertado")])
    case Failed(e) =>
      rep.(errors := rep.errors + [RowError(i + 1, if e.message != "" then e.message else e.text)],
           processed := rep.processed + [Processed(
             RawField(row, "IdentificacionUsuario"), RawField(row, "Correo"),
             RawField(row, "Nombre"), RawField(row, "Apellido"),
             Error, if e.message != "" then e.message else "Error procesando fila")])
  }

  /** A mapped row together with the fields read from it. */
  datatype SheetRow = SheetRow(raw: Obj, fields: Fields)

  function Sheet(data: seq<Obj>): (rows: seq<SheetRow>)
    ensures |rows| == |data|
    ensures forall i :: 0 <= i < |data| ==> rows[i] == SheetRow(data[i], Extract(data[i]))
  {
    seq(|data|, i requires 0 <= i < |data| => SheetRow(data[i], Extract(data[i])))
  }

  /** One pass of the loop body over row `i`. */
  function Step(t: Tables, rep: Report, i: nat, row: SheetRow, failure: Option<Failure>): (Tables, Report) {
    (StepTables(t, row.fields, failure), Record(rep, i, row.raw, row.fields, Classify(t.usuarios, row.fields, failure)))
  }

  function FailureAt(failures: map<nat, Failure>, i: nat): Option<Failure> {
    if i in failures then Some(failures[i]) else None
  }

  /** The tables and the report after the first `n` rows, `failures` saying
      which rows throw and where. */
  function Run(t: Tables, data: seq<SheetRow>, failures: map<nat, Failure>, n: nat): (Tables, Report)
    requires n <= |data|
  {
    if n == 0 then (t, Report(|data|, 0, 0, 0, [], []))
    else
      var prev := Run(t, data, failures, n - 1);
      Step(prev.0, prev.1, n - 1, data[n - 1], FailureAt(failures, n - 1))
  }

  /** Every row adds one `processed` entry and counts once: the counters and
      the errors add up to the rows processed, and `total` is the number of
      data rows. */
  lemma {:induction false} RunCounts(t: Tables, data: seq<SheetRow>, failures: map<nat, Failure>, n: nat)
    requires n <= |data|
    ensures var rep := Run(t, data, failures, n).1;
            && rep.total == |data|
            && |rep.processed| == n
            && rep.inserted + rep.skippedExisting + rep.skippedMissing + |rep.errors| == n
  {
    if n > 0 {
      RunCounts(t, data, failures, n - 1);
    }
  }

  /** A row adds at most one error, exactly when it failed; the error names row
      `i + 1` and gives the thrown message, or the error's text when the message
      is empty. */
  lemma RecordErrors(rep: Report, i: nat, row: Obj, f: Fields, o: Outcome)
    ensures var errs := Record(rep, i, row, f, o).errors;
            || errs == rep.errors
            || (errs[..|rep.errors|] == rep.errors && |errs| == |rep.errors| + 1 && errs[|rep.errors|].row == i + 1)
    ensures var errs := Record(rep, i, row, f, o).errors;
            && (o.Failed? <==> |errs| == |rep.errors| + 1)
            && (o.Failed? && o.failure.message != "" ==> errs[|rep.errors|].reason == o.failure.message)
            && (o.Failed? && o.failure.message == "" ==> errs[|rep.errors|].reason == o.failure.text)
  {
  }

  /** Error entries name rows counting from 1, at most `n`, in increasing
      order. */
  predicate ErrorRowsUpTo(errs: seq<RowError>, n: nat) {
    && (forall k :: 0 <= k < |errs| ==> 1 <= errs[k].row <= n)
    && (forall k, l :: 0 <= k < l < |errs| ==> errs[k].row < errs[l].row)
  }

  /** Appending nothing, or one error for row `n`, to the errors of the
      first `n - 1` rows keeps them in order. */
  lemma ErrorRowsStep(pe: seq<RowError>, errs: seq<RowError>, n: nat)
    requires n >= 1 && ErrorRowsUpTo(pe, n - 1)
    requires errs == pe || (|errs| == |pe| + 1 && errs[..|pe|] == pe && errs[|pe|].row == n)
    ensures ErrorRowsUpTo(errs, n)
  {
    if errs != pe {
      forall k, l | 0 <= k < l < |errs| ensures errs[k].row < errs[l].row {
        assert errs[k] == pe[k];
        if l < |pe| {
          assert errs[l] == pe[l];
        }
      }
      forall k | 0 <= k < |pe| ensures 1 <= errs[k].row <= n {
        assert errs[k] == pe[k];
      }
    }
  }

  /** Error entries name their rows counting from 1, in increasing order. */
  lemma {:induction false} RunErrorRows(t: Tables, data: seq<SheetRow>, failures: map<nat, Failure>, n: nat)
    requires n <= |data|
    ensures ErrorRowsUpTo(Run(t, data, failures, n).1.errors, n)
  {
    if n > 0 {
      var prev := Run(t, data, failures, n - 1);
      RunErrorRows(t, data, failures, n - 1);
      var row := data[n - 1];
      var o := Classify(prev.0.usuarios, row.fields, FailureAt(failures, n - 1));
      RecordErrors(prev.1, n - 1, row.raw, row.fields, o);
      ErrorRowsStep(prev.1.errors, Record(prev.1, n - 1, row.raw, row.fields, o).errors, n);
    }
  }

  /** A row skipped for lack of contact data, or as an existing user, writes
      nothing and is reported as skipped; a created row adds exactly one
      user (role 2, confirmed, with the row's fields and its password), one
      `Aprendiz` role for it and one apprentice record linking both. */
  lemma StepEffects(t: Tables, rep: Report, i: nat, row: SheetRow, failure: Option<Failure>)
    ensures var f := row.fields;
            var (t', rep') := Step(t, rep, i, row, failure);
            && (Classify(t.usuarios, f, failure) in {Missing, Existing} ==>
                  t' == t && rep'.processed[|rep.processed|].status == Skipped)
            && (Classify(t.usuarios, f, failure) == Created ==>
                  && t'.usuarios == t.usuarios[t.nextUsuario := t'.usuarios[t.nextUsuario]]
                  && t'.usuarios[t.nextUsuario].idRol == 2 && t'.usuarios[t.nextUsuario].confirmed
                  && t'.usuarios[t.nextUsuario].correo == f.correo
                  && t'.usuarios[t.nextUsuario].identificacion == f.identificacion
                  && t'.usuarios[t.nextUsuario].contrasena == Password(f.contrasena)
                  && t'.roles == t.roles[t.nextRol := RolUsuario(t.nextRol, t.nextUsuario, "Aprendiz")]
                  && t'.aprendices == t.aprendices + [Aprendiz(t.nextUsuario, t.nextRol, f.ficha, f.programaFormacion, f.jornada)]
                  && rep'.inserted == rep.inserted + 1)
  {
  }

  /** No two users share a non-empty e-mail or a non-empty identification. */
  ghost predicate ContactsUnique(usuarios: map<nat, Usuario>) {
    forall a, b :: a in usuarios && b in usuarios && a != b ==>
      (usuarios[a].correo == "" || usuarios[a].correo != usuarios[b].correo)
      && (usuarios[a].identificacion == "" || usuarios[a].identificacion != usuarios[b].identificacion)
  }

  /** The ids below the counters are the taken ones, and users are unique by
      contact data. */
  ghost predicate TablesValid(t: Tables) {
    && (forall id :: id in t.usuarios ==> id < t.nextUsuario && t.usuarios[id].idUsuario == id)
    && (forall id :: id in t.roles ==> id < t.nextRol)
    && ContactsUnique(t.usuarios)
  }

  /** A row adds at most one user, under the next id and only when no user
      has its contact data, and at most one role, under the next role id. */
  lemma StepTablesShape(t: Tables, f: Fields, failure: Option<Failure>)
    ensures var t' := StepTables(t, f, failure);
            && ((t'.usuarios == t.usuarios && t'.nextUsuario == t.nextUsuario)
                || (!Registered(t.usuarios, f) && t'.nextUsuario == t.nextUsuario + 1
                    && t'.usuarios == t.usuarios[t.nextUsuario := NewUsuario(t.nextUsuario, f, Password(f.contrasena))]))
            && ((t'.roles == t.roles && t'.nextRol == t.nextRol)
                || (t'.nextRol == t.nextRol + 1
                    && t'.roles == t.roles[t.nextRol := RolUsuario(t.nextRol, t.nextUsuario, "Aprendiz")]))
  {
  }

  /** Adding a user whose contact data no user has keeps users unique. */
  lemma AddUnregisteredKeepsUnique(usuarios: map<nat, Usuario>, id: nat, f: Fields, contrasena: string)
    requires ContactsUnique(usuarios) && id !in usuarios && !Registered(usuarios, f)
    ensures ContactsUnique(usuarios[id := NewUsuario(id, f, contrasena)])
  {
    var u := usuarios[id := NewUsuario(id, f, contrasena)];
    forall a, b | a in u && b in u && a != b
      ensures (u[a].correo == "" || u[a].correo != u[b].correo)
              && (u[a].identificacion == "" || u[a].identificacion != u[b].identificacion)
    {
      if a == id {
        assert b in usuarios;
      } else if b == id {
        assert a in usuarios;
      }
    }
  }

  /** A row only ever adds a user whose contact data no user has, under a
      fresh id, so the import keeps users unique by e-mail and by
      identification. */
  lemma StepKeepsValid(t: Tables, f: Fields, failure: Option<Failure>)
    requires TablesValid(t)
    ensures TablesValid(StepTables(t, f, failure))
  {
    StepTablesShape(t, f, failure);
    var t' := StepTables(t, f, failure);
    if t'.usuarios != t.usuarios {
      AddUnregisteredKeepsUnique(t.usuarios, t.nextUsuario, f, Password(f.contrasena));
    }
  }

  lemma {:induction false} RunKeepsValid(t: Tables, data: seq<SheetRow>, failures: map<nat, Failure>, n: nat)
    requires n <= |data| && TablesValid(t)
    ensures TablesValid(Run(t, data, failures, n).0)
  {
    if n > 0 {
      var prev := Run(t, data, failures, n - 1);
      RunKeepsValid(t, data, failures, n - 1);
      StepKeepsValid(prev.0, data[n - 1].fields, FailureAt(failures, n - 1));
    }
  }

  // ---------------------------------------------------------------------------
  // The tables and the handler

  /** The user, role and apprentice tables the import writes. */
  class UserDirectory {
    var usuarios: map<nat, Usuario>
    var nextUsuario: nat
    var roles: map<nat, RolUsuario>
    var nextRol: nat
    var aprendices: seq<Aprendiz>

    function Snapshot(): Tables
      reads this
    {
      Tables(usuarios, nextUsuario, roles, nextRol, aprendices)
    }

    /** Empty tables whose ids start at 1. */
    constructor ()
      ensures Snapshot() == Tables(map[], 1, map[], 1, [])
      ensures TablesValid(Snapshot())
    {
      usuarios, nextUsuario := map[], 1;
      roles, nextRol := map[], 1;
      aprendices := [];
    }

    /** The body of the loop for one row with fields `f`: skip it, or look up
        the existing users, hash the password and create the user, its role
        and the apprentice, stopping where `failure` says an error is
        thrown. */
    method ImportRow(f: Fields, failure: Option<Failure>) returns (outcome: Outcome)
      modifies this
      ensures outcome == Classify(old(usuarios), f, failure)
      ensures Snapshot() == Effect(old(Snapshot()), f, Password(f.contrasena), outcome)
    {
      if f.correo == "" && f.identificacion == "" {
        return Missing;
      }
      if failure.Some? && failure.value.stage == AtLookup {
        return Failed(failure.value);
      }
      var yaPorCorreo := f.correo != "" && exists id | id in usuarios :: usuarios[id].correo == f.correo;
      var yaPorId := f.identificacion != "" && exists id | id in usuarios :: usuarios[id].identificacion == f.identificacion;
      if yaPorCorreo || yaPorId {
        return Existing;
      }
      var contrasenaLimpia := Password(f.contrasena);
      outcome := CreateRecords(f, contrasenaLimpia, failure);
    }

    /** Hash the password `contrasena`, then create the user, its `Aprendiz`
        role and the apprentice record, stopping where `failure` says an
        error is thrown. */
    method CreateRecords(f: Fields, contrasena: string, failure: Option<Failure>) returns (outcome: Outcome)
      requires failure.None? || failure.value.stage != AtLookup
      modifies this
      ensures outcome == if failure.Some? then Failed(failure.value) else Created
      ensures Snapshot() == Effect(old(Snapshot()), f, contrasena, outcome)
    {
      if failure.Some? && failure.value.stage in {AtHash, AtUsuario} {
        return Failed(failure.value);
      }
      var idUsuario := nextUsuario;
      usuarios := usuarios[idUsuario := Usuario(idUsuario, f.identificacion, f.nombre, f.apellido,
                                                f.correo, f.telefono, contrasena, 2, true, "")];
      nextUsuario := nextUsuario + 1;
      if failure.Some? && failure.value.stage == AtRol {
        return Failed(failure.value);
      }
      var idRol := nextRol;
      roles := roles[idRol := RolUsuario(idRol, idUsuario, "Aprendiz")];
      nextRol := nextRol + 1;
      if failure.Some? {
        return Failed(failure.value);
      }
      aprendices := aprendices + [Aprendiz(idUsuario, idRol, f.ficha, f.programaFormacion, f.jornada)];
      outcome := Created;
    }

    /** The loop over the mapped rows, keeping the report. */
    method ImportRows(data: seq<Obj>, failures: map<nat, Failure>) returns (report: Report)
      modifies this
      ensures (Snapshot(), report) == Run(old(Snapshot()), Sheet(data), failures, |data|)
    {
      ghost var t0 := Snapshot();
      ghost var sheet := Sheet(data);
      report := Report(|data|, 0, 0, 0, [], []);
      var i := 0;
      while i < |data|
        invariant 0 <= i <= |data|
        invariant (Snapshot(), report) == Run(t0, sheet, failures, i)
      {
        report := ProcessRow(i, data[i], FailureAt(failures, i), report);
        i := i + 1;
      }
    }

    /** One iteration: read the row's fields, import it, report it. */
    method ProcessRow(i: nat, row: Obj, failure: Option<Failure>, report: Report) returns (report': Report)
      modifies this
      ensures (Snapshot(), report') == Step(old(Snapshot()), report, i, SheetRow(row, Extract(row)), failure)
    {
      var f := Extract(row);
      var outcome := ImportRow(f, failure);
      report' := Record(report, i, row, f, outcome);
    }

    /** `subirDesdeExcel` on the rows of the uploaded sheet (None when no
        file was uploaded). */
    method SubirDesdeExcel(file: Option<seq<Row>>, failures: map<nat, Failure>) returns (reply: ImportReply)
      modifies this
      ensures file.None? ==> reply == Rejected(400) && unchanged(this)
      ensures file == Some([]) ==> reply == Rejected(500) && unchanged(this)
      ensures file.Some? && file.value != [] ==>
                reply.Imported?
                && exists h :: 0 <= h < |file.value| && IsHeaderIndex(file.value, h)
                               && (Snapshot(), reply.report)
                                  == Run(old(Snapshot()), Sheet(ImportData(file.value, h)), failures,
                                         |ImportData(file.value, h)|)
    {
      if file.None? {
        return Rejected(400);
      }
      var rows := file.value;
      var headerRowIndex := DetectHeader(rows);
      if headerRowIndex >= |rows| {
        // `rawRows[headerRowIndex]` is undefined: `.map` throws.
        return Rejected(500);
      }
      var headerRow := HeaderKeys(rows[headerRowIndex]);
      var dataRaw := BuildDataRows(rows, headerRowIndex, headerRow);
      var data := MapData(dataRaw);
      var report := ImportRows(data, failures);
      reply := Imported(report);
    }
  }

  /** The mapped data rows of a sheet whose header is row `h`. */
  function ImportData(rows: seq<Row>, h: nat): seq<Obj>
    requires h < |rows|
  {
    MapAll(DataRows(HeaderKeys(rows[h]), rows[h + 1..]))
  }

  datatype ImportReply = Rejected(status: int) | Imported(report: Report)
}
