# Attendance, activities and catalog: a Dafny model

This project models the core of an events-and-activities backend: an Express
server whose controllers talk to a relational database through Sequelize. The
model covers these controllers:

- **QR attendance ledger** (`LudicaController.registrarAsistenciaDesdeQR`). An
  apprentice scans a QR code that carries the JSON text of an entry or exit
  payload. Per (activity, user) pair, the handler keeps at most one `Asistencia`
  row: the first scan creates it, an entry sets `QREntrada`, and an exit sets
  `QRSalida` together with the attended hours (rounded to hundredths). A
  repeated entry or exit is refused, and so is an exit on a row without an
  entry. Two reports are read off the same
  rows: the per-user lúdica hours and the interest summary per lúdica.
- **Activities** (`ActividadController`, `LudicaController.crearLudica`). The
  model covers required-field validation (an `isEmpty` that trims strings), the
  stored row, and the two QR payloads (entry and exit) whose text the scan
  handler decodes. It also covers the partial update of an activity.
- **Planning** (`PlanificacionEventoController`). A single plan is created
  together with its `GestionEvento` row. The bulk loop stops at the first
  incomplete event. The quarter query turns (year, quarter) into two ISO dates.
- **Spreadsheet import of apprentices** (`AprendizController.subirDesdeExcel`).
  It finds the header row among the first ten rows and builds one object per
  non-blank row. Header keys are normalised (accents stripped, separators
  collapsed, lower-cased) and mapped to canonical column names. Each row is then
  imported as a `Usuario`, a `RolUsuario` and an `Aprendiz`, with a per-row
  report of what happened.
- **Rental catalog** (`CatalogoAlquiler`, `ElementoController`). Item creation
  covers the field and image checks, the quantity `parseInt` (radix 10 in one
  controller, no radix in the other) and the item's QR payload. The model also
  covers the newest-first catalog listing, image replacement, and the two
  deletions.

The model is written in the source's own form. Pure request-to-row logic is
datatypes, functions and lemmas. Each controller's database tables are the
fields of a class (`AttendanceLedger`, `ActivityStore`, `PlanningStore`,
`UserDirectory`, `Inventory`), and each handler is a method that updates them.
Every method is specified against a function of the old state. The properties
are proved about those functions: the ledger invariant, the round trip of the
QR text, the import report's counts, and the catalog order.

Time is a parameter in integer milliseconds. Hours are integer hundredths of an
hour, which is what `parseFloat(h.toFixed(2))` keeps. The JSON text is the
compact form that `JSON.stringify` produces for flat objects with string and
non-negative integer members, and `JSON.parse` is modelled on that form. An
exit scanned with no prior record is modelled as the handler has it: it
creates an exit-only row with a null `AsiEstado`. That row can later take an
entry but can never be completed (`Attendance.BareExitNeverCompletes`). The
per-user hours report filters on `tipo: "Lúdica"`, but the scan handler stores
the payload's `tipo` ("entrada" on every completed row). The model therefore
proves that this report is 0 for every ledger the handler can produce
(`AttendanceReports.TotalHoursOfScans`).

Files: `wrappers.dfy` (Option/Result), `js_text.dfy` (JavaScript values,
truthiness, `trim`, `toLowerCase`, `parseInt`, decimal rendering),
`json_text.dfy` (`JSON.stringify`/`JSON.parse` of flat objects), `qr_token.dfy`
(scan payloads), `attendance.dfy`, `attendance_reports.dfy`, `actividades.dfy`,
`planificacion.dfy`, `aprendiz_import.dfy`, `inventario.dfy`.

## Model

| member | source | states |
|---|---|---|
| JsText.Field | src/controllers/CatalogoAlquiler.ts:41 | a request field is truthy exactly when it is present and not the empty string |
| JsText.Truthy | src/controllers/CatalogoAlquiler.ts:41 | ToBoolean: false exactly for undefined, null, "", 0, NaN and false |
| JsText.TrimStart | src/controllers/ActividadController.ts:89 | the result is a suffix of the input that does not start with white space |
| JsText.TrimEnd | src/controllers/ActividadController.ts:89 | the result is a prefix of the input that does not end with white space |
| JsText.TrimStartDrops | src/controllers/ActividadController.ts:89 | everything `trim` removes at the front is white space |
| JsText.TrimEndDrops | src/controllers/ActividadController.ts:89 | everything `trim` removes at the back is white space |
| JsText.Trim | src/controllers/ActividadController.ts:89 | `trim`: the text without its leading and trailing white space |
| JsText.TrimEnds | src/controllers/AprendizController.ts:198-206 | a trimmed string is empty, or begins and ends with a non-white-space character |
| JsText.IsEmptyIff | src/controllers/ActividadController.ts:88-91 | `isEmpty` holds exactly for undefined, null and all-white-space strings |
| JsText.IsEmpty | src/controllers/ActividadController.ts:88-91 | `isEmpty`: a string that trims to "", or undefined or null |
| JsText.ToLower | src/controllers/AprendizController.ts:201 | lower-casing keeps the length |
| JsText.DigitChar | src/controllers/CatalogoAlquiler.ts:46 | a digit value below ten is rendered as a decimal digit character |
| JsText.NatText | src/controllers/ElementoController.ts:84 | the decimal text of a number is non-empty, all digits, and has a leading zero only for 0 |
| JsText.NatTextValue | src/controllers/ElementoController.ts:84 | reading the decimal text of `n` back gives `n` |
| JsText.HexValue | src/controllers/ElementoController.ts:22 | a hexadecimal digit's value is below 16 |
| JsText.DigitRun | src/controllers/CatalogoAlquiler.ts:46 | the run of digits `parseInt` reads never exceeds the text |
| JsText.DigitRunIsLongest | src/controllers/CatalogoAlquiler.ts:46 | `parseInt` reads the longest prefix of digits: every character in it is a digit and the next one is not |
| JsText.LeadingDigits | src/controllers/CatalogoAlquiler.ts:46 | `parseInt` of digits followed by a non-digit gives the value of the digits and ignores the rest |
| JsText.ParseIntNegative | src/controllers/ActividadController.ts:122 | a leading minus sign negates the parsed value |
| JsText.NoLeadingDigit | src/controllers/ActividadController.ts:119 | text starting with a character that is not a sign, a digit or white space parses to NaN |
| JsText.IntTextRoundTrip | src/controllers/CatalogoAlquiler.ts:46 | `parseInt` of an integer's decimal text gives the integer back, with or without radix 10 |
| JsText.HexPrefix | src/controllers/ElementoController.ts:22 | `parseInt("0x…")` reads hexadecimal without a radix, and reads 0 with radix 10 |
| JsText.ParseInt | src/controllers/CatalogoAlquiler.ts:46 | `parseInt` with radix 10 or none: leading white space skipped, an optional sign, then the longest run of digits (hexadecimal after "0x" without radix); NaN when no digit follows |
| JsonText.HexChar | src/controllers/LudicaController.ts:83-84 | the hexadecimal digit written in a `\u` escape reads back as the same value |
| JsonText.EscapeChar | src/controllers/ActividadController.ts:143-144 | how `JSON.stringify` writes one character: `\"`, `\\`, the short escapes `\b \t \n \f \r`, `\u00XX` for the other control characters, and any other character as itself |
| JsonText.Stringify | src/controllers/ActividadController.ts:143-144 | `JSON.stringify` of a flat object: `{"key":value,…}` with no spaces, members in insertion order |
| JsonText.Parse | src/controllers/LudicaController.ts:224 | `JSON.parse` of a compact flat object: its members in text order; no result for any other text |
| JsonText.Unescape | src/controllers/LudicaController.ts:224 | decoding one escape sequence consumes input |
| JsonText.ParseStringBody | src/controllers/LudicaController.ts:224 | reading a string literal consumes input |
| JsonText.ParseNat | src/controllers/LudicaController.ts:224 | reading a number consumes input |
| JsonText.ParseValue | src/controllers/LudicaController.ts:224 | reading a member value consumes input |
| JsonText.ParseMember | src/controllers/LudicaController.ts:224 | reading a key/value member consumes input |
| JsonText.ParseMembers | src/controllers/LudicaController.ts:224 | reading a member list consumes input |
| JsonText.EscapeRoundTrip | src/controllers/ActividadController.ts:143-144 | every string escaped by `JSON.stringify` is read back unchanged by `JSON.parse`, and the text after its closing quote is left intact |
| JsonText.ParseNatText | src/controllers/ActividadController.ts:143-144 | a number written by `JSON.stringify` is read back unchanged |
| JsonText.ParseValueText | src/controllers/ActividadController.ts:143-144 | a string or number member value is read back unchanged before `,` or `}` |
| JsonText.ParseMemberText | src/controllers/ActividadController.ts:143-144 | a `"key":value` member is read back unchanged before `,` or `}` |
| JsonText.ParseMembersText | src/controllers/ActividadController.ts:143-144 | a non-empty member list is read back unchanged up to its closing brace |
| JsonText.ParseStringify | src/controllers/LudicaController.ts:224 | `JSON.parse(JSON.stringify(o))` gives back the same members in the same order |
| QrToken.DecodeStringify | src/controllers/LudicaController.ts:224-236 | the scan handler reads `IdActividad`, `tipo` and the two labels of any stringified object as its members' values |
| QrToken.MemberValues | src/controllers/ActividadController.ts:130-141 | each of a payload's four members holds that payload's field |
| QrToken.Encode | src/controllers/ActividadController.ts:130-144 | the code text is `JSON.stringify` of the payload's four members in the order the object literal writes them |
| QrToken.Decode | src/controllers/LudicaController.ts:224-236 | `JSON.parse` of the code, then `IdActividad`, `tipo`, `nombreActividad` and `nombreEvento` read off it (a later duplicate member wins, a missing one is undefined); no result when the text does not parse |
| QrToken.DecodeEncode | src/controllers/LudicaController.ts:224 | decoding an encoded payload gives back its activity id, direction and labels |
| QrToken.EventLabel | src/controllers/ActividadController.ts:134 | the event label is the event's name when it is non-empty, and "Evento sin nombre" otherwise |
| QrToken.ActivityPayloads | src/controllers/ActividadController.ts:130-141 | the entry and exit payloads of an activity differ only in `tipo` and carry the activity id, its name and the event label |
| QrToken.LudicaPayloads | src/controllers/LudicaController.ts:69-80 | the lúdica payloads differ only in `tipo` and carry the fixed context label |
| QrToken.EntryAndExitCodes | src/controllers/ActividadController.ts:130-144 | the two codes decode to the same activity, one as entry and one as exit, and are different texts |
| Attendance.Hundredths | src/controllers/LudicaController.ts:281-285 | the elapsed milliseconds become hours rounded to the nearest hundredth, halves away from zero |
| Attendance.FirstRecord | src/controllers/LudicaController.ts:243-255 | the first scan's row: an entry sets `QREntrada`, its registrar and the state "Incompleta"; any other `tipo` sets `QRSalida`, its registrar and a null state; `tipo` is the payload's, hours 0 |
| Attendance.Update | src/controllers/LudicaController.ts:263-289 | a later scan: a second entry, a second exit, or an exit before any entry is refused; an entry sets its time and registrar; an exit sets its time and registrar, the state "Completa" and `Hundredths(exit − entry)` hours |
| Attendance.HundredthsExamples | src/controllers/LudicaController.ts:283-285 | 5 400 000 ms is 1.50 hours; 1 799 ms rounds to 0.00 and 18 000 ms to 0.01 |
| Attendance.Scan | src/controllers/LudicaController.ts:214-294 | a rejected scan leaves the ledger alone; an accepted one needs a user, a parsed code and an existing activity, and writes only that pair's row |
| Attendance.ScanKeepsValid | src/controllers/LudicaController.ts:243-289 | every scan keeps the ledger invariant: a completed row has an entry, an exit and hours of `Hundredths(exit − entry)`; an incomplete row has only an entry |
| Attendance.ScanFrame | src/controllers/LudicaController.ts:239-289 | a scan adds at most one row and changes no other pair's row |
| Attendance.NeverOverwritten | src/controllers/LudicaController.ts:263-286 | a recorded entry or exit time is never overwritten, `tipo` and `AsiFecha` never change, and a completed row never changes |
| Attendance.GuardsReject | src/controllers/LudicaController.ts:216-234 | no user gives 401, unreadable QR text gives 400, and an unknown activity gives 404; each leaves the ledger unchanged |
| Attendance.FirstScanCreates | src/controllers/LudicaController.ts:236-255 | the first scan of a pair creates its row: an entry makes it incomplete with the entry time, and an exit makes an exit-only row with a null state |
| Attendance.DuplicateEntryRejected | src/controllers/LudicaController.ts:263-267 | a second entry is refused and nothing changes |
| Attendance.DuplicateExitRejected | src/controllers/LudicaController.ts:270-274 | a second exit is refused and nothing changes |
| Attendance.ExitWithoutEntryRejected | src/controllers/LudicaController.ts:275-278 | an exit on a row without an entry is refused and nothing changes |
| Attendance.AcceptedExit | src/controllers/LudicaController.ts:279-286 | an exit after an entry completes the row with the exit time, the scanner and the rounded hours between the two times |
| Attendance.LateEntryAfterBareExit | src/controllers/LudicaController.ts:263-269 | an entry on an exit-only row sets the entry but leaves the state null |
| Attendance.EntryIsIdempotent | src/controllers/LudicaController.ts:263-267 | after an accepted entry, the same entry scanned again is refused and the ledger is unchanged |
| Attendance.CompletedIsFinal | src/controllers/LudicaController.ts:263-278 | once a pair is complete, every later scan for it is refused and the ledger stays as it was |
| Attendance.BareExitNeverCompletes | src/controllers/LudicaController.ts:243-286 | a row created by a bare exit keeps its null state whatever is scanned next |
| Attendance.Scenario | src/controllers/LudicaController.ts:236-289 | entry at 10:00 then exit at 11:30 completes with 1.50 hours; a repeated exit is refused and leaves the ledger unchanged |
| Attendance.AttendanceLedger.constructor | src/controllers/LudicaController.ts:239-241 | the ledger starts empty |
| Attendance.AttendanceLedger.RegisterScan | src/controllers/LudicaController.ts:214-294 | the handler's outcome and new table are those of `Scan` on the old table, and the ledger invariant is kept |
| AttendanceReports.Filter | src/controllers/LudicaController.ts:299-301 | a `where` selects exactly the rows that satisfy it |
| AttendanceReports.CountIsSum | src/controllers/LudicaController.ts:322-327 | a `count` equals the sum of a 0/1 indicator over all rows |
| AttendanceReports.SumOfFilter | src/controllers/LudicaController.ts:328-330 | a `sum` under a `where` equals the sum over all rows of the masked column |
| AttendanceReports.InterestSummary | src/controllers/LudicaController.ts:313-345 | one summary per lúdica, in the order the activities are listed: the i-th summary is `ResumenOf` the i-th activity with `TipoLudica` set |
| AttendanceReports.Ludicas | src/controllers/LudicaController.ts:315-318 | `findAll` with `TipoLudica` not null: the activities kept are exactly those with `TipoLudica` set, never more than listed |
| AttendanceReports.SummaryCoversLudicas | src/controllers/LudicaController.ts:320-336 | every lúdica in the list has its summary among the results |
| AttendanceReports.ResumenOf | src/controllers/LudicaController.ts:321-336 | one lúdica's summary: its name, the count of its rows with an entry, the count of its completed rows, and the sum of their hours (no row gives 0) |
| AttendanceReports.TotalHours | src/controllers/LudicaController.ts:296-306 | the sum of `AsiHorasAsistidas` over the user's rows whose `tipo` is "Lúdica" and whose state is "Completa" |
| AttendanceReports.TotalHoursWhenNone | src/controllers/LudicaController.ts:302-306 | the total is 0 when no row passes the filter |
| AttendanceReports.TotalHoursOfScans | src/controllers/LudicaController.ts:248 | on rows written by the scan handler, the per-user "Lúdica" total is always 0 |
| AttendanceReports.CompletasAtMostEntradas | src/controllers/LudicaController.ts:322-327 | an activity never has more completed attendances than entries |
| AttendanceReports.NoCompletedNoHours | src/controllers/LudicaController.ts:328-335 | with no completed attendance, the summary's hours are 0 |
| AttendanceReports.SaveRowAppends | src/controllers/LudicaController.ts:244-255 | saving a row for a new pair appends it to the table |
| AttendanceReports.SaveRowReplaces | src/controllers/LudicaController.ts:289 | saving a row for a stored pair replaces that row in place |
| AttendanceReports.RowForFirst | src/controllers/LudicaController.ts:239-241 | `findOne` returns the first row of the pair |
| AttendanceReports.RowForAbsent | src/controllers/LudicaController.ts:239-241 | `findOne` returns null when no row has the pair |
| AttendanceReports.RowForStored | src/controllers/LudicaController.ts:239-241 | on a table holding the ledger, `findOne` returns the ledger's row for the pair |
| AttendanceReports.SumOfSave | src/controllers/LudicaController.ts:289 | a save moves a sum by the new row's term minus the replaced row's term |
| AttendanceReports.SaveRowStores | src/controllers/LudicaController.ts:243-289 | saving keeps the table in step with the ledger: one row per pair, holding the ledger's record |
| AttendanceReports.StoredRowsWellFormed | src/controllers/LudicaController.ts:239-289 | the rows of a valid ledger all satisfy the ledger invariant |
| AttendanceReports.SaveMovesEntradas | src/controllers/LudicaController.ts:322-324 | a save moves an activity's entry count by the new row's indicator minus the replaced row's |
| AttendanceReports.SaveMovesCompletas | src/controllers/LudicaController.ts:325-327 | a save moves an activity's completion count by the new row's indicator minus the replaced row's |
| AttendanceReports.SaveMovesHoras | src/controllers/LudicaController.ts:328-330 | a save moves an activity's hour total by the new row's hours minus the replaced row's |
| AttendanceReports.ScanTerms | src/controllers/LudicaController.ts:243-289 | an accepted scan stores its record; against the row it replaces, it adds one entry exactly when it is an entry, and one completion and its hours exactly when it completes |
| AttendanceReports.ScanMovesSummary | src/controllers/LudicaController.ts:320-336 | after any scan the table stays in step with the ledger; an accepted entry adds one to the activity's entries, a completing exit adds one to its completions and its hours to its total, and nothing else moves any count |
| AttendanceReports.ScanKeepsTotalHours | src/controllers/LudicaController.ts:296-306 | no scan moves a user's lúdica-hours total away from 0 |
| Activities.BlankIff | src/controllers/ActividadController.ts:88-91 | a field is blank exactly when it is missing or all white space |
| Activities.AnyBlankIff | src/controllers/ActividadController.ts:93-103 | the required-field check fails exactly when some required field is blank |
| Activities.ActividadFieldsPresent | src/controllers/ActividadController.ts:93-103 | passing the activity check means name, dates, times and place are present |
| Activities.LudicaFieldsPresent | src/controllers/LudicaController.ts:32-43 | passing the lúdica check also means `TipoLudica` is present and not blank |
| Activities.ValidateIff | src/controllers/ActividadController.ts:93-108 | validation passes exactly when no required field is blank and an image was uploaded; otherwise it names which check failed |
| Activities.Validate | src/controllers/ActividadController.ts:93-108 | the fields are checked first (`Faltan campos requeridos`), then the image (`Debes subir una imagen`); no error otherwise |
| Activities.TipoLudicaOnlyForLudica | src/controllers/LudicaController.ts:32-43 | a form without `TipoLudica` passes as an activity but is refused as a lúdica |
| Activities.OrNull | src/controllers/ActividadController.ts:113 | `x \|\| null` keeps a non-empty string and turns an absent or empty one into null |
| Activities.ParseIntField | src/controllers/ActividadController.ts:122 | the stored number is `parseInt` of the field, NaN when it is absent or has no leading number |
| Activities.StoredIdEvento | src/controllers/ActividadController.ts:119 | an empty or missing `IdEvento` is stored as null, any other as its `parseInt` |
| Activities.StoredIdEventoLeadingDigits | src/controllers/ActividadController.ts:119 | an `IdEvento` starting with digits is stored as their value, whatever follows |
| Activities.StoredIdEventoNoDigits | src/controllers/ActividadController.ts:119 | a non-numeric `IdEvento` is stored as NaN, an empty or missing one as null |
| Activities.EventName | src/controllers/ActividadController.ts:125-127 | an event name is found only when the stored `IdEvento` is a number naming an existing event |
| Activities.NewActividad | src/controllers/ActividadController.ts:111-123 | the created activity row carries the form's fields, the image URL, and the stored `IdEvento` and `IdUsuario` |
| Activities.NewLudica | src/controllers/LudicaController.ts:54-66 | the created lúdica row has a non-blank `TipoLudica`, no event, and `HorarioContinuo` true exactly when the form says "true" |
| Activities.Merge | src/controllers/ActividadController.ts:204-207 | every column the body names takes the body's text, `IdEvento`, `IdUsuario` and both QR codes included (`HorarioContinuo` is true exactly for "true"); every other column and the activity id stay; the image is the new upload, or the old image when nothing was uploaded |
| Activities.NoColumnNamedKeepsRow | src/controllers/ActividadController.ts:204-207 | an update whose body names no column of the table and that uploads nothing leaves the row as it was |
| Activities.MergeIdempotent | src/controllers/ActividadController.ts:204-207 | sending the same update twice leaves the row as the first one did |
| Activities.UpdatedCodesScan | src/controllers/ActividadController.ts:180-216 | an update that does not name `CodigoQR` or `CodigoQRSalida` keeps the activity id and both codes, which still decode to an accepted entry and exit for that activity |
| Activities.ActividadCodesScan | src/controllers/ActividadController.ts:130-148 | the stored entry and exit codes decode to scans that the attendance handler accepts for this activity, as entry and as exit |
| Activities.LudicaCodesScan | src/controllers/LudicaController.ts:69-88 | the same holds for a lúdica's two codes |
| Activities.StoreValidInsert | src/controllers/ActividadController.ts:111 | inserting at the next id keeps every row filed under its own id, below the next id |
| Activities.ActivityStore.constructor | src/controllers/ActividadController.ts:111 | the table starts empty, with ids from 1 |
| Activities.ActivityStore.CrearActividad | src/controllers/ActividadController.ts:54-178 | an invalid form is refused with the failing check and nothing stored; a valid one stores a row with both QR codes under the next id |
| Activities.ActivityStore.CrearLudica | src/controllers/LudicaController.ts:12-116 | the same for a lúdica, under its own required fields |
| Activities.ActivityStore.Actualizar | src/controllers/ActividadController.ts:180-216 | an unknown id changes nothing; a known one has its row replaced by the merged row |
| Planning.DaysInMonth | src/controllers/PlanificacionEventoController.ts:315-322 | every month has 28 to 31 days |
| Planning.NextDay | src/controllers/PlanificacionEventoController.ts:315-322 | the day after a valid date is a valid, strictly later date |
| Planning.QuarterOf | src/controllers/PlanificacionEventoController.ts:315 | every month lies in quarter 1 to 4 |
| Planning.QuarterRangeValid | src/controllers/PlanificacionEventoController.ts:315-322 | a quarter's first and last days are valid dates, in order |
| Planning.QuarterRange | src/controllers/PlanificacionEventoController.ts:315-320 | the `rangos` table: quarter 1 is 1 January to 31 March, 2 is 1 April to 30 June, 3 is 1 July to 30 September, 4 is 1 October to 31 December |
| Planning.QuartersConsecutive | src/controllers/PlanificacionEventoController.ts:315-322 | the quarters run from 1 January to 31 December, each beginning the day after the previous one ends |
| Planning.InQuarterRange | src/controllers/PlanificacionEventoController.ts:315-322 | a date lies in a quarter's range exactly when it is in that year and its month belongs to that quarter |
| Planning.QuartersPartitionYear | src/controllers/PlanificacionEventoController.ts:315-322 | every date of a year lies in exactly one quarter |
| Planning.Pad2 | src/controllers/PlanificacionEventoController.ts:316-319 | the two-digit month and day literals of the `rangos` templates (`-01-01`, `-03-31`, …) are two digits whose value is that month or day |
| Planning.DateTextIso | src/controllers/PlanificacionEventoController.ts:316-319 | the query's date text is `YYYY-MM-DD`, and it reads back as the year, month and day |
| Planning.QuarterBounds | src/controllers/PlanificacionEventoController.ts:305-322 | a quarter outside 1–4 is refused; otherwise the query uses the quarter's first and last days |
| Planning.QuarterQueryOfDate | src/controllers/PlanificacionEventoController.ts:315-327 | the quarter query's range holds exactly the dates whose month is in that quarter |
| Planning.QuarterQuery | src/controllers/PlanificacionEventoController.ts:305-322 | both path parameters are read with `parseInt` without a radix, and the bounds are those of `QuarterBounds` |
| Planning.OrNullStoresTruthy | src/controllers/PlanificacionEventoController.ts:273-276 | `x \|\| null` stores a truthy value as is and anything else as null |
| Planning.FirstIncomplete | src/controllers/PlanificacionEventoController.ts:246-260 | gives the first event missing a required field; every event before it is complete |
| Planning.FirstIncompleteAt | src/controllers/PlanificacionEventoController.ts:257-260 | the loop stops at the first incomplete event it reaches |
| Planning.FirstIncompletePast | src/controllers/PlanificacionEventoController.ts:246-256 | the loop goes past a complete event |
| Planning.TablesValidUnshared | src/controllers/PlanificacionEventoController.ts:146-161 | no two plans share a `GestionEvento` row |
| Planning.TablesValidInsert | src/controllers/PlanificacionEventoController.ts:146-161 | adding a pending management row and the plan linked to it keeps both tables consistent |
| Planning.SingleRecord | src/controllers/PlanificacionEventoController.ts:152-161 | the row of `crearPlanificacion`: the form's fields, `Recursos \|\| null`, the uploaded image or null, and the user and management ids; `Trimestre` and `EstadoCarga` are not given |
| Planning.BulkRecord | src/controllers/PlanificacionEventoController.ts:269-280 | the row of a bulk event: the event's fields, `Recursos`, `ImagenEvento` and `Trimestre` each `\|\| null`, `EstadoCarga` "Masivo", and the user and management ids |
| Planning.BulkContents | src/controllers/PlanificacionEventoController.ts:262-285 | the first `k` bulk events occupy exactly the next `k` plan ids and management ids, in order, each plan linked to its own pending management row |
| Planning.BulkLoopStep | src/controllers/PlanificacionEventoController.ts:262-285 | one turn of the bulk loop extends the tables and the created list from `k` events to `k + 1` |
| Planning.BulkRecordLinks | src/controllers/PlanificacionEventoController.ts:269-280 | a bulk plan has `EstadoCarga` "Masivo", is linked to its management row and user, and stores optional fields as truthy values or null |
| Planning.PlanningStore.constructor | src/controllers/PlanificacionEventoController.ts:146 | the tables start empty |
| Planning.PlanningStore.AddLinked | src/controllers/PlanificacionEventoController.ts:146-161 | stores a pending management row and the plan linked to it, and keeps the tables consistent |
| Planning.PlanningStore.CrearPlanificacion | src/controllers/PlanificacionEventoController.ts:126-177 | an incomplete request is refused with 400 and nothing stored; otherwise one plan and its management row are stored |
| Planning.PlanningStore.CreateUntilIncomplete | src/controllers/PlanificacionEventoController.ts:244-286 | stores exactly the events before the first incomplete one, under consecutive ids, and returns them in order |
| Planning.PlanningStore.CrearEventosMasivos | src/controllers/PlanificacionEventoController.ts:230-300 | no user gives 401 and a missing or empty list gives 400, both storing nothing; otherwise it stores the complete prefix and reports it |
| SpreadsheetImport.StripAccents | src/controllers/AprendizController.ts:30-31 | removing combining marks leaves none and never lengthens the text |
| SpreadsheetImport.DropSeparators | src/controllers/AprendizController.ts:32 | the text never begins with a separator after leading separators are dropped |
| SpreadsheetImport.CollapseSeparators | src/controllers/AprendizController.ts:32 | each run of separators becomes a single space |
| SpreadsheetImport.DropWhiteSpace | src/controllers/AprendizController.ts:85 | removing white space never lengthens the text |
| SpreadsheetImport.CollapsedSeparators | src/controllers/AprendizController.ts:26-33 | a normalised header holds no `_` or `-`, and its only white space is plain spaces |
| SpreadsheetImport.Normalize | src/controllers/AprendizController.ts:26-33 | `normalizeCell` and `normalizeKey`: trim, strip accents, turn each run of `_`, `-` and white space into one space, lower-case |
| SpreadsheetImport.UnderscoredHasNoWhiteSpace | src/controllers/AprendizController.ts:84-86 | a header key with spaces replaced by `_` holds no white space |
| SpreadsheetImport.ScanLimit | src/controllers/AprendizController.ts:55 | the header search looks at no more than the first ten rows |
| SpreadsheetImport.HeaderIndexUnique | src/controllers/AprendizController.ts:53-79 | the header-row choice is a single, well-defined row |
| SpreadsheetImport.DetectHeader | src/controllers/AprendizController.ts:53-79 | the first of the first ten rows with at least two cells holding a header keyword; otherwise the first of them with at least two non-empty cells; otherwise row 0 |
| SpreadsheetImport.PutGet | src/controllers/AprendizController.ts:96 | after `obj[k] = v`, reading `k` gives `v`, and every other key is unchanged |
| SpreadsheetImport.PutKeys | src/controllers/AprendizController.ts:161-164 | an assignment adds the key at the end when new and overwrites in place when present; keys stay unique |
| SpreadsheetImport.AssignPrefix | src/controllers/AprendizController.ts:94-97 | assigning the first `i + 1` pairs is assigning the first `i` then pair `i` |
| SpreadsheetImport.LastValue | src/controllers/AprendizController.ts:94-97 | the value of a key is the one given by its last occurrence, and is absent when the key never occurs |
| SpreadsheetImport.AssignMembers | src/controllers/AprendizController.ts:94-97 | assigning a list of pairs leaves unique keys, each holding the key's last value |
| SpreadsheetImport.HeaderKeys | src/controllers/AprendizController.ts:84-86 | there is one header key per header cell |
| SpreadsheetImport.ColumnPairs | src/controllers/AprendizController.ts:94-97 | column `c` contributes its header key with the cell's text |
| SpreadsheetImport.RowObjectMembers | src/controllers/AprendizController.ts:93-98 | a row object has unique keys; a key holds the cell of the last column with that key, and is absent without one |
| SpreadsheetImport.NonBlank | src/controllers/AprendizController.ts:92 | keeps exactly the rows with some non-empty cell |
| SpreadsheetImport.DataRowsAreNonBlankRows | src/controllers/AprendizController.ts:89-99 | there is one object per non-blank row after the header, in order |
| SpreadsheetImport.BuildRowObject | src/controllers/AprendizController.ts:93-98 | the loop builds exactly the row object of the header and the row |
| SpreadsheetImport.BuildDataRows | src/controllers/AprendizController.ts:89-99 | the loop builds the objects of the non-blank rows after the header |
| SpreadsheetImport.TargetKeyIsCanonicalOrKept | src/controllers/AprendizController.ts:154-168 | each key maps to a canonical column name when the header map knows it, and otherwise keeps its normalised form |
| SpreadsheetImport.TargetKey | src/controllers/AprendizController.ts:157-164 | a key's target: the canonical name for its spelling without `_`, else as is, else with `_` as spaces; otherwise its own normalised spelling |
| SpreadsheetImport.Retargeted | src/controllers/AprendizController.ts:156-158 | each member's key is replaced by its target key and its value kept |
| SpreadsheetImport.MapRowMembers | src/controllers/AprendizController.ts:154-168 | a mapped row has unique keys, each holding the value of the last member mapped to it |
| SpreadsheetImport.MapKeys | src/controllers/AprendizController.ts:155-167 | the key-mapping loop computes exactly the mapped row |
| SpreadsheetImport.MapAll | src/controllers/AprendizController.ts:154 | every row is mapped, in order |
| SpreadsheetImport.MapData | src/controllers/AprendizController.ts:154-168 | the loop maps every row, in order |
| SpreadsheetImport.PasswordTrimmed | src/controllers/AprendizController.ts:243-245 | the stored password is the trimmed cell, or "123456" when that is empty; it never begins or ends with white space |
| SpreadsheetImport.Sheet | src/controllers/AprendizController.ts:194-206 | each row is paired with the fields read from it |
| SpreadsheetImport.Extract | src/controllers/AprendizController.ts:196-206 | each field is the first present of its spellings, trimmed, or ""; the e-mail is also lower-cased |
| SpreadsheetImport.FirstPresentIsFirst | src/controllers/AprendizController.ts:198-206 | a `??` chain gives the value of the first spelling the row has, whatever the later ones hold |
| SpreadsheetImport.FirstPresentAbsent | src/controllers/AprendizController.ts:198-206 | a `??` chain ending in `''` gives the empty text when the row has none of the spellings |
| SpreadsheetImport.ExtractIdentificacion | src/controllers/AprendizController.ts:197-198 | the identification is the trimmed `IdentificacionUsuario` when the row has it, and empty when the row has none of its four spellings |
| SpreadsheetImport.ExtractCorreo | src/controllers/AprendizController.ts:201 | the e-mail is the trimmed, lower-cased `Correo` when the row has it, and empty when the row has none of its three spellings |
| SpreadsheetImport.Classify | src/controllers/AprendizController.ts:208-240 | a row without e-mail and identification is skipped as missing; a lookup that throws fails it; a row whose e-mail or identification is registered is skipped as existing; a later throw fails it; otherwise it is created |
| SpreadsheetImport.Effect | src/controllers/AprendizController.ts:242-287 | the creations reached before the failing step: the confirmed user with role 2, then its "Aprendiz" role, then the `Aprendiz` row, each under the next id |
| SpreadsheetImport.Record | src/controllers/AprendizController.ts:209-298 | a row counts once under its outcome and adds one `processed` entry; a failed row also adds the error `err.message \|\| String(err)` under its one-based number |
| SpreadsheetImport.Run | src/controllers/AprendizController.ts:193-299 | the tables and the report after the first `n` rows, each processed in order |
| SpreadsheetImport.RunCounts | src/controllers/AprendizController.ts:176-299 | the report's total is the number of rows, one entry per processed row, and inserted, skipped and failed rows add up to the rows processed |
| SpreadsheetImport.RecordErrors | src/controllers/AprendizController.ts:288-298 | a row adds an error exactly when it failed, numbered with its one-based row number; its reason is the error's message, or `String(err)` (the error's name) when the message is empty |
| SpreadsheetImport.RunErrorRows | src/controllers/AprendizController.ts:288-289 | errors are listed in row order, with row numbers among those processed |
| SpreadsheetImport.StepEffects | src/controllers/AprendizController.ts:209-287 | a skipped row changes no table; an imported row adds a confirmed apprentice user with the row's contact data and password, its "Aprendiz" role and its `Aprendiz` row |
| SpreadsheetImport.StepTablesShape | src/controllers/AprendizController.ts:226-265 | each table either stays or gains exactly the record for the next id, and a user is added only when not already registered |
| SpreadsheetImport.AddUnregisteredKeepsUnique | src/controllers/AprendizController.ts:226-259 | adding a user whose e-mail and identification are not yet registered keeps non-empty e-mails and identifications unique |
| SpreadsheetImport.StepKeepsValid | src/controllers/AprendizController.ts:225-259 | one row keeps the tables consistent: ids below the counters, and no two users sharing a non-empty e-mail or identification |
| SpreadsheetImport.RunKeepsValid | src/controllers/AprendizController.ts:225-259 | a whole import keeps the tables consistent |
| SpreadsheetImport.UserDirectory.constructor | src/controllers/AprendizController.ts:248 | the tables start empty, with ids from 1 |
| SpreadsheetImport.UserDirectory.ImportRow | src/controllers/AprendizController.ts:195-287 | a row is classified as missing fields, already registered, created or failed, and the tables change as that outcome says |
| SpreadsheetImport.UserDirectory.CreateRecords | src/controllers/AprendizController.ts:242-287 | the three creates store user, role and apprentice up to the first failing stage |
| SpreadsheetImport.UserDirectory.ImportRows | src/controllers/AprendizController.ts:193-299 | the loop leaves the tables and report of the import run over all rows |
| SpreadsheetImport.UserDirectory.ProcessRow | src/controllers/AprendizController.ts:194-298 | one turn of the loop is one step of the import run, including its error entry |
| SpreadsheetImport.UserDirectory.SubirDesdeExcel | src/controllers/AprendizController.ts:10-321 | no file gives 400 and an empty sheet gives 500, both changing nothing; otherwise the rows under the detected header are imported |
| Inventory.ImageCheck | src/controllers/CatalogoAlquiler.ts:56-68 | the image passes exactly when a file is present with a JPEG, PNG or WEBP type; a missing image and a wrong type are told apart |
| Inventory.CheckItem | src/controllers/ElementoController.ts:17-51 | the checks run in order (missing fields, bad quantity, image), and a passing item has its parsed quantity of at least 1 |
| Inventory.CantidadText | src/controllers/CatalogoAlquiler.ts:46-52 | an integer quantity text is accepted exactly when it is at least 1 |
| Inventory.CantidadLeadingDigits | src/controllers/CatalogoAlquiler.ts:46-52 | a quantity with trailing non-digits is read by its leading digits |
| Inventory.CantidadHexPrefix | src/controllers/ElementoController.ts:22-26 | "0x…" is a hexadecimal quantity without radix, and is refused with radix 10 |
| Inventory.QrUrlInjective | src/controllers/ElementoController.ts:84 | different elements get different QR file paths |
| Inventory.CatalogItemShape | src/controllers/CatalogoAlquiler.ts:71-111 | a catalog upload stores an available element with its full stock, a "catalogo" record by "sistema" with no user, and a QR text that parses back to its members |
| Inventory.NewItemShape | src/controllers/ElementoController.ts:54-84 | an element creation stores the element with its full stock, and a QR payload and path that identify it |
| Inventory.NewElemento | src/controllers/CatalogoAlquiler.ts:71-78 | the new element of both creation handlers: its name, description and image, all of the quantity in stock and available |
| Inventory.CatalogRecord | src/controllers/CatalogoAlquiler.ts:101-111 | the catalog record of an uploaded element: its id, name, image and stock, `Observaciones` "catalogo", registered by "sistema", with no user |
| Inventory.IndexOf | src/controllers/CatalogoAlquiler.ts:169 | `findByPk` finds the first record with the id, or reports that there is none |
| Inventory.RemoveAt | src/controllers/CatalogoAlquiler.ts:210 | `destroy` removes that one record and keeps all others |
| Inventory.ActiveRentals | src/controllers/ElementoController.ts:134-140 | selects exactly the pending rentals of the element |
| Inventory.ActiveRental | src/controllers/ElementoController.ts:134-140 | a pending rental of the element: another record of it whose `Observaciones` is set and not "catalogo" and whose `CumplioConEntrega` is false |
| Inventory.StockInsert | src/controllers/CatalogoAlquiler.ts:71-78 | inserting an element at the next id keeps the stock table consistent |
| Inventory.IndexOfUnique | src/controllers/ElementoController.ts:119-124 | in a consistent ledger, a record id appears once, so `findByPk` finds that record |
| Inventory.LedgerAppend | src/controllers/CatalogoAlquiler.ts:101-111 | appending a record at the next id keeps ids unique and increasing |
| Inventory.LedgerRemove | src/controllers/ElementoController.ts:171 | deleting a record keeps the ledger consistent |
| Inventory.ImagenUrl | src/controllers/CatalogoAlquiler.ts:154-158 | a listing shows the record's own image, else the element's image, else none |
| Inventory.Catalogo | src/controllers/CatalogoAlquiler.ts:137-164 | the catalog lists exactly the "catalogo" records of an element, each with its image |
| Inventory.CatalogoNewestFirst | src/controllers/CatalogoAlquiler.ts:150 | the catalog is ordered newest first |
| Inventory.NewItemListedFirst | src/controllers/CatalogoAlquiler.ts:139-158 | a freshly uploaded item heads the catalog, with its image |
| Inventory.RemovedNotListed | src/controllers/CatalogoAlquiler.ts:210 | a deleted record is no longer listed |
| Inventory.AsWrittenDeletesRentedItem | src/controllers/ElementoController.ts:134-171 | as written, deleting catalog record 1 of element 2 ignores element 2's pending rental and removes the record |
| Inventory.EliminarRule | src/controllers/ElementoController.ts:113-180 | 404 without a catalog record of the id; deactivation of the element when it has a pending rental; otherwise deletion of the record |
| Inventory.EliminarAsWritten | src/controllers/ElementoController.ts:134-146 | the deletion rule with rentals and element looked up under the record's own id, as the handler does |
| Inventory.Eliminar | src/controllers/ElementoController.ts:113-180 | the corrected deletion rule, with rentals and element looked up under the record's `IdElemento` |
| Inventory.EliminarNotFound | src/controllers/ElementoController.ts:119-131 | the deletion reports "not in catalog" exactly when no catalog record has the id, and then changes nothing |
| Inventory.EliminarKeepsRented | src/controllers/ElementoController.ts:134-168 | an element with a pending rental is only marked unavailable; no record is deleted and no other element changes |
| Inventory.EliminarRemoves | src/controllers/ElementoController.ts:170-173 | a removal deletes exactly the catalog record, only when its element has no pending rental, and keeps the ledger consistent |
| Inventory.Inventory.constructor | src/controllers/CatalogoAlquiler.ts:71 | the tables start empty, with ids from 1 |
| Inventory.Inventory.SubirElemento | src/controllers/CatalogoAlquiler.ts:33-135 | a refused upload changes nothing; an accepted one stores the element and appends its catalog record under the next ids |
| Inventory.Inventory.CrearElemento | src/controllers/ElementoController.ts:12-92 | a refused creation changes nothing; an accepted one stores only the element |
| Inventory.Inventory.ActualizarImagen | src/controllers/CatalogoAlquiler.ts:166-199 | an unknown record gives 404 and a bad image the image error, both changing nothing; otherwise only that record's image is replaced |
| Inventory.Inventory.EliminarRegistro | src/controllers/CatalogoAlquiler.ts:201-216 | an unknown id is reported and changes nothing; otherwise exactly that record is deleted |
| Inventory.Inventory.EliminarElemento | src/controllers/ElementoController.ts:113-180 | the deletion has the corrected effect: refused when not a catalog record, deactivation while the element is rented, removal otherwise |

## Left out

- Image upload to Cloudinary, QR image rendering and writing the PNG file: the upload URL is a parameter, and the code is kept as its JSON text.
- Notifications, Socket.IO, logging, e-mail delivery and the chatbot are not part of this model; they do not affect stored rows.
- Routing, middleware and configuration: the authenticated user is an `Option<int>` parameter, and the multer file filter is not modelled.
- The clock: `new Date()` and `Date.now()` are parameters in integer milliseconds. `AsiFecha` and the `ALQ-…` code use that value. The `FechaSolicitud` and `FechaDevolucion` of a catalog record (src/controllers/CatalogoAlquiler.ts:107-108) are not modelled: `Inventory.CatalogRecord` leaves them out. Neither is the `FechaRegistro` of an imported user (src/controllers/AprendizController.ts:255): `SpreadsheetImport.Usuario` has no such column.
- Attendance.Hundredths: floating point is not modelled; hours are exact integer hundredths rounded half away from zero, and binary-fraction rounding at exact halves is not captured.
- JsonText.ParseStringify: `JSON.parse` is modelled only on the compact flat objects that `JSON.stringify` writes, with string and non-negative integer members. Other JSON texts are read as unreadable. `JsonText.Unescape` also refuses every `\u` escape in the range D800–DFFF, so an escaped surrogate pair such as `"\ud83d\ude00"`, which `JSON.parse` reads as one character, is unreadable in the model.
- Attendance.Scan: the model answers 400 to every code text that is not a compact flat object, where the source does three different things (src/controllers/LudicaController.ts:222-233). The text `null` makes `data.IdActividad` throw outside the `try`, so no reply is sent. Any other value that is not an object (a number, a string, a boolean, an array) has no `IdActividad`, so `findByPk(undefined)` finds nothing and the reply is 404. An object with other member kinds (nested values, booleans, fractions, negative numbers) is handled by the source as usual. The ledger is unchanged in the first two cases, as in the model.
- Attendance.Scan: an activity id is found only when it is an integer in the activity table; string ids that the database would coerce are not modelled.
- SpreadsheetImport.StripAccents: Unicode NFD is modelled only for the Spanish accented letters, which fold to their base letter.
- JsText.ToLower: lower-casing is ASCII-only, where `toLowerCase` maps every Unicode upper-case letter. So a non-ASCII upper-case letter stays as it is. `SpreadsheetImport.Extract` lower-cases the e-mail without stripping accents (src/controllers/AprendizController.ts:201), so it keeps the "É" of "JOSÉ@X.CO" where the source gives "josé@x.co", and the registration check compares that text. Header keys are affected only for letters other than the Spanish accented ones, which are stripped first.
- Object key order in JavaScript puts integer-like keys first; the model keeps insertion order for all keys.
- Password hashing is not modelled: the stored password is the text that would be hashed.
- Reading the workbook and deleting the uploaded file are not modelled. The sheet is a parameter whose cells are text, integers or booleans.
- Database errors inside a row: a per-row failure map says which stage (lookup, hash, user, role, apprentice) throws and with what message. Other thrown database errors (500 replies) are left out.
- The header map's accented entries are never reached once accents are stripped; they are kept as data only.
- `createdAt` ordering of the catalog is modelled as id order; column defaults the database would fill are left unset.
- The route for element deletion names its parameter `IdElemento` (src/routes/Elemento.Routes.ts:10), while the handler reads `req.params.IdAlquiler` (src/controllers/ElementoController.ts:115). Through that route `IdAlquiler` is undefined in the `findOne` condition, which Sequelize (version 5 on) rejects, so every such deletion replies 500 before the rental check. The model takes the id as given and describes the handler on its own.
- `ElementoController.getCatalogo` and the other list and detail getters are plain queries; `EventoController` is not part of this model.
- `crearActividad` creates the row and then saves the QR codes into it; the model stores the finished row in one step. `crearActividad` also uploads the image before validating the fields, which does not change the stored rows.
- The non-atomic find-then-save of the scan handler is modelled as one sequential step; concurrent scans are not modelled.
- SpreadsheetImport.UserDirectory.ImportRow: an e-mail or identification counts as registered only on exact text equality. The database compares under its collation (src/config/db.ts:15), which may ignore case and accents, so rows it would skip as existing may be created here.
- Activities.Merge: the database's coercion of the body's text into integer, boolean and date columns is not modelled; `IdEvento` and `IdUsuario` keep the body's text, a `HorarioContinuo` other than "true" is stored as false, and an `IdActividad` in the body (a change of primary key) is ignored.
- Inventory.ActiveRental / Inventory.Catalogo / Inventory.EliminarRule: a record is a catalog record only when its `Observaciones` is exactly "catalogo". The queries compare under the database's collation (src/controllers/CatalogoAlquiler.ts:141, src/controllers/ElementoController.ts:122 and :137; src/config/db.ts:15), which may ignore case and accents. So a record marked "Catalogo" or "Catálogo" is listed and deletable as a catalog record by the source, while the model leaves it out of the catalog and counts it as a pending rental that blocks the deletion.
- JsText.ParseInt / JsText.ToText: JavaScript numbers are IEEE 754 doubles, and the model's numbers are exact unbounded integers. `parseInt` rounds integers beyond 2^53 (`parseInt("9007199254740993")` is 9007199254740992), and `String(n)` writes 1e21 and above in exponent form. So `JsText.IntTextRoundTrip`, the year text of `Planning.QuarterQuery`, the quantity of `Inventory.CheckItem` and `Activities.StoredIdEvento` match JavaScript only for magnitudes below 2^53.
- Inventory.Inventory.SubirElemento: the QR file is written between the two creations and the notification is sent after them (src/controllers/CatalogoAlquiler.ts:94-124). When either throws, the source replies 500 but keeps what it has already stored: the element alone, or the element and its catalog record. The model treats both as never failing. The same holds for the QR file of `Inventory.Inventory.CrearElemento` (src/controllers/ElementoController.ts:75), which follows its creation.
- Planning.PlanningStore.CrearEventosMasivos: elements of the bulk list that are not objects are not modelled.
- The password is trimmed where it is read rather than where it is used; the result is the same.

## Findings

| source | as written | input that shows it | evidently intended | confidence | as-written member | corrected member |
|---|---|---|---|---|---|---|
| src/controllers/ElementoController.ts:134-146 | the pending-rental check and the element lookup use the catalog record's `IdAlquiler` as the element id | catalog record 1 for element 2, plus a pending rental of element 2: the rental is not seen, and the catalog record is deleted | look up rentals and the element by the record's `IdElemento`, so a rented element is only deactivated | likely; not executed | Inventory.AsWrittenDeletesRentedItem | Inventory.EliminarKeepsRented |
