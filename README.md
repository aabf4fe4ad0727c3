# Farm-scoped provisioning and assignment, in Dafny

This project models the route handlers of a small Flask application for farm
operations. Users have roles: `admin`, `rrhh` and `jefe_cultivo`. They
provision harvest **codes** (`Codigo`) and growing **areas** (`Area`) for a
farm (`Finca`). They then assign codes to areas, supervisors (`Supervisor`)
to areas, and users (`Usuario`) to farms.

The database is a class `Models.Store`. It holds one sequence per table and
the next key to hand out. Its `Valid()` invariant holds:

- unique keys;
- unique usernames and emails;
- unique supervisor access keys;
- the `(codigo, finca_id)` unique constraint.

Each POST handler is a method on the store. It takes the caller (`rol` and
the `finca_id` of the caller's user record) and the form values. It returns
an `Outcome` (`Success`, `Warning` or `Failure(kind)`) in place of the
`flash` + `redirect` pair. Every failure path leaves the store as it was.

Each GET page is a function or a read-only method over snapshots of the
tables. It returns the rows it renders, or the error it flashes.

The older standalone application `app.py` is modelled as its own variant in
module `Legacy`, with its own store. It differs from the live app in four
ways:

- its codes carry no farm;
- its code strings are unique across the whole table;
- its `area_id` column is NOT NULL;
- its rules for bulk area creation, bulk assignment and area listing differ.

Modules:

- `Options`: the `Option` datatype for nullable columns.
- `Text`: Python's `strip`, `split`, `isdigit`, `int` and `%03d` on ASCII
  text, plus the parsing of a range such as `001-010`.
- `Models`: the records, the store, the table constraints, and `Find`/`Filter`.
- `Access`: the caller, the role gates, the cross-farm check and the outcomes.
- `Areas`, `Codigos`, `Supervisores`, `Usuarios`, `Fincas`: one module per
  blueprint in `app/routes/`.
- `Legacy`: the variant in `app.py`.
  Its supervisor assignment and supervisor summary (`app.py:256-331`) are the
  same code as the live ones, so the `Supervisores` members model both.

In five places the behaviour modelled is that of the code rather than the
prose description of the system:

- Live bulk area creation (`app/routes/areas.py:43-54`) creates an area for
  every non-empty stripped token. Only the legacy handler skips non-numeric
  tokens.
- `%03d` pads to *at least* three digits. Codes from 1000 up have four or
  more (`Text.Pad3`).
- Live single code→area assignment checks only the farm of the *area*, never
  the code's own farm (`app/routes/codigos.py:257-265`). Bulk assignment
  checks no farm at all (`app/routes/codigos.py:184-187`).
- The unassigned pool of `gestionar_asignaciones_codigos`
  (`app/routes/codigos.py:235`) and of the `asignar_codigo_area` form
  (`app/routes/codigos.py:274-278`) are not farm-scoped.
- Any number of areas may name the same supervisor. `supervisor_id` carries no
  uniqueness constraint (`app/models.py:54`), so `Supervisores.ConSupervisor`
  overwrites one area's supervisor and leaves other areas that name the same
  supervisor as they are.

## Model

| member | source | states |
|---|---|---|
| Models.MismoCodigoEnDosFincas | app/models.py:85-98 | the same code string in two different farms does not violate `_codigo_finca_uc` |
| Models.AgregarCodigoNuevo | app/models.py:98 | adding a code whose `(codigo, finca_id)` pair is new keeps the per-farm uniqueness constraint |
| Models.Find | app/routes/codigos.py:185 | `query.get(id)`: a found position holds the key and is the first one; none found means no row has the key |
| Models.Filter | app/routes/codigos.py:13-17 | `filter_by(...).all()`: every row of the result is a row of the table that satisfies the condition, and every such row is in the result |
| Models.FilterAppend | app/routes/codigos.py:13-17 | table order is kept: filtering `s + t` gives the rows of `s` that qualify, then those of `t` |
| Models.FilterUno | app/routes/codigos.py:13-17 | a single row is kept exactly when it satisfies the condition |
| Models.FilterCuenta | app/routes/codigos.py:13-17 | a qualifying row appears in the result as many times as in the table; any other row does not appear |
| Models.FilterAll | app/routes/codigos.py:13 | a filter that every row passes returns the table unchanged |
| Models.FilterExt | app/routes/supervisores.py:114 | two conditions that agree on every row select the same rows |
| Models.Store.constructor | app/models.py:7-98 | an empty database satisfies every table constraint |
| Models.Store.AddUsuario | app/models.py:7-16 | a new user gets the next key and is active; only the user table grows; the unique username and email columns stay unique |
| Models.Store.AddFinca | app/models.py:31-38 | a new farm gets the next key and is active; only the farm table grows |
| Models.Store.AddArea | app/models.py:47-55 | a new area gets the next key, is active and has no supervisor; only the area table grows |
| Models.Store.AddSupervisor | app/models.py:65-74 | a new supervisor with an unused access key gets the next key and is active; only the supervisor table grows |
| Models.Store.AddCodigo | app/models.py:81-98 | a new code whose pair is unused gets the next key and is active; only the code table grows; the pair constraint still holds |
| Models.Store.SetCodigoArea | app/models.py:89 | writing `area_id` changes that one field of that one row and nothing else |
| Models.Store.SetAreaSupervisor | app/models.py:54 | writing `supervisor_id` changes that one field of that one row and nothing else |
| Models.Store.SetUsuarioFinca | app/models.py:15 | writing a user's `finca_id` changes that one field of that one row and nothing else |
| Access.AdminCanManage | app/routes/codigos.py:28 | every caller who passes the admin-only gate also passes the three-role gate |
| Text.SkipSpaces | app/routes/codigos.py:67 | the first non-whitespace index at or after `i`; everything skipped is whitespace |
| Text.TrimSpaces | app/routes/codigos.py:67 | the end of the slice once trailing whitespace is cut; everything cut is whitespace |
| Text.Strip | app/routes/areas.py:43 | `str.strip()`: a slice of the input with no whitespace at either end; everything removed is whitespace |
| Text.StripNoEdgeSpaces | app/routes/areas.py:43 | a string without whitespace at its ends strips to itself |
| Text.StripIdempotent | app/routes/areas.py:43 | stripping twice equals stripping once |
| Text.SplitOn | app/routes/areas.py:43 | `str.split(sep)`: one more piece than separators; no piece holds the separator; joining the pieces gives the input back |
| Text.SplitNoSeparator | app/routes/codigos.py:65 | a string without the separator splits into itself alone |
| Text.SplitOnce | app/routes/codigos.py:66 | a string with exactly one separator splits into the two sides |
| Text.Digits | app/routes/codigos.py:71 | `str(n)`: non-empty, all digits, at most three of them below 1000, and a leading `0` only for `n == 0` |
| Text.DigitsValue | app/routes/codigos.py:71 | reading `Digits(n)` back gives `n` |
| Text.ValueLeadingZeros | app/routes/codigos.py:67 | leading zeros do not change the value `int()` reads |
| Text.Pad3 | app/routes/codigos.py:71 | `f"{i:03d}"`: at least three digits; exactly three below 1000; the plain digits from 1000 up |
| Text.Pad3Value | app/routes/codigos.py:71 | the padded code reads back as the number |
| Text.Pad3Injective | app/routes/codigos.py:70-71 | distinct numbers give distinct codes |
| Text.ParseNat | app/routes/codigos.py:67-68 | `int(x.strip())` on ASCII digits: succeeds exactly when the stripped text is all digits, and then yields its value |
| Text.ParsePad3 | app/routes/codigos.py:67-71 | parsing a padded code gives back its number |
| Text.ParseRange | app/routes/codigos.py:65-68 | the format error is given exactly when there is no `-`; two or more `-` give the number error (the two-value unpack fails); success implies exactly one `-` |
| Text.ParseRangeAccepts | app/routes/codigos.py:65-68 | a text with a single `-` is accepted exactly when `int(x.strip())` reads both halves, and then gives those two values (`1-10`, ` 7 - 12`); otherwise the number error |
| Text.ParseRangeHalves | app/routes/codigos.py:66-68 | a parsed range is two `-`-free halves around the single `-`, each of which `int()` reads as the bound |
| Text.ParseRangeOfCodes | app/routes/codigos.py:66-71 | `Pad3(a) + "-" + Pad3(b)` parses back to the range `a..b` |
| Text.RangeCodes | app/routes/codigos.py:70-71 | `range(inicio, fin + 1)` rendered: `fin - inicio + 1` codes when `inicio <= fin`, none otherwise; the k-th is `Pad3(inicio + k)` |
| Text.RangeCodesDistinct | app/routes/codigos.py:70-71 | no code repeats within a range |
| Areas.AreasEnAlcance | app/routes/areas.py:12-19 | an admin sees exactly the active areas; a non-admin with a farm exactly that farm's active areas; a caller without a farm none |
| Areas.AlcanceSoloMiraFincaYActiva | app/routes/areas.py:12-19 | whether an area is visible depends only on its farm and its active flag |
| Areas.AlcanceClaveDetermina | app/routes/supervisores.py:94-98 | visible areas with unique keys can be told apart by key, so a dictionary keyed by area id loses none |
| Areas.Piezas | app/routes/areas.py:43 | one stripped piece per comma-separated piece |
| Areas.NoVacias | app/routes/areas.py:46-47 | each token is a non-empty piece, and every non-empty piece is a token |
| Areas.NoVaciasEsFilter | app/routes/areas.py:45-47 | the tokens are the pieces filtered by `if numero:` |
| Areas.NoVaciasPorPieza | app/routes/areas.py:43-54 | one token per non-empty piece, in order and with repeats: the tokens of `a + b` are those of `a` then those of `b`; a non-empty piece is a token as many times as it is a piece; a list with no empty piece is its own token list |
| Areas.TokensAreaSon | app/routes/areas.py:43-47 | a token is non-empty, holds no comma and has no whitespace at its ends; the tokens are exactly the non-empty pieces; there are at most one more than the commas |
| Areas.FincaDeAreas | app/routes/areas.py:34-38 | an admin's areas go to the form's farm; a non-admin's go to their own farm, whatever the form says |
| Areas.AreasNuevasAppend | app/routes/areas.py:48-52 | one more token adds one area named `"Área " + token`, described by the branch's prefix plus the token, with the next key |
| Areas.CrearAreasMultiples | app/routes/areas.py:45-54 | the loop adds exactly one area per non-empty token, named after it, in farm `f`, and counts them; only the area table changes |
| Areas.CrearArea | app/routes/areas.py:28-67 | gate; comma-list branch adds the areas of `CrearAreasMultiples` and reports their count; single branch adds one area; a missing farm is a database fault, but only when a row would be added |
| Areas.SupervisorPorId | app/routes/areas.py:98-101 | the supervisor of a set `supervisor_id`, found by key |
| Areas.AreaPorId | app/routes/supervisores.py:56 | `Area.query.get(id)`: the area with that key; none exactly when no area has it |
| Areas.CodigosActivosDe | app/routes/areas.py:105 | exactly the active codes whose area is the given one |
| Areas.GestionarAsignacionesAreas | app/routes/areas.py:83-112 | gate; one entry per visible area, in order, with its supervisor or none, its active codes, and their count |
| Codigos.CodigosVisibles | app/routes/codigos.py:12-19 | an admin sees every code; a non-admin with a farm exactly that farm's codes; a caller without a farm none |
| Codigos.ResolverFinca | app/routes/codigos.py:44-55 | an admin must name a farm (else "select a farm"); a non-admin uses their own (else "no farm assigned") |
| Codigos.Faltantes | app/routes/codigos.py:74-76 | every missing code is a listed code whose `(codigo, finca_id)` pair does not exist yet, and every such code is missing |
| Codigos.FaltantesEsFilter | app/routes/codigos.py:70-76 | the missing codes are the listed codes filtered by the loop's existence check |
| Codigos.FaltantesPorCodigo | app/routes/codigos.py:70-88 | the loop goes in list order: the missing codes of `a + b` are those of `a` then those of `b`; a code the farm lacks is missing as many times as it is listed |
| Codigos.FilasNuevasAppend | app/routes/codigos.py:77-84 | one more missing code adds one row `Persona <code>` / `Cosechador` with the next key |
| Codigos.ExisteConNuevas | app/routes/codigos.py:74 | rows added for other codes do not change whether a code exists |
| Codigos.FaltantesDistintos | app/routes/codigos.py:70-76 | the missing codes of a repetition-free list are repetition-free |
| Codigos.RangoNoDuplica | app/routes/codigos.py:70-88 | after range provisioning the `(codigo, finca_id)` pair is still unique |
| Codigos.OtrasFincasNoCuentan | app/routes/codigos.py:74 | codes of other farms never count as duplicates |
| Codigos.RangoIdempotente | app/routes/codigos.py:70-88 | submitting the same range again for the same farm creates nothing |
| Codigos.FaltantesVacio | app/routes/codigos.py:74-88 | when every code exists, nothing is missing |
| Codigos.PasoRango | app/routes/codigos.py:70-88 | one loop step: the existence check of the k-th code sees the original table, and the missing list grows by it exactly when it was missing |
| Codigos.RangoDistinto | app/routes/codigos.py:70-71 | the codes of a range are pairwise distinct |
| Codigos.PasoCrearRango | app/routes/codigos.py:71-88 | one iteration adds the row for the k-th code exactly when its pair is missing |
| Codigos.CrearLista | app/routes/codigos.py:70-90 | the loop adds one row per missing code, in order, with consecutive keys; created + skipped = number of codes; only the code table changes |
| Codigos.CrearRango | app/routes/codigos.py:70-90 | for `inicio..fin`: created = missing codes, created + skipped = `fin - inicio + 1` (or 0 when `inicio > fin`) |
| Codigos.CrearCodigosRango | app/routes/codigos.py:57-103 | a malformed range is an error and nothing changes; otherwise the rows of the missing codes are added, and the outcome is success iff something was created, else a warning, with the skipped count |
| Codigos.CrearCodigoUnico | app/routes/codigos.py:120-145 | an existing pair is rejected with no insert; otherwise exactly one row with the form's fields is added |
| Codigos.CrearCodigo | app/routes/codigos.py:23-150 | gate, then farm resolution, then the range or single branch with the results above; every failure leaves the table unchanged |
| Codigos.ConArea | app/routes/codigos.py:184-187 | selected codes get the area; every other code is unchanged; keys, code strings and farms never change |
| Codigos.ConAreaConservaUnicidad | app/routes/codigos.py:184-189 | reassigning areas keeps the pair constraint |
| Codigos.ConAreaIdempotente | app/routes/codigos.py:184-187 | assigning the same selection twice equals assigning it once |
| Codigos.ConAreaPaso | app/routes/codigos.py:184-187 | one loop step: writing the found row is `ConArea` of the longer selection; an id that resolves to no row changes nothing |
| Codigos.AsignarAreaCodigos | app/routes/codigos.py:162-191 | gate; missing area, then empty selection, are errors with no change; otherwise exactly the selected existing codes move to the area, and the count is the number of ids submitted |
| Codigos.AsignarCodigoArea | app/routes/codigos.py:241-270 | gate; not-found exactly when the code or the area does not resolve; a non-admin writing into another farm's area is rejected with no change; otherwise only that code moves |
| Codigos.CodigosSinAsignar | app/routes/codigos.py:235 | exactly the codes without area, of every farm |
| Codigos.FormularioCodigoArea | app/routes/codigos.py:272-279 | the form offers every active code without area, whatever the caller, and the caller's visible areas |
| Codigos.CodigosSinArea | app/routes/codigos.py:193-204 | the unassigned pool: every code without area for an admin, those of the caller's farm otherwise, none without a farm |
| Codigos.AsignadosSalenDelPool | app/routes/codigos.py:184-204 | right after an assignment, no assigned code is in the unassigned pool |
| Codigos.AsignarNoAgregaAlPool | app/routes/codigos.py:184-204 | an assignment never adds a code to the pool |
| Codigos.CodigosPorArea | app/routes/codigos.py:225-232 | the dictionary has exactly the visible areas' keys, each with its area, its active codes and their count |
| Codigos.GestionarAsignacionesCodigos | app/routes/codigos.py:208-239 | gate; the per-area dictionary as above, and every code without area |
| Supervisores.SupervisoresActivos | app/routes/supervisores.py:15 | exactly the active supervisors |
| Supervisores.ListarSupervisores | app/routes/supervisores.py:11-16 | refused exactly for a role outside the three; otherwise exactly the active supervisors |
| Supervisores.CrearSupervisor | app/routes/supervisores.py:23-37 | gate; a used access key is a database fault with no change; otherwise exactly one active supervisor is added |
| Supervisores.ConSupervisor | app/routes/supervisores.py:66 | the target area gets the supervisor, overwriting any previous one; every other area is unchanged |
| Supervisores.ConSupervisorEnPosicion | app/routes/supervisores.py:56-66 | with unique keys, writing the row found by `get` is `ConSupervisor` |
| Supervisores.AsignarSupervisorArea | app/routes/supervisores.py:47-71 | gate; not-found exactly when the supervisor or the area does not resolve; a non-admin writing into another farm's area is rejected with no change; otherwise only the target area changes |
| Supervisores.FormularioAsignacion | app/routes/supervisores.py:73-82 | the form offers exactly the active supervisors and the caller's visible areas |
| Supervisores.SupervisoresSinArea | app/routes/supervisores.py:113-114 | every supervisor in the pool is active and heads no visible area, and every such supervisor is in the pool |
| Supervisores.SinAreaPorSupervisor | app/routes/supervisores.py:113-114 | the pool keeps table order and multiplicity: the pool of `a + b` is that of `a` then that of `b`; a qualifying supervisor appears as often as in the table |
| Supervisores.SupervisoresPorArea | app/routes/supervisores.py:101-110 | the dictionary has exactly the visible areas' keys, each with its area and its supervisor or none |
| Supervisores.NombradoSiDirige | app/routes/supervisores.py:114 | a supervisor is named in the dictionary exactly when it heads a visible area |
| Supervisores.GestionarAsignacionesSupervisores | app/routes/supervisores.py:89-114 | gate; the dictionary as above, and the pool equals `SupervisoresSinArea` |
| Supervisores.AsignadoSaleDelPool | app/routes/supervisores.py:66-114 | right after a supervisor is assigned to a visible area, it is not in the unassigned pool |
| Usuarios.ListarUsuarios | app/routes/usuarios.py:11-16 | refused exactly for a non-admin; otherwise every user |
| Usuarios.CrearUsuario | app/routes/usuarios.py:23-38 | admin only; a taken username or email is a database fault with no change; otherwise exactly one active user without a farm is added |
| Usuarios.ConFinca | app/routes/usuarios.py:55 | the target user gets the farm or none; every other user is unchanged |
| Usuarios.ConFincaUltimaGana | app/routes/usuarios.py:55 | of two farm assignments to the same user, the last one stands |
| Usuarios.ConFincaSinCambio | app/routes/usuarios.py:55 | re-assigning a user's current farm changes nothing |
| Usuarios.AsignarUsuarioFinca | app/routes/usuarios.py:48-56 | admin only; an unknown user is not-found with no change; otherwise only that user's farm is written |
| Fincas.FincasActivas | app/routes/fincas.py:15 | exactly the active farms |
| Fincas.ListarFincas | app/routes/fincas.py:11-16 | refused exactly for a non-admin; otherwise exactly the active farms |
| Fincas.CrearFinca | app/routes/fincas.py:23-34 | admin only, else no change; an admin adds exactly one active farm with the given fields |
| Fincas.CreadaEnLista | app/routes/fincas.py:15-34 | a newly created farm appears at the end of the farm listing |
| Legacy.LegacyStore.constructor | app.py:71-79 | an empty legacy database satisfies its constraints |
| Legacy.LegacyStore.AddArea | app.py:45-52 | a new area gets the next key and is active; only the area table grows |
| Legacy.LegacyStore.AddCodigo | app.py:71-79 | a new code with an unused code string and an area gets the next key; the global uniqueness of `codigo` still holds, and so does a NOT NULL `area_id` column |
| Legacy.LegacyStore.SetCodigoArea | app.py:77 | writing `area_id` changes that one field of that one row and keeps a NOT NULL `area_id` column intact |
| Legacy.ListarAreasLegacy | app.py:152-160 | admin: the areas whose farm exists (inner join), active or not; a non-admin with a farm: that farm's areas, active or not; without a farm: none |
| Legacy.FilterFilter | app.py:153 | filtering twice is filtering once by both conditions |
| Legacy.VivaEsLegacyActiva | app.py:152-160 | where every farm exists, the live listing is the legacy listing minus the inactive areas |
| Legacy.Numericas | app.py:187-189 | each token is a piece that `isdigit()` accepts, and every such piece is a token |
| Legacy.NumericasEsFilter | app.py:187-189 | the legacy tokens are the pieces filtered by `num.isdigit()` |
| Legacy.NumericasPorPieza | app.py:184-196 | one token per all-digit piece, in order and with repeats: the tokens of `a + b` are those of `a` then those of `b`; an all-digit piece is a token as many times as it is a piece; a list of all-digit pieces is its own token list |
| Legacy.NumericasDeNoVacias | app.py:189 | dropping empty pieces first changes nothing, since `isdigit()` rejects the empty string |
| Legacy.TokensLegacySonVivasNumericas | app.py:184-189 | the legacy tokens are exactly the live tokens that are all digits |
| Legacy.CrearAreasNumeradas | app.py:185-196 | the loop adds exactly one area per all-digit token and counts them |
| Legacy.CrearAreaLegacy | app.py:164-211 | gate; comma list: the areas of `CrearAreasNumeradas`; single: one area; a missing farm is a database fault when a row would be added |
| Legacy.FaltantesLegacy | app.py:441-443 | every missing code is a listed code that no row carries, whatever its farm, and every such code is missing |
| Legacy.FaltantesLegacyEsFilter | app.py:437-443 | the missing codes are the listed codes filtered by the loop's existence check |
| Legacy.FaltantesLegacyPorCodigo | app.py:437-454 | the loop goes in list order: the missing codes of `a + b` are those of `a` then those of `b`; a code no row carries is missing as many times as it is listed |
| Legacy.FilasLegacyAppend | app.py:444-450 | one more missing code adds one row with the next key |
| Legacy.ExisteConFilas | app.py:441 | rows added for other codes do not change whether a code exists |
| Legacy.PasoRangoLegacy | app.py:437-454 | one loop step: the check sees the original table, and the missing list grows by the code exactly when it was missing |
| Legacy.PasoCrearLegacy | app.py:438-454 | one iteration adds the row for the k-th code exactly when no row has that code string |
| Legacy.CrearListaLegacy | app.py:437-456 | the loop adds one row per missing code, in order; created + skipped = number of codes |
| Legacy.CrearCodigosRangoLegacy | app.py:428-469 | a malformed range is an error with no insert; with no area, any insert violates NOT NULL and the whole range rolls back; otherwise as in the live handler, with duplicates checked across all farms |
| Legacy.CrearCodigoUnicoLegacy | app.py:472-500 | an existing code string is rejected; no area is a database fault; otherwise exactly one row is added |
| Legacy.CrearCodigoLegacy | app.py:404-502 | gate; no farm is resolved; a malformed range is its error; a parsed range without area is a database fault if it would insert anything, else a warning; with an area, the missing codes' rows are added and the outcome is success iff one was created, else a warning, with the skipped count; the single branch as `CrearCodigoUnicoLegacy` |
| Legacy.RangoLegacyNoDuplica | app.py:437-456 | range provisioning keeps every code string unique |
| Legacy.FaltantesLegacyDistintos | app.py:437-443 | the missing codes of a repetition-free list are repetition-free |
| Legacy.TodosAlArea | app.py:518-521 | every code without area gets the chosen area; codes that have one are unchanged |
| Legacy.SinAreaCountCero | app.py:518-524 | the number of unassigned codes is zero exactly when every code has an area |
| Legacy.AsignarTodosLegacy | app.py:507-525 | gate; every code without area moves to the chosen area; the count is how many there were; codes with an area are untouched |
| Legacy.AsignarTodosSinEfecto | app.py:518-524 | under the NOT NULL `area_id` column the legacy bulk assignment moves nothing and reports 0 |
| Legacy.TodosAlAreaIdempotente | app.py:518-521 | a second bulk assignment changes nothing |
| Legacy.AsignarCodigoAreaLegacy | app.py:571-600 | gate; not-found exactly when the code or the area does not resolve; a resolvable request succeeds with count 1 and moves only that code when the caller may write into the area; otherwise it is rejected as another farm's |
| Legacy.PrimeroActivo | app.py:94 | `filter_by(username=..., activo=True).first()`: the first active user with that name; none exactly when no such user exists |
| Legacy.Login | app.py:94-103 | the session changes only to an active user of that name whose password checks; with unique usernames, such a user always logs in |
| Legacy.InactivoNoEntra | app.py:94-103 | with no active user of that name, the session is unchanged |

## Left out

- Flask rendering, `flash` texts, `redirect`, `url_for` and the debug `print`s: each handler returns an `Outcome` or a page in their place.
- The session and `app/routes/auth.py`: the caller is given as `(rol, finca_id)`. The "not logged in" redirect is not modelled.
- Password hashing: the hash is an input of `Usuarios.CrearUsuario`, and the hash check is the function parameter `verifica` of `Legacy.Login`.
- Timestamps (`fecha_creacion`, `fecha_ultimo_acceso`): not stored.
- SQLAlchemy transactions, autoflush and rollback: each handler is all-or-nothing. A database refusal (NOT NULL, a unique column) is `Failure(DatabaseFault)` with the store unchanged. Concurrent requests are not modelled.
- Foreign keys are not enforced; a form id is taken as already parsed to a key ≥ 1. A non-numeric form id, and the error it would raise, is not modelled. Neither is a missing form field (`KeyError`).
- Text.ParseNat: models `int()` on ASCII decimal digits with ASCII whitespace around them. Signs, underscores, Unicode digits and Unicode whitespace are not modelled. A `-` cannot reach it, since a parsed range holds exactly one `-`. A leading `+` can: `Codigos.CrearCodigo` and `Legacy.CrearCodigoLegacy` reject a range such as `+1-3`, which the source accepts as `1..3`.
- Legacy.Numericas: `str.isdigit()` is modelled on ASCII digits only; Unicode digits such as `²` are not.
- Text.RangeCodes: the bounds are naturals, since a range with exactly one `-` can have no negative half.
- The GET pages of `crear_codigo`, `crear_area`, `crear_usuario`, `asignar_usuario_finca` and `crear_finca` only render a form of active farms or areas. They are not modelled.
- Legacy listings and summaries outside the provisioning and assignment core: `listar_fincas` (app.py:114-120, no admin gate, inactive farms listed), `listar_supervisores` (app.py:223-229, no role gate, no active filter), `listar_codigos` (app.py:392-402, every code to every caller) and `gestionar_asignaciones_codigos` (app.py:538-569, per-area codes not filtered on `activo`). They differ from the live ones and are not modelled.
- Legacy `crear_finca`, `crear_supervisor`, the three user handlers and `gestionar_asignaciones_areas` (app.py:122-143, 231-253, 334-389, 615-649): the same logic as the live handlers, not modelled a second time.
- Keys: one counter `nextId` serves all five tables, where each table has its own autoincrement. Keys stay unique within each table, but their values differ from the database's: the first area of a store that already holds a farm gets key 2, not 1. "The next key" in the table above means this shared counter.
- The idempotent admin provisioning at start-up (app.py:651-668): start-up code, not a request handler.
- Legacy.CrearCodigosRangoLegacy: the NOT NULL failure is modelled as a fault whenever at least one row would be inserted. The exact moment autoflush raises it is not modelled.
- Areas.CrearArea: a missing farm is modelled as `Failure(DatabaseFault)` with no row added. In the source the resulting database error is not caught.
- `app/__init__.py`, the configuration files, `main.py` and the top-level maintenance scripts: wiring and I/O, with no domain logic.
