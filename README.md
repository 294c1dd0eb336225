# Clinova client logic in Dafny

Clinova is a web application for a therapy practice. Patients browse therapists and book one-hour sessions in a therapist's weekly template. Therapists confirm or reject those sessions and record diagnoses. Administrators assign user roles. This project models the sequential client-side logic of those screens and proves properties of it.

- **Session booking (`AgendarSesion`)** has four parts:
  - it turns a `YYYY-MM-DD` date into a Monday-first weekday key (`lunes` … `domingo`);
  - it finds the Monday of a week and the date of each day button;
  - it builds the list of free blocks for the chosen day;
  - it guards submission and builds the request body.

  The component state is the class `AgendarSesion.BookingWidget`. The class runs the corrected availability effect (see Findings): it clears the selection on both paths of the effect. With that effect, its invariant is that the selected block is either nothing or one of the offered blocks. The component as written does not keep this invariant.
- **Weekly grid (`VistaHorario`)**: clicking a cell toggles its entry in the `selectedCells` map. A selected cell's corners are rounded according to which of its neighbours are selected.
- **Therapist directory (`VistaTerapeutas`)**: the de-duplicated list of therapy types, and the name and type filter.
- **Sessions page (`VistaSesiones`)**:
  - the list query is chosen from the user's role;
  - a returned session replaces the entries with its id;
  - the list is split into pending and confirmed sessions;
  - action buttons are shown depending on status and role;
  - the page shows loading, an error, an empty list or the groups, in that order of precedence.
- **User administration (`VistaUsuarios`)**: one user's role is updated inside the list. The role selector's enabled state and options are derived from the user's current role.
- **Profile editor (`subcomponents/PopupEditarUsuario`)**:
  - the fields start from the stored profile;
  - the `isChanged` check decides whether the profile can be saved;
  - saving sends a profile update, then a therapist-type update.
- **Diagnosis form (`subcomponents/PopupDiagnostico`)**:
  - each field is stored trimmed;
  - `isFormValid` decides whether the form can be submitted;
  - the error message is chosen from the outcome of the request.

Four helper modules model the platform pieces these components use:

- `Wrappers` provides `Option`, which stands for `null` and `undefined`.
- `Seqs` provides `Array.prototype.filter` and `map`, and sequence order.
- `JsString` models `String(n)`, `padStart(2, '0')`, `split`, `Number` and `parseInt` on digit strings, `toLowerCase`, `includes` and `trim`.
- `CivilDate` models proleptic Gregorian civil dates. It covers the `new Date(y, m, d)` constructor with its carrying of out-of-range parts, `getDay()` and `setDate(n)`. Day 0 is 0001-01-01, a Monday.

Network requests are not modelled. Their responses and outcomes are method parameters. The current date (`new Date()`) is also a parameter.

## Model

| member | source | states |
|---|---|---|
| AgendarSesion.HoursOfBlocks | app/main/components/AgendarSesion.jsx:9 | `hours` has 12 entries and entry `i` is hour `i + 8`, so block `b`'s payload starts at `Hours[b - 1]`, which is hour `7 + b` |
| AgendarSesion.WeekdayIndex | app/main/components/AgendarSesion.jsx:27 | the Monday-first weekday is in 0..6 and agrees with the date's day count (0 on Mondays) |
| AgendarSesion.MondayOffsetIsWeekdayIndex | app/main/components/AgendarSesion.jsx:27 | a `getDay()` of 0 (Sunday) maps to `domingo`; any other `getDay()` maps to `getDay() - 1`, so Monday is `lunes`; getMonday's `(getDay() + 6) % 7` is the same index |
| AgendarSesion.ParseLocalDate | app/main/components/AgendarSesion.jsx:25-26 | `split('-').map(Number)` then `new Date(y, m - 1, d)`: whenever every field is a number it yields a valid calendar date; `None` stands for the Invalid Date |
| AgendarSesion.FormatDateIsFullDate | app/main/components/AgendarSesion.jsx:35-40 | for years 1000..9999 `formatDate` writes an RFC 3339 full-date whose fields read back as the year, the 1-based month and the day |
| AgendarSesion.FormatDateSplits | app/main/components/AgendarSesion.jsx:35-40 | splitting the formatted text on '-' gives exactly the year's digits and the zero-padded month and day |
| AgendarSesion.FullDateFields | app/main/components/AgendarSesion.jsx:39 | a 4-, 2- and 2-digit field joined by '-' is a full-date whose slices are those fields |
| AgendarSesion.DigitFieldsSplit | app/main/components/AgendarSesion.jsx:25 | three digit fields joined by '-' split back into exactly those three fields |
| AgendarSesion.ParseDigitFields | app/main/components/AgendarSesion.jsx:25 | `map(Number)` on three joined digit fields gives their three values |
| AgendarSesion.ParseFormatted | app/main/components/AgendarSesion.jsx:25-26 | parsing a formatted date with a non-negative year gives `new Date(year, month - 1, day)` |
| AgendarSesion.FormatParseRoundTrip | app/main/components/AgendarSesion.jsx:25-40 | parsing what `formatDate` wrote gives back the same calendar date, for every year from 100 on |
| AgendarSesion.TwoDigitYearRoundTrip | app/main/components/AgendarSesion.jsx:25-40 | for years 0..99 the round trip lands 1900 years later, because the `Date` constructor reads such years as 19xx |
| AgendarSesion.GetMonday | app/main/components/AgendarSesion.jsx:43-49 | the result is a Monday that lies on the input date or at most six days before it, exactly its Monday-first weekday index days before |
| AgendarSesion.BaseDate | app/main/components/AgendarSesion.jsx:53-59 | the base date is today when `fecha` is empty, otherwise the parsed `fecha`, and it is a valid date whenever it exists |
| AgendarSesion.DayOfWeekOf | app/main/components/AgendarSesion.jsx:60-63 | `monday.setDate(monday.getDate() + i)` is exactly `i` days after the Monday |
| AgendarSesion.DayOfWeekOfWeekday | app/main/components/AgendarSesion.jsx:60-63 | the date `i` days after the Monday falls on Monday-first weekday `i mod 7` |
| AgendarSesion.DayOfWeekInWeek | app/main/components/AgendarSesion.jsx:60-63 | for `i` in 0..6 that date is on weekday `i` and inside the base date's week |
| AgendarSesion.GetDateForDay | app/main/components/AgendarSesion.jsx:52-64 | `getDateForDay(i)` exists exactly when the base date does and is day `i` of the base date's week |
| AgendarSesion.DayButtonDateInWeek | app/main/components/AgendarSesion.jsx:52-64 | each day button's date lies in the Monday-to-Sunday week of the base date, on the button's weekday |
| AgendarSesion.SelectedDayFor | app/main/components/AgendarSesion.jsx:22-32 | a date change selects a key of `daysOfWeekLower`, or nothing; an empty value sets `selectedDay` to null |
| AgendarSesion.SelectedDayOfDate | app/main/components/AgendarSesion.jsx:24-28 | a formatted date selects the key of its own weekday, and a Sunday selects `domingo` |
| AgendarSesion.DateOfWeekdaySelectsKey | app/main/components/AgendarSesion.jsx:24-28 | a date on weekday `i` selects key `i` once formatted and parsed again |
| AgendarSesion.DayButtonDateMatchesKey | app/main/components/AgendarSesion.jsx:185-188 | the date day button `i` writes into `fecha` is one whose own weekday key is the `dl` the button selects |
| AgendarSesion.OccupiedMembership | app/main/components/AgendarSesion.jsx:112-114 | a block is in `ocupados` exactly when a `listed` entry books it for the selected day |
| AgendarSesion.ActiveMembership | app/main/components/AgendarSesion.jsx:109-111 | a block is in `activos` exactly when the day's template holds it enabled |
| AgendarSesion.FreeBlocksMembership | app/main/components/AgendarSesion.jsx:109-115 | a block is offered exactly when it is enabled that day and no entry books it for that day |
| AgendarSesion.FreeBlocksKeepOrder | app/main/components/AgendarSesion.jsx:115 | the offered blocks are a subsequence of the enabled blocks, in template order |
| AgendarSesion.ActiveCount | app/main/components/AgendarSesion.jsx:109-111 | `activos` lists a block as often as the day's template lists it enabled |
| AgendarSesion.FreeBlocksCount | app/main/components/AgendarSesion.jsx:109-115 | the offer lists a block as often as the template lists it enabled when nothing books it that day, and not at all otherwise, so repeated template entries are offered repeatedly |
| AgendarSesion.FreeBlocksUnique | app/main/components/AgendarSesion.jsx:109-115 | order and counts pin the offer down: every subsequence of the enabled blocks with the counts of FreeBlocksCount is the offer |
| AgendarSesion.FreeBlocksDependOnlyOnBookedSet | app/main/components/AgendarSesion.jsx:112-115 | two `listed` lists that book the same blocks for the day yield the same offer: order, duplicates and other days do not matter |
| AgendarSesion.DuplicateReservationNoEffect | app/main/components/AgendarSesion.jsx:112-115 | appending an entry that is already listed changes nothing |
| AgendarSesion.FreeBlocksUnbooked | app/main/components/AgendarSesion.jsx:109-115 | with nothing booked for the day every enabled block is offered, in template order |
| AgendarSesion.FullDayOffersAllBlocks | app/main/components/AgendarSesion.jsx:109-115 | a day with blocks 1..12 all enabled and none booked offers exactly 1..12 |
| AgendarSesion.FullyBookedOffersNothing | app/main/components/AgendarSesion.jsx:109-115 | when every enabled block is booked nothing is offered |
| AgendarSesion.AsWrittenKeepsStaleSelection | app/main/components/AgendarSesion.jsx:105-107 | the effect's early return, as written, can leave a selected block that is no longer offered |
| AgendarSesion.AvailabilityEffect | app/main/components/AgendarSesion.jsx:104-117 | after a recomputation no block is selected, so the selection invariant holds; with no day or template nothing is offered |
| AgendarSesion.AvailabilityVersionsAgree | app/main/components/AgendarSesion.jsx:108-116 | with a day and template present, the corrected effect and the code as written produce the same state |
| AgendarSesion.DayButtonEnabledIff | app/main/components/AgendarSesion.jsx:190 | a day button is enabled exactly when that day has at least one enabled block |
| AgendarSesion.TimeStampRoundTrip | app/main/components/AgendarSesion.jsx:129-130 | `${fecha}T${pad2(h)}:00` reads back as the date text and the hour, for hours 0..99 |
| AgendarSesion.StampParts | app/main/components/AgendarSesion.jsx:129 | a two-digit hour between `T` and `:00` reads back with its date prefix |
| AgendarSesion.PayloadHours | app/main/components/AgendarSesion.jsx:125-134 | `hora_inicio` is the chosen date at the hour the block's grid row shows and `hora_final` one hour later; `dia`, `bloque`, `fecha`, `motivo` and the ids are the chosen ones |
| AgendarSesion.CanSubmitMeansPresent | app/main/components/AgendarSesion.jsx:119 | with keys from `daysOfWeekLower` and blocks 1..12, `canSubmit` holds exactly when ids, day, block, date and reason are present and nothing is being submitted |
| AgendarSesion.BookingWidget.constructor | app/main/components/AgendarSesion.jsx:11-19 | every state starts empty, null or false, and the invariant holds |
| AgendarSesion.BookingWidget.ReceiveIds | app/main/components/AgendarSesion.jsx:74 | the ids response is stored; the invariant is kept |
| AgendarSesion.BookingWidget.ReceiveHorario | app/main/components/AgendarSesion.jsx:85 | the template response is stored; the invariant is kept |
| AgendarSesion.BookingWidget.ReceiveListed | app/main/components/AgendarSesion.jsx:99 | the bookings response is stored; the invariant is kept |
| AgendarSesion.BookingWidget.ListedEffect | app/main/components/AgendarSesion.jsx:90-101 | a fetch happens exactly when ids and a date are present; otherwise `listed` is emptied |
| AgendarSesion.BookingWidget.RecomputeAvailability | app/main/components/AgendarSesion.jsx:104-117 | the new offer and selection are those of the corrected effect, so the selected block is null or offered |
| AgendarSesion.BookingWidget.FechaChange | app/main/components/AgendarSesion.jsx:22-32 | `fecha` becomes the value and `selectedDay` the key derived from it; the invariant is kept |
| AgendarSesion.BookingWidget.SelectDay | app/main/components/AgendarSesion.jsx:185-190 | an enabled button sets the day key and writes its week date into `fecha`; a disabled one changes nothing |
| AgendarSesion.BookingWidget.SelectBlock | app/main/components/AgendarSesion.jsx:204-212 | a block button selects its block only when that block is offered, so the selection invariant is kept |
| AgendarSesion.BookingWidget.SetMotivo | app/main/components/AgendarSesion.jsx:229 | the reason becomes the typed text |
| AgendarSesion.BookingWidget.BeginSubmit | app/main/components/AgendarSesion.jsx:119-134 | a request is built exactly when `canSubmit` holds, and it is the payload for the chosen block; otherwise nothing changes |
| AgendarSesion.BookingWidget.FinishSubmit | app/main/components/AgendarSesion.jsx:143-155 | whatever the outcome, `submitting` is false again; the alert is the outcome's message and the popup closes only on success |
| CivilDate.NewDate | app/main/components/AgendarSesion.jsx:26 | `new Date(y, m, d)` always denotes a valid calendar date |
| CivilDate.NewDateDayNumber | app/main/components/AgendarSesion.jsx:26 | the constructed date is `d - 1` days after the first of the carried month |
| CivilDate.NewDateInRange | app/main/components/AgendarSesion.jsx:26 | with month and day in range the constructor builds exactly that date |
| CivilDate.GetDay | app/main/components/AgendarSesion.jsx:27 | `getDay()` is in 0..6 |
| CivilDate.EpochIsThursday | app/main/components/AgendarSesion.jsx:27 | `getDay()` of 1970-01-01 is 4 (Thursday), so the day count is anchored correctly |
| CivilDate.SetDate | app/main/components/AgendarSesion.jsx:46 | `setDate(n)` moves to day `n` counted from the first of the month, carrying across months |
| CivilDate.AddDays | app/main/components/AgendarSesion.jsx:62 | moving `n` days yields a valid date exactly `n` days later |
| CivilDate.DaysBeforeYearClosedForm | app/main/components/AgendarSesion.jsx:26 | the year-by-year day count equals the Gregorian closed form |
| JsString.NatToStringValue | app/main/components/AgendarSesion.jsx:36 | the decimal text of `n` reads back as `n` |
| JsString.NatToStringInjective | app/main/components/VistaHorario.jsx:14 | different numbers print differently |
| JsString.TwoDigitField | app/main/components/AgendarSesion.jsx:37-38 | `String(n).padStart(2, '0')` for `n` in 0..99 is two digits whose value is `n` |
| JsString.PadStart2Shape | app/main/components/AgendarSesion.jsx:37 | the padded text ends with the original and is filled with '0' in front |
| JsString.PadStart2Value | app/main/components/AgendarSesion.jsx:37 | padding a digit string keeps its value |
| JsString.SplitThree | app/main/components/AgendarSesion.jsx:25 | `split` undoes joining three separator-free fields |
| JsString.ParseIntOfString | app/main/components/VistaUsuarios.jsx:68 | `parseInt(String(n))` gives back `n` |
| JsString.Contains | app/main/components/VistaTerapeutas.jsx:45 | `includes` holds exactly when the needle occurs at some index |
| JsString.ToLower | app/main/components/VistaTerapeutas.jsx:44 | `toLowerCase` keeps the length and leaves no capital; each capital becomes the small letter 32 code points on, and every other character stays as it was |
| JsString.ToLowerIdempotent | app/main/components/VistaTerapeutas.jsx:44-45 | lowering a lowered text changes nothing, so lowering both the name and the search text is stable |
| JsString.Trim | app/main/components/subcomponents/PopupDiagnostico.jsx:19 | `trim` yields a contiguous piece of the input with no white space at either end, and everything it removes before and after that piece is white space |
| JsString.TrimIdempotent | app/main/components/subcomponents/PopupDiagnostico.jsx:19 | trimming twice is trimming once |
| JsString.TrimEmptyIff | app/main/components/subcomponents/PopupDiagnostico.jsx:24 | a text trims to '' exactly when it is all white space |
| Seqs.FilterIsSubsequence | app/main/components/VistaSesiones.jsx:73-74 | `filter` keeps the order of what it keeps |
| Seqs.FilterMembership | app/main/components/VistaSesiones.jsx:73-74 | a value is kept exactly when it is in the list and passes the test |
| Seqs.FilterCount | app/main/components/AgendarSesion.jsx:115 | `filter` keeps every occurrence of a value that passes the test and none of a value that fails it |
| Seqs.MapCount | app/main/components/AgendarSesion.jsx:111 | `map` lists an image as often as its only preimage occurs |
| Seqs.SubsequenceMultiset | app/main/components/AgendarSesion.jsx:115 | a subsequence holds no value more often than the sequence it comes from |
| Seqs.FilterUnique | app/main/components/AgendarSesion.jsx:115 | `filter` is the only subsequence holding every occurrence of the passing values and none of the others |
| VistaHorario.GridShape | app/main/components/VistaHorario.jsx:5-7 | the grid has 7 day columns and 12 hour rows, hours 8..19 |
| VistaHorario.RowLabel | app/main/components/VistaHorario.jsx:38 | a row's label starts with the row's hour |
| VistaHorario.RowLabelBounds | app/main/components/VistaHorario.jsx:38 | the label `${hour}:00 - ${hour + 1}:00` reads back as the pair (hour, hour + 1): the row starts at its hour and ends one hour later |
| VistaHorario.ConsecutiveRowsAdjoin | app/main/components/VistaHorario.jsx:36-38 | each row of the grid ends at the hour the next row starts |
| VistaHorario.CellKeyInjective | app/main/components/VistaHorario.jsx:14 | for day names without '-' two cells share a key exactly when they are the same cell |
| VistaHorario.GridKeysDistinct | app/main/components/VistaHorario.jsx:40 | the 84 grid positions have 84 distinct keys |
| VistaHorario.Toggle | app/main/components/VistaHorario.jsx:15-18 | the clicked key's truthiness flips and every other stored key keeps its value |
| VistaHorario.ToggleLeavesOtherCells | app/main/components/VistaHorario.jsx:13-19 | clicking one cell leaves every other grid cell's selected-ness unchanged |
| VistaHorario.ToggleTwice | app/main/components/VistaHorario.jsx:15-18 | clicking twice restores selected-ness; the map itself returns exactly when the key was already stored |
| VistaHorario.StyleRule | app/main/components/VistaHorario.jsx:43-56 | an unselected cell is `#A294F9` with no radius; a selected one is transparent and each corner is rounded iff neither adjoining neighbour is selected, off-grid neighbours counting as unselected |
| VistaHorario.IsolatedCellFullyRounded | app/main/components/VistaHorario.jsx:52-55 | a selected cell with no selected neighbour has four rounded corners |
| VistaHorario.HorizontalNeighboursJoin | app/main/components/VistaHorario.jsx:48-55 | two selected cells side by side are square along their shared edge |
| VistaHorario.VerticalNeighboursJoin | app/main/components/VistaHorario.jsx:50-55 | two selected cells one above the other are square along their shared edge |
| VistaHorario.OuterCornersRounded | app/main/components/VistaHorario.jsx:48-55 | the grid's four outer corners are rounded whenever their cell is selected |
| VistaHorario.WeeklyGrid.constructor | app/main/components/VistaHorario.jsx:10 | no cell starts selected |
| VistaHorario.WeeklyGrid.CellClick | app/main/components/VistaHorario.jsx:13-19 | the map becomes the old map with the cell's key toggled |
| VistaTerapeutas.Dedup | app/main/components/VistaTerapeutas.jsx:38-40 | `[...new Set(s)]` has no duplicates, the same values as `s`, in order of first appearance |
| VistaTerapeutas.TruthyTypesMembership | app/main/components/VistaTerapeutas.jsx:39 | the truthy types are exactly the non-empty `tipo_terapeuta` values |
| VistaTerapeutas.TiposUnicosSpec | app/main/components/VistaTerapeutas.jsx:38-40 | the type list has no duplicates and no empty entry, holds exactly the truthy types of the therapists, in order of first appearance |
| VistaTerapeutas.FiltradosSpec | app/main/components/VistaTerapeutas.jsx:43-48 | the shown therapists keep the fetched order; one is shown iff its lower-cased full name contains the lower-cased search and the selector is `todos` or its type |
| VistaTerapeutas.EmptySearchShowsAll | app/main/components/VistaTerapeutas.jsx:45-46 | an empty search with `todos` shows every therapist |
| VistaTerapeutas.TypeFilterNarrows | app/main/components/VistaTerapeutas.jsx:46 | a chosen type shows only therapists of that type |
| VistaSesiones.ChooseQuerySpec | app/main/components/VistaSesiones.jsx:13-28 | no uid or no user data gives `Datos de usuario no disponibles`; role 6 queries `paciente_id`, role 4 `terapeuta_id`, both with the uid; any other role is refused |
| VistaSesiones.ReplaceByIdSpec | app/main/components/VistaSesiones.jsx:49-51 | exactly the entries with the returned id are replaced; length and all other entries stay |
| VistaSesiones.ReplaceByIdIdempotent | app/main/components/VistaSesiones.jsx:49-51 | applying the same returned session twice equals applying it once |
| VistaSesiones.GroupsSpec | app/main/components/VistaSesiones.jsx:73-74 | both groups keep the list's order and hold exactly the sessions of their status; they are disjoint and cover the list iff every session is pending or confirmed |
| VistaSesiones.ActionsSpec | app/main/components/VistaSesiones.jsx:88-114 | Confirmar and Rechazar appear iff the session is pending and the viewer a therapist, Diagnosticar iff confirmed and a therapist; status-changing buttons appear only on pending sessions |
| VistaSesiones.RenderSpec | app/main/components/VistaSesiones.jsx:69-131 | loading wins over an error, an error over an empty list; otherwise at most two non-empty groups are shown, confirmed before pending; the "Confirmadas" section exists exactly when some session is confirmed and lists exactly the confirmed sessions, and the same holds for "Pendientes" and the pending sessions |
| VistaSesiones.OnlyRejectedShowsNothing | app/main/components/VistaSesiones.jsx:118-131 | a list holding only a rejected session shows no group at all |
| VistaSesiones.SessionsView.constructor | app/main/components/VistaSesiones.jsx:7-11 | the page starts loading with no sessions, no error and no popup |
| VistaSesiones.SessionsView.LoadEffect | app/main/components/VistaSesiones.jsx:13-28 | a refused query ends loading with its message and sends nothing; an allowed one sends its parameter |
| VistaSesiones.SessionsView.LoadResult | app/main/components/VistaSesiones.jsx:30-34 | the list is stored on success, the error text on failure; loading ends either way |
| VistaSesiones.SessionsView.UpdateEstado | app/main/components/VistaSesiones.jsx:37-56 | a returned session replaces entries by id; on failure the list is untouched and the alert is shown |
| VistaSesiones.SessionsView.OpenDiagnostico | app/main/components/VistaSesiones.jsx:58-61 | the session is selected and the form is shown |
| VistaSesiones.SessionsView.OnDiagnosticSuccess | app/main/components/VistaSesiones.jsx:63-67 | the form closes and the confirmation is shown |
| VistaUsuarios.SetRolSpec | app/main/components/VistaUsuarios.jsx:34-36 | exactly the users with the given `googleId` get the new role; their other fields, every other user and the length are unchanged |
| VistaUsuarios.SetRolLastWins | app/main/components/VistaUsuarios.jsx:34-36 | of two updates to the same user the later role is kept |
| VistaUsuarios.SetRolCommutes | app/main/components/VistaUsuarios.jsx:34-36 | updates to two different users commute |
| VistaUsuarios.RoleOptionsSpec | app/main/components/VistaUsuarios.jsx:71-78 | an admin row offers only 1, every other row only 4 and 6, each with a label |
| VistaUsuarios.RoleChangeNeverAdmin | app/main/components/VistaUsuarios.jsx:65-78 | a change is sent iff the selector is enabled (role not 1); it sends the row's id and the `parseInt` of the option, which is 4 or 6 and never the admin role |
| VistaUsuarios.UsersView.constructor | app/main/components/VistaUsuarios.jsx:6 | the list starts empty |
| VistaUsuarios.UsersView.ReceiveUsers | app/main/components/VistaUsuarios.jsx:13 | the fetched list is stored |
| VistaUsuarios.UsersView.ActualizarRol | app/main/components/VistaUsuarios.jsx:23-40 | once the response's JSON was read, whatever its status, the role is updated by id; when the request or parsing throws, the list is untouched |
| PopupEditarUsuario.IsChangedIff | app/main/components/subcomponents/PopupEditarUsuario.jsx:89-95 | the form is dirty iff the five profile fields, plus the type for therapists, differ from their initial values |
| PopupEditarUsuario.InitiallyUnchanged | app/main/components/subcomponents/PopupEditarUsuario.jsx:7-13 | each field starts at its stored value or '', so a fresh form is not dirty |
| PopupEditarUsuario.TipoIrrelevantUnlessTherapist | app/main/components/subcomponents/PopupEditarUsuario.jsx:95 | for a user whose role is not 4, changing the type never changes whether the form is dirty |
| PopupEditarUsuario.SingleEditDirty | app/main/components/subcomponents/PopupEditarUsuario.jsx:89-95 | one edit of a fresh form makes it dirty iff the new value differs from the stored one |
| PopupEditarUsuario.WithField | app/main/components/subcomponents/PopupEditarUsuario.jsx:106-151 | an input's change sets its own field and leaves the other five |
| PopupEditarUsuario.SaveEnabledIff | app/main/components/subcomponents/PopupEditarUsuario.jsx:166 | a fresh form cannot be saved; when not loading, saving is enabled iff a compared field differs from its stored value |
| PopupEditarUsuario.SaveFlow | app/main/components/subcomponents/PopupEditarUsuario.jsx:28-86 | the profile update carries exactly the five fields; the type update follows only after a JSON ok response, for role 4 with a non-empty type; success needs every sent update to succeed, else the fixed failure message |
| PopupEditarUsuario.EditUserPopup.constructor | app/main/components/subcomponents/PopupEditarUsuario.jsx:7-16 | the fields start from the profile, not loading, no message, and the form is not dirty |
| PopupEditarUsuario.EditUserPopup.Edit | app/main/components/subcomponents/PopupEditarUsuario.jsx:106-151 | the named field takes the new value |
| PopupEditarUsuario.EditUserPopup.Save | app/main/components/subcomponents/PopupEditarUsuario.jsx:28-86 | the requests and message are those of the save flow, the popup closes only on success, and loading is false on every exit |
| PopupDiagnostico.Values | app/main/components/subcomponents/PopupDiagnostico.jsx:24 | `Object.values(form)` has five entries |
| PopupDiagnostico.ValuesAreFields | app/main/components/subcomponents/PopupDiagnostico.jsx:24 | the values are exactly the five fields |
| PopupDiagnostico.WithField | app/main/components/subcomponents/PopupDiagnostico.jsx:20 | `{ ...prev, [name]: value }` sets the named field and leaves the other four |
| PopupDiagnostico.HandleChangeSpec | app/main/components/subcomponents/PopupDiagnostico.jsx:17-21 | the named field takes the trimmed input, the others are unchanged, and every stored value stays trimmed |
| PopupDiagnostico.IsFormValidByField | app/main/components/subcomponents/PopupDiagnostico.jsx:24 | the form is valid iff every field trims to a non-empty text |
| PopupDiagnostico.IsFormValidIff | app/main/components/subcomponents/PopupDiagnostico.jsx:24 | valid iff no field is empty or all white space; for stored (trimmed) values, iff none is empty |
| PopupDiagnostico.EmptyFormInvalid | app/main/components/subcomponents/PopupDiagnostico.jsx:7-13 | the five fields start empty, so the fresh form is trimmed and invalid |
| PopupDiagnostico.SubmitEnabledIff | app/main/components/subcomponents/PopupDiagnostico.jsx:133 | the fresh form cannot be submitted; when not loading, submission is enabled iff no field is blank |
| PopupDiagnostico.ErrorFor | app/main/components/subcomponents/PopupDiagnostico.jsx:41-53 | no error after a save; a refusal shows the server's `error` or `Error al guardar el diagnóstico`; a thrown error shows its message or `Ha ocurrido un error` |
| PopupDiagnostico.DiagnosticPopup.constructor | app/main/components/subcomponents/PopupDiagnostico.jsx:7-15 | the form starts empty and invalid, not loading, no error |
| PopupDiagnostico.DiagnosticPopup.Change | app/main/components/subcomponents/PopupDiagnostico.jsx:17-21 | the form becomes the trimmed single-field update, and the stored values stay trimmed |
| PopupDiagnostico.DiagnosticPopup.Submit | app/main/components/subcomponents/PopupDiagnostico.jsx:26-57 | the body is the session id plus the form; the error is the outcome's message; loading is false on every exit |

## Left out

- Network requests, `useEffect` scheduling and `console` logging are not modelled. Responses and outcomes are parameters of the methods.
- Late responses that overwrite newer state (AgendarSesion.jsx:67-101) are not modelled, because they depend on the ordering of concurrent requests.
- Between an `await` and its completion a handler briefly shows `loading` or `submitting` as true. The model does not capture that intermediate state: each handler is one method covering its start and its outcome, except the booking widget, which splits submission into `BeginSubmit` and `FinishSubmit`.
- The time of day, time zones, DST and the `Date` range limit of ±8.64e15 ms are not modelled. Dates are civil year, month and day, and "today" is a parameter.
- `getMonday`'s `setHours(0, 0, 0, 0)` has no counterpart, because the model has no time of day.
- `Number` is modelled only on decimal digit strings, including '' as 0. Signs, white space, exponents and hexadecimal give `None`, which stands for the NaN invalid date. A date input produces only `YYYY-MM-DD` anyway.
- JsString.ParseInt does not skip leading white space and does not read radix prefixes, as JavaScript's `parseInt` does. The role options it reads are always plain decimals.
- JsString.LowerChar lowers only ASCII and Latin-1 capitals. Other Unicode case mappings are not modelled.
- Rendering, CSS, `alert`, `toLocaleDateString` and `toLocaleTimeString` (VistaSesiones.jsx:76-86) are left out. The session record keeps only the fields the logic reads.
- The therapist-type list fetched in the profile editor (PopupEditarUsuario.jsx:19-26, 155-159) is left out. It only fills the options of the type selector.
- The `yup` library is modelled as ECMAScript `trim` (PopupDiagnostico.jsx:19). `yup.string().cast` on non-string input is not modelled.
- The `error` field of a refused diagnosis response is taken as an optional string. A non-string value is not modelled.
- VistaUsuarios.OnRoleChange: sends a change for every option chosen, including the one already selected. A DOM `change` event fires only when the value changes (VistaUsuarios.jsx:65-68), so the model over-approximates the events: choosing the current role sends an update that the page does not send.
- BookingWidget.RecomputeAvailability: also clears `selectedBlock` on the early-return path, where the component as written (AgendarSesion.jsx:105-107) keeps the previous block. The class follows the corrected effect (see Findings), so its selection invariant belongs to the corrected component, not to the code as written. The code as written is modelled by AgendarSesion.AsWrittenKeepsStaleSelection.
- `horario[selectedDay]` at AgendarSesion.jsx:109 throws when the day key is missing. The model states this as a precondition of the recomputation.
- The free blocks keep the order of the template, as the code does. They are not sorted.
- The hour mapping has no off-by-one: block `b` starts at `7 + b`, which is the hour of its grid row.
- The onClick guard `ok &&` (AgendarSesion.jsx:210) and `disabled` are one condition in the model. The block buttons exist only when a day is selected.

## Findings

| source | as written | input that shows it | evidently intended | confidence | as-written member | corrected member |
|---|---|---|---|---|---|---|
| app/main/components/AgendarSesion.jsx:105-107 | when `selectedDay` or `horario` is missing the effect empties `availableBlocks` and returns before `setSelectedBlock(null)`, so the earlier selection survives | block 3 selected, then the date is cleared (`selectedDay` becomes null): `availableBlocks` is `[]` but `selectedBlock` is still 3 | the selection is cleared on both paths, so `selectedBlock` is always null or an offered block | not executed | AgendarSesion.AsWrittenKeepsStaleSelection | AgendarSesion.AvailabilityEffect |
