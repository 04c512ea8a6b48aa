# Padel club front end: the decision logic, modelled in Dafny

This project models the pure decision logic embedded in the Angular components and
services of a padel club and coaching web application, and the small Python script that
strips the old top header from its HTML pages. Every piece is a pure function over plain
records: times of day are minute counts read from and written as "HH:MM" strings, dates
are opaque "YYYY-MM-DD" strings, HTTP calls, dialogs and the browser storage become
inputs and outputs.

The modules follow the program:

- Shared modules:
  - `Wrappers`: `Option` and `Result`.
  - `Text`: JavaScript string and number behaviour, such as `split`, `includes`, `toLowerCase`, `padStart`, `Number`, `parseInt` and `||` defaulting.
  - `Clock`: "HH:MM" parsing and rendering, and the weekday mapping.
  - `Lists`: filter, find, take, de-duplication by key and page slicing.
  - `Sorting`: a stable insertion sort standing in for `Array.prototype.sort`, which ECMAScript 2019 and later require to be stable.
  - `Uri`: `encodeURIComponent`.
  - `UserSearch`: the five-suggestion user search.
- One module per page or service:
  - `ClubReservas`, `DisponibilidadEntrenador`, `JugadorReservas`, `EntrenadorAgendar` and `HourlyBlocks`. `HourlyBlocks` holds the hourly grid that the last two share.
  - `EntrenadorAgenda`, `EntrenadorHome`, `ClubesJugador`, `JugadorCalendario`.
  - `TorneoGestion`, `TorneoAmericano`, `TorneoJugador`.
  - `JugadorPacks`, `MisHabilidades`, `EntrenadorPacks`, `Alumnos`, `AlumnoMisPacks`, `NuevaEvaluacion`.
  - `Perfil`, `HomeStats`, `Landing`, `Register`, `Login`, `ResetPassword`, `ClubAdmin`.
  - `PopupService`, `Storage`, `AuthService`, `ApiService`, `Routes`.
  - `RemoveHeaders`.

Each operation's contract states what the page promises. Lemmas connect each operation
to a partner: an inverse, a preserved invariant, or an independent description of the
same result.

## Model

| member | source | states |
|---|---|---|
| Clock.ParseFormatTime | src/app/pages/club-reservas/club-reservas.component.ts:291-298 | a minute count written "HH:MM" with two-digit padding, followed by nothing or by ":"-separated seconds, reads back as the same count both with `split(':').map(Number)` and with `parseInt` on the fields |
| Clock.ReadBack | src/app/pages/club-reservas/club-reservas.component.ts:212-216 | any minute count rendered "HH:MM" reads back as itself with either field reading |
| Clock.FormatTimeWidth | src/app/pages/club-reservas/club-reservas.component.ts:267-268 | below 100 hours a rendered time is exactly five characters, so `substring(0, 5)` keeps all of it |
| Clock.FormatTimeOrder | src/app/pages/entrenador-home/entrenador-home.component.ts:138 | below 100 hours, two rendered times compare as strings exactly as their minute counts compare, so sorting by the "HH:MM" text sorts by time |
| Clock.JsDayToDbDay | src/app/pages/entrenador-home/entrenador-home.component.ts:124-125 | a JavaScript weekday (0 = Sunday) maps into 0..6 and the next day of the mapped value is the JavaScript weekday again, so Monday is 0 and Sunday is 6 |
| Clock.LooseOnDigits | src/app/pages/clubes-jugador/clubes-jugador.component.ts:132-133 | on a non-empty run of digits `parseInt` and `Number` read the same value |
| ClubReservas.TimeSlots | src/app/pages/club-reservas/club-reservas.component.ts:151-157 | eighteen slots; slot i is hour 6+i written "HH:00" and reads back as (6+i)·60 minutes; the slots are strictly ascending as strings |
| ClubReservas.ReservaInSlot | src/app/pages/club-reservas/club-reservas.component.ts:204-220 | a found reservation is on the court and not 'Cancelada', it is the first of the list covering the slot's minute in [start, end), and nothing is found exactly when no reservation covers it |
| ClubReservas.CoveredSlots | src/app/pages/club-reservas/club-reservas.component.ts:204-220 | a non-cancelled reservation from `start` to `end` covers the slot at minute `slot` of its court exactly when start ≤ slot < end |
| ClubReservas.ClassOf | src/app/pages/club-reservas/club-reservas.component.ts:228-232 | blocked exactly for 'Bloqueada'; administrator's exactly when not blocked, without a truthy `usuario_id` and with an external name; player's otherwise |
| ClubReservas.EditForm | src/app/pages/club-reservas/club-reservas.component.ts:264-276 | the form holds the first five characters of both times, a duration equal to the span between the cut times, and every other field of the reservation unchanged |
| ClubReservas.EditFormTimes | src/app/pages/club-reservas/club-reservas.component.ts:264-273 | a reservation stored from minute s to minute e (with or without seconds) opens with its start reading as s and a duration of e − s |
| ClubReservas.EditThenSaveKeepsEnd | src/app/pages/club-reservas/club-reservas.component.ts:264-273 | opening a stored reservation and saving it unchanged writes back its end time "HH:MM": the duration the form derives gives back the end it came from |
| ClubReservas.Drop | src/app/pages/club-reservas/club-reservas.component.ts:286-305 | nothing happens without a dragged reservation; otherwise only the court, the start and the end change, the court and start being the drop target's |
| ClubReservas.DropEnd | src/app/pages/club-reservas/club-reservas.component.ts:290-298 | where the old times and the new start read, the new end is the rendering of the new start plus the old length |
| ClubReservas.DropKeepsDuration | src/app/pages/club-reservas/club-reservas.component.ts:286-305 | a moved reservation lasts as long as it did before the move (new end − new start = old end − old start) |
| ClubReservas.SetSlotId | src/app/pages/club-reservas/club-reservas.component.ts:332-335 | writes the id of one player field and leaves the other three ids, all four names and every other field unchanged |
| ClubReservas.SetSlotName | src/app/pages/club-reservas/club-reservas.component.ts:344-356 | writes the name of one player field and leaves the other three names, all four ids and every other field unchanged |
| ClubReservas.SearchUsers | src/app/pages/club-reservas/club-reservas.component.ts:319-341 | a blank name in the active field only clears the suggestions; otherwise the active field's player id becomes 0, no other player field changes, and the suggestions are the look-up's (at most five) for that name |
| ClubReservas.SelectUser | src/app/pages/club-reservas/club-reservas.component.ts:343-358 | the chosen user's id and name fill the active player field and no other; the suggestions are cleared |
| ClubReservas.CrearReserva | src/app/pages/club-reservas/club-reservas.component.ts:360-399 | refused exactly when court or start is missing; then refused exactly for a 'Confirmada' reservation with neither player-1 name nor id; a 'Bloqueada' one is saved with the block name, all four player ids null and price 0 and every other field as it was; any other is saved unchanged but for its end; the end is the start plus the duration; update exactly when it has an id |
| ClubReservas.HoraFinReads | src/app/pages/club-reservas/club-reservas.component.ts:393-397 | a start reading as minute h and a duration of d minutes give the end rendered from h + d, which reads back as h + d (no wrap past midnight) |
| ClubReservas.SavedEndReads | src/app/pages/club-reservas/club-reservas.component.ts:392-397 | the saved end time reads back as the start plus the duration |
| ClubReservas.SavedBlockIsBlocked | src/app/pages/club-reservas/club-reservas.component.ts:383-390 | a saved administrative block shows on the grid as a blocked slot |
| ClubReservas.ResetForm | src/app/pages/club-reservas/club-reservas.component.ts:422-445 | the empty form: first court of the club or 0, the selected date, no times, no id, 90 minutes, 'Confirmada', price 0, paid 1, every player field id 0 and name '', player field 1 active, empty search term |
| ClubReservas.ResetFormIsIncomplete | src/app/pages/club-reservas/club-reservas.component.ts:360-369 | a freshly reset form has no start time, so saving it is refused |
| UserSearch.Search | src/app/pages/club-reservas/club-reservas.component.ts:326-340 | none for a blank term; otherwise the first five users, in list order, whose nombre or usuario contains the term case-insensitively (all of them when fewer) |
| UserSearch.SearchKeepsOrder | src/app/pages/torneo-americano/torneo-americano.component.ts:112-121 | the suggestions keep the order of the user list |
| UserSearch.CaseDoesNotMatter | src/app/pages/club-reservas/club-reservas.component.ts:337-339 | a user matches a term exactly when it matches the lower-cased term |
| UserSearch.LaterUsersComeLast | src/app/pages/club-reservas/club-reservas.component.ts:337-340 | users added at the end of the list never displace a suggestion: the suggestions for the longer list start with those for the shorter one, and are the same once five were found |
| Text.Split | src/app/pages/club-reservas/club-reservas.component.ts:205 | `split` gives at least one piece |
| Text.SplitJoin | src/app/pages/club-reservas/club-reservas.component.ts:205 | joining the pieces of `split` with the separator gives the string back, and no piece contains the separator |
| Text.FindFirst | src/app/pages/entrenador-agenda/entrenador-agenda.component.ts:99 | `indexOf`/`includes`: a found position is an occurrence with none before it; none found only when there is no occurrence |
| Text.ParseIntPrefix | src/app/pages/club-reservas/club-reservas.component.ts:394 | `parseInt` gives a number exactly when the text starts with a digit |
| Text.NumberOf | src/app/pages/club-reservas/club-reservas.component.ts:205 | on the strings the pages feed it: `Number` of a string of decimal digits (the empty one included) is its value, and of any other string `NaN` (see Left out for the JavaScript forms this does not cover) |
| Text.DigitsValueOfDecimal | src/app/pages/club-reservas/club-reservas.component.ts:154 | reading back the decimal rendering of a natural number gives the number |
| Text.PadStartShape | src/app/pages/club-reservas/club-reservas.component.ts:154 | `padStart(n, '0')` only puts zeros in front, up to length n |
| Text.LexLeTotal | src/app/pages/jugador-reservas/jugador-reservas.component.ts:112 | string order is total |
| Text.LexLeTrans | src/app/pages/jugador-reservas/jugador-reservas.component.ts:112 | string order is transitive |
| Text.AdministradorIsAdmin | src/app/pages/entrenador-home/entrenador-home.component.ts:47 | a role containing 'administrador' contains 'admin', so the second test adds nothing |
| Lists.Filter | src/app/pages/jugador-packs/jugador-packs.component.ts:163-172 | `filter` keeps exactly the list's elements satisfying the condition, never more of them than the list holds |
| Lists.FilterIsSubseq | src/app/pages/jugador-packs/jugador-packs.component.ts:163-172 | a filter keeps the order of the list |
| Lists.FilterSplit | src/app/pages/jugador-calendario/jugador-calendario.component.ts:103-111 | a filter and the filter of the opposite condition share out the list's elements, counted |
| Lists.FilterFilter | src/app/pages/alumnos/alumnos.component.ts:79-87 | filtering twice is filtering once by both conditions |
| Lists.FilterAll | src/app/pages/entrenador-packs/entrenador-packs.component.ts:92-96 | a condition every element meets keeps the whole list in order |
| Lists.Find | src/app/pages/club-reservas/club-reservas.component.ts:208-219 | `find` gives the first element satisfying the condition, and nothing exactly when none does |
| Lists.Take | src/app/pages/club-reservas/club-reservas.component.ts:340 | `slice(0, n)` keeps the first n elements, or all when there are fewer |
| Lists.DedupBy | src/app/pages/jugador-reservas/jugador-reservas.component.ts:77-91 | one element per distinct key, every key of the list represented, each kept element the first of the list with its key |
| Lists.DedupIsSubseq | src/app/pages/jugador-reservas/jugador-reservas.component.ts:77-91 | de-duplication keeps a subsequence of the list |
| Lists.DedupInOrder | src/app/pages/jugador-reservas/jugador-reservas.component.ts:77-91 | any two kept elements are the first of their keys and come in the order of those first appearances |
| Lists.DedupHead | src/app/pages/mis-habilidades/mis-habilidades.component.ts:84-96 | a non-empty list keeps its first element first |
| Lists.NoDupPermutation | src/app/pages/jugador-reservas/jugador-reservas.component.ts:186 | sorting a list without repetitions leaves it without repetitions |
| Lists.PageCount | src/app/pages/jugador-calendario/jugador-calendario.component.ts:72-75 | `Math.ceil(n / size)`: the least number of pages of `size` items that holds n items |
| Lists.PageContents | src/app/pages/jugador-calendario/jugador-calendario.component.ts:66-70 | page p (from 1) holds at most `size` items, the items at positions (p − 1)·size + i |
| Lists.PagesCoverList | src/app/pages/jugador-calendario/jugador-calendario.component.ts:66-75 | the pages 1 to `Math.ceil(n / size)` laid end to end give back the whole list |
| Lists.SliceIndex | src/app/pages/jugador-calendario/jugador-calendario.component.ts:69 | the index `slice` uses: a non-negative bound is capped at the length, a negative one counts from the end and stops at 0 |
| Sorting.Sort | src/app/pages/jugador-reservas/jugador-reservas.component.ts:114-118 | the result is sorted by the comparator and is a permutation of the input |
| Sorting.Insert | src/app/pages/jugador-reservas/jugador-reservas.component.ts:114-118 | inserting into a sorted list keeps it sorted and adds exactly the one element |
| Sorting.InsertStable | src/app/pages/jugador-reservas/jugador-reservas.component.ts:114-118 | among records that all tie, an inserted record goes ahead of those already there |
| Sorting.SortStable | src/app/pages/jugador-reservas/jugador-reservas.component.ts:114-118 | the sort is stable: records that all tie keep their input order |
| Sorting.SortKeepsTies | src/app/pages/jugador-reservas/jugador-reservas.component.ts:114-118 | sorting by a comparator under which equal keys tie keeps the records of each key in input order |
| Sorting.SortByInt | src/app/pages/jugador-reservas/jugador-reservas.component.ts:114-118 | sorting by a numeric key ascending: the input's records, keys ascending, and the records of each key in input order |
| Sorting.SortByStr | src/app/pages/entrenador-home/entrenador-home.component.ts:138 | sorting by a string key ascending: the input's records, keys ascending as strings, and the records of each key in input order |
| Sorting.SortByStrDesc | src/app/pages/jugador-calendario/jugador-calendario.component.ts:110 | sorting by a string key descending: the input's records, keys descending, and the records of each key in input order |
| Sorting.SortByIntDesc | src/app/pages/jugador-calendario/jugador-calendario.component.ts:110 | sorting by a numeric key descending: the input's records, keys descending, and the records of each key in input order |
| ClubesJugador.OnSelectClub | src/app/pages/clubes-jugador/clubes-jugador.component.ts:76-79 | the new club is selected, with no court and no times, and the date is kept |
| ClubesJugador.NoCourtAfterClubChange | src/app/pages/clubes-jugador/clubes-jugador.component.ts:76-79 | choosing a club forgets any earlier club choice |
| ClubesJugador.GenerateWeekDays | src/app/pages/clubes-jugador/clubes-jugador.component.ts:47-63 | six days, day i named after the weekday i days from today and carrying that day's number and date, day 0 named after today |
| ClubesJugador.WeekDayNamesDistinct | src/app/pages/clubes-jugador/clubes-jugador.component.ts:52-57 | no two of the six days on offer carry the same name |
| ClubesJugador.Duracion | src/app/pages/clubes-jugador/clubes-jugador.component.ts:117 | 90 minutes exactly for the confirm button and 60 exactly for the deny button |
| ClubesJugador.Reservar | src/app/pages/clubes-jugador/clubes-jugador.component.ts:97-152 | unavailable exactly for a taken time; nothing exactly when a dialog is dismissed or declined; otherwise a booking at the chosen time, court, date and user, end = start + duration "HH:MM:00", price 20 for the 90-minute choice and 15 otherwise, unpaid, 'Confirmada', the three other names empty |
| ClubesJugador.BookingSpansChoice | src/app/pages/clubes-jugador/clubes-jugador.component.ts:132-147 | a booked start "HH:MM:SS" reads as its minute, the end reads back as start + 60 or + 90, and the price is 20 exactly for the 90-minute game |
| ClubesJugador.EndReads | src/app/pages/clubes-jugador/clubes-jugador.component.ts:132-136 | the end of a booking whose start reads as minute s reads back as s + d |
| EntrenadorAgendar.RecurrenceNote | src/app/pages/entrenador-agendar/entrenador-agendar.component.ts:134 | the note is non-empty exactly when the recurrence is above 1, and then names the number of weeks |
| EntrenadorAgendar.ReservarHorario | src/app/pages/entrenador-agendar/entrenador-agendar.component.ts:126-151 | no student exactly without a selected student, checked before the hour; ignored exactly for an occupied hour; a booking exactly for a free, confirmed hour, with player and pack ids from the student, the trainer, the hour's date and times, 'reservado' and the recurrence passed through |
| EntrenadorAgendar.CanOpen | src/app/pages/entrenador-agendar/entrenador-agendar.component.ts:34-41 | the page stays open exactly for a truthy user id with the role exactly 'entrenador' |
| HourlyBlocks.Generar | src/app/pages/jugador-reservas/jugador-reservas.component.ts:140-190 | a null answer leaves no days; the listed days are in ascending order, and the first one, when there is one, becomes the selected day (otherwise the selection is kept) |
| HourlyBlocks.GenerarShows | src/app/pages/entrenador-agendar/entrenador-agendar.component.ts:66-116 | the listed days are exactly the days with hours, none twice; every hour shown is one hour long, starts after now and ends within its window, no key shows twice in a day, and every hour of a window's hourly grid that starts after now and fits is shown |
| HourlyBlocks.WalkAllValid | src/app/pages/jugador-reservas/jugador-reservas.component.ts:153-176 | walking the windows keeps the grid's invariant: days listed once, hours one hour long, in the future and inside their windows, keys recorded and unique |
| HourlyBlocks.WalkAllRecords | src/app/pages/jugador-reservas/jugador-reservas.component.ts:153-176 | every hour of a window's hourly grid that starts after now and ends within the window is recorded after the walk |
| DisponibilidadEntrenador.GenerarBloquesDia | src/app/pages/disponibilidad-entrenador/disponibilidad-entrenador.component.ts:122-144 | one block per start of the loop, every block on the given date and free |
| DisponibilidadEntrenador.StartsShape | src/app/pages/disponibilidad-entrenador/disponibilidad-entrenador.component.ts:127-141 | block i starts at inicio + i·duracion; the last block ends within the window, and what is left after it is shorter than one block (a trailing partial block is dropped) |
| DisponibilidadEntrenador.StartsInWindow | src/app/pages/disponibilidad-entrenador/disponibilidad-entrenador.component.ts:128-129 | every block lies inside the window, so no block ends after the end time |
| DisponibilidadEntrenador.BlockOfDay | src/app/pages/disponibilidad-entrenador/disponibilidad-entrenador.component.ts:131-139 | block i is the block from its start to its start plus duracion, selected exactly when its key is stored, and inside the window |
| DisponibilidadEntrenador.GeneratedTimes | src/app/pages/disponibilidad-entrenador/disponibilidad-entrenador.component.ts:127-141 | within a day block i reads as starting at inicio + i·duracion and ending duracion later, and the next block starts where it ends |
| DisponibilidadEntrenador.NextBlockFollows | src/app/pages/disponibilidad-entrenador/disponibilidad-entrenador.component.ts:141 | the next block starts at the time the previous block ends |
| DisponibilidadEntrenador.AnyFills | src/app/pages/disponibilidad-entrenador/disponibilidad-entrenador.component.ts:188-199 | `some`: true exactly when some booking fills the block |
| DisponibilidadEntrenador.MarcarOcupados | src/app/pages/disponibilidad-entrenador/disponibilidad-entrenador.component.ts:186-205 | the same blocks, each occupied exactly when it was or some booking fills it, nothing else changed |
| DisponibilidadEntrenador.CargarReservas | src/app/pages/disponibilidad-entrenador/disponibilidad-entrenador.component.ts:180-205 | the same days, each marked against the traditional and the group bookings together |
| DisponibilidadEntrenador.OccupiedIff | src/app/pages/disponibilidad-entrenador/disponibilidad-entrenador.component.ts:188-199 | a generated block becomes occupied exactly when some booking not 'cancelado' has a date and start, the block's date, and the block's "HH:MM" start |
| DisponibilidadEntrenador.ToggleBloque | src/app/pages/disponibilidad-entrenador/disponibilidad-entrenador.component.ts:220-223 | an occupied block is left as it is; a free block flips its selection and nothing else |
| DisponibilidadEntrenador.ToggleTwice | src/app/pages/disponibilidad-entrenador/disponibilidad-entrenador.component.ts:220-223 | toggling twice gives the block back |
| DisponibilidadEntrenador.SetFree | src/app/pages/disponibilidad-entrenador/disponibilidad-entrenador.component.ts:225-235 | every free block takes the new selection; occupied blocks are unchanged |
| DisponibilidadEntrenador.SetDay | src/app/pages/disponibilidad-entrenador/disponibilidad-entrenador.component.ts:225-235 | a day without an entry fails (the code throws); otherwise select all / deselect all change only the selected day, and only its free blocks |
| DisponibilidadEntrenador.TodosSeleccionados | src/app/pages/disponibilidad-entrenador/disponibilidad-entrenador.component.ts:237-241 | false when the day has no entry; otherwise true exactly when every block is selected or occupied |
| DisponibilidadEntrenador.SelectAllThenAllSelected | src/app/pages/disponibilidad-entrenador/disponibilidad-entrenador.component.ts:225-241 | when the day has an entry: after select all it counts as all selected; after deselect all exactly when every block is occupied |
| DisponibilidadEntrenador.Changes | src/app/pages/disponibilidad-entrenador/disponibilidad-entrenador.component.ts:260-283 | the records of exactly the blocks selected and not stored (`crear`) or unselected and stored (`eliminar`), in block order |
| DisponibilidadEntrenador.Guardar | src/app/pages/disponibilidad-entrenador/disponibilidad-entrenador.component.ts:255-291 | no sync call exactly when every block's selection agrees with the stored availability; a sync call creates the records of the selected blocks not stored and deletes those of the stored blocks not selected, in block order, never both for one record |
| DisponibilidadEntrenador.SavingDayByDay | src/app/pages/disponibilidad-entrenador/disponibilidad-entrenador.component.ts:260-283 | collecting the changes of the days one after another gives the changes of all their blocks together |
| DisponibilidadEntrenador.GeneratedKey | src/app/pages/disponibilidad-entrenador/disponibilidad-entrenador.component.ts:262 | the key saving computes for a generated block is the key generation looked the block up by |
| DisponibilidadEntrenador.UntouchedDayHasNoChanges | src/app/pages/disponibilidad-entrenador/disponibilidad-entrenador.component.ts:255-288 | a day generated from the stored availability and saved without a change makes no sync call |
| DisponibilidadEntrenador.OneToggleOneChange | src/app/pages/disponibilidad-entrenador/disponibilidad-entrenador.component.ts:220-283 | toggling one free block of an untouched day makes that block the only record to create or delete |
| JugadorReservas.EntrenadorOf | src/app/pages/jugador-reservas/jugador-reservas.component.ts:82-86 | the entry carries the pack's trainer id and name; its photo is `entrenador_foto` when truthy, else `foto` when truthy, else none |
| JugadorReservas.ExtraerEntrenadores | src/app/pages/jugador-reservas/jugador-reservas.component.ts:77-91 | one entry per distinct trainer id, every trainer of the packs present, each entry built from the first pack of its trainer |
| JugadorReservas.ExtraerKeepsOrder | src/app/pages/jugador-reservas/jugador-reservas.component.ts:77-91 | of any two entries, the earlier is read off the first pack of a trainer whose first pack comes earlier |
| JugadorReservas.CoachName | src/app/pages/jugador-reservas/jugador-reservas.component.ts:271-274 | '' for a null or 0 id and for an unknown id; otherwise the name of the first trainer with that id |
| JugadorReservas.CurrentCoachPhoto | src/app/pages/jugador-reservas/jugador-reservas.component.ts:93-96 | no photo without a selected trainer or for an unknown one; otherwise the photo of the first trainer with that id when it is non-empty, and none when it is empty |
| JugadorReservas.CoachPhotoFromFirstPack | src/app/pages/jugador-reservas/jugador-reservas.component.ts:77-96 | the photo shown for a trainer is the photo of the first pack that names them |
| JugadorReservas.OnEntrenadorChange | src/app/pages/jugador-reservas/jugador-reservas.component.ts:98-125 | nothing happens without a trainer; otherwise the trainer's packs with sessions left, oldest purchase first with packs of the same purchase time in list order, and the first of them selected, or none |
| JugadorReservas.OldestFirst | src/app/pages/jugador-reservas/jugador-reservas.component.ts:114-122 | the selected pack is one of the trainer's packs with sessions left, and none of those was bought earlier |
| JugadorReservas.ReservarHorario | src/app/pages/jugador-reservas/jugador-reservas.component.ts:193-243 | ignored exactly for an occupied hour; after confirmation an error exactly without a selected pack, otherwise a booking charged to that pack for the hour, the player and 'reservado' |
| JugadorReservas.BookingUsesOldestPack | src/app/pages/jugador-reservas/jugador-reservas.component.ts:98-243 | once a trainer is chosen, booking a free confirmed hour fails exactly when the trainer has no pack with sessions left, and otherwise uses the oldest such pack |
| RemoveHeaders.MatchHeader | remove_headers.py:5-6 | a header match starts with the opening tag and its length is at least both tags' |
| RemoveHeaders.Sub | remove_headers.py:15-16 | `pattern.sub('', s)` never lengthens the text |
| RemoveHeaders.RemoveHeaders | remove_headers.py:15-16 | the two substitutions in order never lengthen the text |
| RemoveHeaders.MatchNeedsOpen | remove_headers.py:5-6 | every match contains `<header class="top-header">` |
| RemoveHeaders.SubUnchanged | remove_headers.py:5-16 | text without the opening tag comes back unchanged |
| RemoveHeaders.RemoveHeadersUnchanged | remove_headers.py:15-16 | the script leaves text without `<header class="top-header">` exactly as it was |
| RemoveHeaders.SubDeletesOnly | remove_headers.py:15-16 | a substitution only deletes characters: the output is a subsequence of the input |
| RemoveHeaders.HeaderMatch | remove_headers.py:5-6 | `.*?` with DOTALL stops at the first `</header>` after the opening tag, across newlines |
| RemoveHeaders.PlainRemovesSpan | remove_headers.py:6-16 | the plain pattern deletes the whole whitespace run before the opening tag through the first closing tag, and the scan goes on behind it |
| RemoveHeaders.MarkerRemovesSpan | remove_headers.py:5-15 | the marker pattern deletes the whitespace before `<!-- Top Header -->`, the marker, the whitespace after it and the header block, and the scan goes on behind it |
| RemoveHeaders.SpaceRunBeforeTag | remove_headers.py:5-6 | `\s*` in front of a tag takes exactly the whitespace run before it |
| RemoveHeaders.ScriptPatternsTagged | remove_headers.py:5-6 | the literals of both patterns start with '<', which is not whitespace |
| RemoveHeaders.ProcessFile | remove_headers.py:10-21 | a file whose name does not end in ".html" is skipped; an .html file is rewritten, with a notice naming it, exactly when the transform changes its text, and then with the transformed text |
| RemoveHeaders.HeaderlessFileKept | remove_headers.py:10-21 | a file without `<header class="top-header">` is never rewritten |
| EntrenadorAgenda.CleanPath | src/app/pages/entrenador-agenda/entrenador-agenda.component.ts:100 | the cleaned path is the photo itself or the photo without one leading '/' |
| EntrenadorAgenda.NormalizeFoto | src/app/pages/entrenador-agenda/entrenador-agenda.component.ts:97-106 | always an absolute "http" link: a usable photo (longer than five, without 'imagen_defecto') starting with "http" is kept; another usable photo becomes the API host followed by its path without a leading '/'; an unusable one becomes the avatar link of the player's name |
| EntrenadorAgenda.NormalizeIdempotent | src/app/pages/entrenador-agenda/entrenador-agenda.component.ts:97-106 | normalising a normalised photo changes nothing |
| EntrenadorAgenda.ProcessInscritos | src/app/pages/entrenador-agenda/entrenador-agenda.component.ts:96-107 | the same players in the same order (none for a missing list), each with the normalised photo |
| EntrenadorAgenda.OrElse | src/app/pages/entrenador-agenda/entrenador-agenda.component.ts:113 | `a \|\| d`: a truthy number is kept, a missing, 0 or `NaN` one gives the default |
| EntrenadorAgenda.CalculateDuration | src/app/pages/entrenador-agenda/entrenador-agenda.component.ts:175-184 | 0 when either time is missing or empty; otherwise end minutes − start minutes (`NaN` when a field does not read) |
| EntrenadorAgenda.DurationOfRendered | src/app/pages/entrenador-agenda/entrenador-agenda.component.ts:175-184 | two rendered times, with or without seconds, last their difference in minutes |
| EntrenadorAgenda.MapReserva | src/app/pages/entrenador-agenda/entrenador-agenda.component.ts:92-115 | a dated class keeps date, type, weekday and start; its players get normalised photos; a `cupos_ocupados` that is present (a count or `null`) is kept, an absent one becomes the player count for group types and 1 otherwise; capacity falls back to `capacidad`, then 4; the duration is the stored one, else the computed one when truthy, and always truthy |
| EntrenadorAgenda.MapPack | src/app/pages/entrenador-agenda/entrenador-agenda.component.ts:121-147 | a group pack becomes an undated 'grupal_template' in its group's state, with reservation id `id \|\| pack_id`, the same weekday, start, places and capacity, normalised players, and a truthy duration taken from its times first |
| EntrenadorAgenda.Todas | src/app/pages/entrenador-agenda/entrenador-agenda.component.ts:89-150 | every dated class mapped, followed by every pack mapped; a field that is not a list contributes nothing |
| EntrenadorAgenda.EstadoText | src/app/pages/entrenador-agenda/entrenador-agenda.component.ts:228-233 | never empty: group types show their group state or 'activo'; other types their status, then their state, then 'activo' |
| EntrenadorAgenda.PackShowsGroupState | src/app/pages/entrenador-agenda/entrenador-agenda.component.ts:228-230 | a pack's status text is its group's state (or 'activo'), whatever status the pack carried |
| EntrenadorAgenda.GenerarFechas | src/app/pages/entrenador-agenda/entrenador-agenda.component.ts:56-74 | ten days with no classes yet, day i dated i days from today; today labelled 'Hoy' with today's weekday, later days named after their weekday, each weekday the one after the previous day's |
| EntrenadorAgenda.WeekdaysFollow | src/app/pages/entrenador-agenda/entrenador-agenda.component.ts:60-64 | the weekday of the next day is the following weekday, Saturday followed by Sunday |
| EntrenadorAgenda.AgendaActual | src/app/pages/entrenador-agenda/entrenador-agenda.component.ts:186-189 | the classes of the first day with the selected date; none when no day has it |
| EntrenadorAgenda.Merge | src/app/pages/entrenador-agenda/entrenador-agenda.component.ts:152-164 | exactly the classes dated on the day and the templates of the compared weekday whose start no dated class of the day uses, each as often as in those two lists, sorted by start time |
| EntrenadorAgenda.Direct | src/app/pages/entrenador-agenda/entrenador-agenda.component.ts:155 | exactly the classes dated on the day |
| EntrenadorAgenda.FreeTemplates | src/app/pages/entrenador-agenda/entrenador-agenda.component.ts:156-160 | exactly the templates of the weekday whose start no class dated on the day has |
| EntrenadorAgenda.MergeMembers | src/app/pages/entrenador-agenda/entrenador-agenda.component.ts:155-162 | the dated classes together with the templates left free are exactly the classes shown on the day |
| EntrenadorAgenda.NoTemplateClash | src/app/pages/entrenador-agenda/entrenador-agenda.component.ts:156-160 | on a day, no template starts when a dated class does |
| EntrenadorAgenda.DayData | src/app/pages/entrenador-agenda/entrenador-agenda.component.ts:152-164 | the day's classes with the template weekday read in the database convention (0 = Monday) |
| EntrenadorAgenda.PackOnDay | src/app/pages/entrenador-agenda/entrenador-agenda.component.ts:156-160 | a pack shows on a day exactly when the day's database weekday is the pack's and no class dated that day starts when it does |
| EntrenadorAgenda.LoadAgenda | src/app/pages/entrenador-agenda/entrenador-agenda.component.ts:152-164 | the same days, each given its classes out of the same answer |
| EntrenadorAgenda.ReservaOnItsDay | src/app/pages/entrenador-agenda/entrenador-agenda.component.ts:155 | a dated reservation shows on the agenda day of its date and on no other |
| EntrenadorHome.Redirect | src/app/pages/entrenador-home/entrenador-home.component.ts:40-56 | to the login page exactly without a truthy user id, checked first; to the club administration exactly when the lower-cased role contains 'admin'; stays exactly when it contains 'jugador', 'alumno' or 'entrenador' (and not 'admin'); the player's home otherwise |
| EntrenadorHome.RedirectIgnoresCase | src/app/pages/entrenador-home/entrenador-home.component.ts:46 | the redirect does not depend on the letter case of the stored role |
| EntrenadorHome.IndividualLines | src/app/pages/entrenador-home/entrenador-home.component.ts:99-108 | exactly one line for each individual class dated today |
| EntrenadorHome.GroupLines | src/app/pages/entrenador-home/entrenador-home.component.ts:124-134 | exactly one line for each group class whose weekday is today's database weekday |
| EntrenadorHome.Unsorted | src/app/pages/entrenador-home/entrenador-home.component.ts:99-135 | exactly the lines of individual classes dated today and group classes of today's database weekday, each hour at most five characters |
| EntrenadorHome.ClasesHoy | src/app/pages/entrenador-home/entrenador-home.component.ts:79-140 | exactly the lines of today's individual and group classes (a missing list contributes none), each as often as its class, ordered by hour |
| EntrenadorHome.AgendaAgreesWithHome | src/app/pages/entrenador-home/entrenador-home.component.ts:124-127 | with the weekday read as the home page reads it, a group pack shows on today's agenda exactly when it is in today's list, unless a dated class starts when it does |
| EntrenadorHome.AgendaAsWrittenMissesMonday | src/app/pages/entrenador-agenda/entrenador-agenda.component.ts:152-160 | a pack for database weekday 0 is in Monday's list on the home page, and missing from Monday's agenda as written though present in the corrected one |
| Uri.Encode | src/app/pages/entrenador-agenda/entrenador-agenda.component.ts:104 | `encodeURIComponent`: at least as long as the input, only unreserved characters and '%', and a string of unreserved characters comes back unchanged |
| Uri.EncodeAppend | src/app/pages/entrenador-agenda/entrenador-agenda.component.ts:104 | encoding a concatenation concatenates the encodings |
| Uri.EncodedHasNoDelimiters | src/app/pages/entrenador-agenda/entrenador-agenda.component.ts:104 | whatever the player's name, its encoding holds no '&', '=', '#' or space, so it cannot end or extend the avatar query |
| EntrenadorAgenda.HostAddsNoDefault | src/app/pages/entrenador-agenda/entrenador-agenda.component.ts:97-101 | prefixing the API host to a path without 'imagen_defecto' cannot create that marker |
| EntrenadorAgenda.DurationOfReadable | src/app/pages/entrenador-agenda/entrenador-agenda.component.ts:175-184 | two times that read as minute counts last their difference |
| JugadorCalendario.Todas | src/app/pages/jugador-calendario/jugador-calendario.component.ts:91-98 | a bare list is taken as it is; otherwise exactly the individual reservations and the group enrolments, as many as both together, a missing part counting as empty |
| JugadorCalendario.Futuras | src/app/pages/jugador-calendario/jugador-calendario.component.ts:100-106 | exactly the reservations (with their repetitions) whose instant is from today's midnight on, earliest first |
| JugadorCalendario.Pasadas | src/app/pages/jugador-calendario/jugador-calendario.component.ts:108-111 | exactly the reservations (with their repetitions) whose instant is before today's midnight, latest first |
| JugadorCalendario.EachReservationListedOnce | src/app/pages/jugador-calendario/jugador-calendario.component.ts:103-111 | the coming list, the past list and the reservations whose date does not read together hold every reservation of the answer exactly as often as the answer does |
| JugadorCalendario.Load | src/app/pages/jugador-calendario/jugador-calendario.component.ts:85-120 | the two lists are recomputed from the answer; the view and the page stay |
| JugadorCalendario.CambiarVista | src/app/pages/jugador-calendario/jugador-calendario.component.ts:61-64 | the chosen list is shown from page 1; the lists stay |
| JugadorCalendario.Paginated | src/app/pages/jugador-calendario/jugador-calendario.component.ts:66-70 | from page 1 on, eight reservations, fewer on the last page and none past it; the i-th is the one at position (page − 1) · 8 + i of the list shown |
| JugadorCalendario.TotalPages | src/app/pages/jugador-calendario/jugador-calendario.component.ts:72-75 | the fewest pages of eight that hold the list shown |
| JugadorCalendario.NextPage | src/app/pages/jugador-calendario/jugador-calendario.component.ts:77-79 | one page on exactly when this is not yet the last page, otherwise unchanged; the view and the lists stay |
| JugadorCalendario.PrevPage | src/app/pages/jugador-calendario/jugador-calendario.component.ts:81-83 | one page back exactly when beyond page 1, otherwise unchanged; the view and the lists stay |
| JugadorCalendario.PagingKeepsRange | src/app/pages/jugador-calendario/jugador-calendario.component.ts:61-83 | from a page that exists, paging either way and switching the view lead to a page that exists |
| JugadorCalendario.PageInRangeNotEmpty | src/app/pages/jugador-calendario/jugador-calendario.component.ts:66-75 | a page that exists shows at least one reservation of a list that is not empty |
| JugadorCalendario.NextThenPrev | src/app/pages/jugador-calendario/jugador-calendario.component.ts:77-83 | before the last page, one page on and one back is where the calendar was |
| JugadorCalendario.CancelId | src/app/pages/jugador-calendario/jugador-calendario.component.ts:126 | the first truthy of the reservation id, the reservation's `reserva_id` and the enrolment id; none exactly when all three are missing or 0 |
| JugadorCalendario.Cancelar | src/app/pages/jugador-calendario/jugador-calendario.component.ts:122-146 | an error exactly when no id is found; a cancellation request, with that id and the user, exactly when there is an id, the dialog is confirmed and a user is logged in |
| JugadorPacks.PaymentNotice | src/app/pages/jugador-packs/jugador-packs.component.ts:55-76 | the success notice exactly for status 'success', the error notice exactly for 'error_db' or 'error_token', the cancelled notice exactly for 'cancelled', none otherwise |
| JugadorPacks.WithTrainer | src/app/pages/jugador-packs/jugador-packs.component.ts:153 | exactly the packs with a truthy trainer id |
| JugadorPacks.CargarEntrenadores | src/app/pages/jugador-packs/jugador-packs.component.ts:150-161 | no trainer twice, and every pack with a truthy trainer id has its trainer listed |
| JugadorPacks.TrainersInPackOrder | src/app/pages/jugador-packs/jugador-packs.component.ts:150-161 | the trainers are listed in the order their first packs come |
| JugadorPacks.FirstPackGivesFirstTrainer | src/app/pages/jugador-packs/jugador-packs.component.ts:152-160 | the first pack with a trainer gives the first trainer listed |
| JugadorPacks.TrainersCovered | src/app/pages/jugador-packs/jugador-packs.component.ts:152-160 | deduplicating the packs by trainer and reading the entries off leaves no pack's trainer without an entry |
| JugadorPacks.DistinctTrainers | src/app/pages/jugador-packs/jugador-packs.component.ts:152-160 | the entries read off the deduplicated packs carry distinct ids |
| JugadorPacks.TrainerNamedByFirstPack | src/app/pages/jugador-packs/jugador-packs.component.ts:153-157 | each entry has a non-zero id and is the id and name of the first pack of that trainer |
| JugadorPacks.FiltrarPacks | src/app/pages/jugador-packs/jugador-packs.component.ts:163-172 | every pack, in order, when no trainer is chosen; otherwise exactly the chosen trainer's packs, in their order |
| JugadorPacks.OnEntrenadorChange | src/app/pages/jugador-packs/jugador-packs.component.ts:174-178 | 'null' and the empty choice clear the trainer; any other value is read with `Number` |
| JugadorPacks.ChosenTrainerPacks | src/app/pages/jugador-packs/jugador-packs.component.ts:163-178 | picking a trainer's option shows exactly that trainer's packs, and picking 'null' shows all packs |
| JugadorPacks.QueryOf | src/app/pages/jugador-packs/jugador-packs.component.ts:133-136 | with the filter off no location parameter is sent; with it on the radius is sent, and each coordinate exactly when it is truthy |
| JugadorPacks.ToggleLocation | src/app/pages/jugador-packs/jugador-packs.component.ts:91-100 | the filter flips and the radius stays; turning it off forgets the coordinates and reloads, turning it on keeps them and asks for the position |
| JugadorPacks.Located | src/app/pages/jugador-packs/jugador-packs.component.ts:111-116 | the position is stored and the packs reloaded |
| JugadorPacks.LocationFailed | src/app/pages/jugador-packs/jugador-packs.component.ts:103-106 | the filter is off again and nothing else changes |
| JugadorPacks.OnRadiusChange | src/app/pages/jugador-packs/jugador-packs.component.ts:126-131 | the radius is stored; a reload exactly when the filter is on with both coordinates; never a position request |
| JugadorPacks.OffMeansNoLocation | src/app/pages/jugador-packs/jugador-packs.component.ts:91-99 | turning the filter off sends the query without location |
| JugadorPacks.OnAndLocatedSendsPosition | src/app/pages/jugador-packs/jugador-packs.component.ts:91-136 | turning the filter on and receiving a non-zero position sends that position and the current radius |
| MisHabilidades.TrainerKey | src/app/pages/mis-habilidades/mis-habilidades.component.ts:86 | the evaluation's trainer id when truthy, else trainer 0 |
| MisHabilidades.TrainerName | src/app/pages/mis-habilidades/mis-habilidades.component.ts:90 | the trainer name given with the evaluation when not empty; otherwise 'General' for trainer 0 and 'Entrenador Desconocido' for any other |
| MisHabilidades.Trainers | src/app/pages/mis-habilidades/mis-habilidades.component.ts:84-96 | no trainer twice, and the trainer of every evaluation is listed |
| MisHabilidades.TrainersInEvaluationOrder | src/app/pages/mis-habilidades/mis-habilidades.component.ts:84-96 | the trainers are listed in the order their first evaluations come |
| MisHabilidades.TrainerFromFirstEvaluation | src/app/pages/mis-habilidades/mis-habilidades.component.ts:85-94 | every trainer entry is read off one of the evaluations |
| MisHabilidades.InitialTrainer | src/app/pages/mis-habilidades/mis-habilidades.component.ts:98-102 | the previous choice when it is truthy and still listed, otherwise the first trainer; always a listed trainer |
| MisHabilidades.FirstEvaluationsTrainerShown | src/app/pages/mis-habilidades/mis-habilidades.component.ts:84-102 | without a previous choice the trainer shown first is the trainer of the first evaluation |
| MisHabilidades.TrainerEvaluations | src/app/pages/mis-habilidades/mis-habilidades.component.ts:125-128 | exactly the trainer's evaluations, with their repetitions, oldest first |
| MisHabilidades.Drawn | src/app/pages/mis-habilidades/mis-habilidades.component.ts:127-156 | with no evaluation there is no data; otherwise one line point (date and average) per evaluation in order, and the radar shows the strokes of the last evaluation when it has scores, leaving the radar as it was when it has none |
| MisHabilidades.ProcessDataForTrainer | src/app/pages/mis-habilidades/mis-habilidades.component.ts:123-157 | no data for a trainer without evaluations; otherwise one line point per evaluation of theirs in date order and the radar of the last one |
| MisHabilidades.RadarIsLatest | src/app/pages/mis-habilidades/mis-habilidades.component.ts:128-138 | the radar's evaluation is dated no earlier than any evaluation of the trainer |
| MisHabilidades.Load | src/app/pages/mis-habilidades/mis-habilidades.component.ts:76-121 | the trainers of the evaluations; with none there is no data and the choice stays; otherwise a listed trainer is chosen as above and its charts drawn |
| MisHabilidades.ReloadKeepsTrainer | src/app/pages/mis-habilidades/mis-habilidades.component.ts:100-104 | reloading keeps the chosen trainer while they still have an evaluation |
| EntrenadorPacks.CanOpen | src/app/pages/entrenador-packs/entrenador-packs.component.ts:47-52 | the page stays exactly when the stored user id reads as a non-zero number |
| EntrenadorPacks.LoadPacks | src/app/pages/entrenador-packs/entrenador-packs.component.ts:70-90 | a bare array is the list, a successful object's data is the list, any other answer empties it, and a failed request keeps what was shown |
| EntrenadorPacks.PacksFiltrados | src/app/pages/entrenador-packs/entrenador-packs.component.ts:92-96 | exactly the packs whose name contains the filter, ignoring case, in their order |
| EntrenadorPacks.EmptyFilterShowsAll | src/app/pages/entrenador-packs/entrenador-packs.component.ts:92-96 | an empty filter shows every pack in order |
| EntrenadorPacks.Reset | src/app/pages/entrenador-packs/entrenador-packs.component.ts:173-188 | the form holds the empty pack and stays open or closed |
| EntrenadorPacks.Toggle | src/app/pages/entrenador-packs/entrenador-packs.component.ts:98-103 | the form opens or closes; opening keeps its contents, closing empties it |
| EntrenadorPacks.Editar | src/app/pages/entrenador-packs/entrenador-packs.component.ts:141-145 | the form is open and holds the pack |
| EntrenadorPacks.CloseForgetsEdit | src/app/pages/entrenador-packs/entrenador-packs.component.ts:98-145 | closing after an edit leaves a closed empty form, whatever pack was edited |
| EntrenadorPacks.CrearPack | src/app/pages/entrenador-packs/entrenador-packs.component.ts:105-139 | a warning exactly when the name is empty or the session count is missing or 0; otherwise an update of the form's pack exactly when it has an id, else a creation of the form's pack carrying the trainer |
| EntrenadorPacks.CreatedPackIsTheForm | src/app/pages/entrenador-packs/entrenador-packs.component.ts:124-127 | a created pack is the form with the trainer attached, and has no id |
| EntrenadorPacks.DefaultIsIncomplete | src/app/pages/entrenador-packs/entrenador-packs.component.ts:106-188 | the empty form is never sent |
| EntrenadorPacks.AfterSave | src/app/pages/entrenador-packs/entrenador-packs.component.ts:116-117 | after a save the form is closed and empty |
| Alumnos.CanOpen | src/app/pages/alumnos/alumnos.component.ts:32-37 | the page stays exactly when the stored user id reads as a non-zero number |
| Alumnos.Load | src/app/pages/alumnos/alumnos.component.ts:55-71 | one student per entry of the answer (none for a missing answer), in order, keeping the server's fields, with the paid sessions read as a number, the remaining sessions taken from the pending ones and the pack name from the pack names; the filtered list is the whole list and the search term stays |
| Alumnos.Filtrar | src/app/pages/alumnos/alumnos.component.ts:79-87 | the whole list for an empty term; otherwise exactly the students whose name contains the term, ignoring case, in their order; the list and the term stay |
| Alumnos.EveryNameMatchesEmpty | src/app/pages/alumnos/alumnos.component.ts:80-85 | the empty term matches every name, so the two branches agree on it |
| Alumnos.FiltrarIsFilter | src/app/pages/alumnos/alumnos.component.ts:79-87 | the filtered list is the list filtered by the name test, whichever branch is taken |
| Alumnos.LoadThenEmptySearch | src/app/pages/alumnos/alumnos.component.ts:69-81 | with no search term, filtering a freshly loaded page changes nothing |
| Alumnos.IrAEvaluar | src/app/pages/alumnos/alumnos.component.ts:98-107 | to the student's evaluation form exactly when the student's id is truthy, with that id |
| AlumnoMisPacks.LoadPacks | src/app/pages/alumno-mis-packs/alumno-mis-packs.ts:59-72 | the answer's data when present, an empty list when absent, and what was shown when the request fails |
| AlumnoMisPacks.Abrir | src/app/pages/alumno-mis-packs/alumno-mis-packs.ts:80-84 | the dialog is open, for that pack, with an empty email |
| AlumnoMisPacks.Cerrar | src/app/pages/alumno-mis-packs/alumno-mis-packs.ts:86-89 | the dialog is closed with no pack; the email stays |
| AlumnoMisPacks.Enviar | src/app/pages/alumno-mis-packs/alumno-mis-packs.ts:91-102 | a warning exactly when the email is empty or has no '@'; nothing exactly when the email is usable but no pack is selected; otherwise an invitation for the selected purchase and the typed email |
| AlumnoMisPacks.AtSignSuffices | src/app/pages/alumno-mis-packs/alumno-mis-packs.ts:92 | an email is usable exactly when it holds an '@' (the emptiness test is implied) |
| AlumnoMisPacks.FreshDialogNotSent | src/app/pages/alumno-mis-packs/alumno-mis-packs.ts:80-95 | sending straight after opening the dialog only warns |
| AlumnoMisPacks.OpenedDialogInvites | src/app/pages/alumno-mis-packs/alumno-mis-packs.ts:80-102 | opening the dialog for a pack and typing an email with '@' invites to that pack with that email |
| AlumnoMisPacks.NoSecondInvitation | src/app/pages/alumno-mis-packs/alumno-mis-packs.ts:86-97 | after the dialog is closed, sending does nothing, even with a usable email |
| NuevaEvaluacion.TenStrokes | src/app/pages/nueva-evaluacion/nueva-evaluacion.component.ts:22-25 | ten strokes, all different |
| NuevaEvaluacion.InitScores | src/app/pages/nueva-evaluacion/nueva-evaluacion.component.ts:48-54 | a mark set for exactly the ten strokes, every one 5, 5, 5, 5 |
| NuevaEvaluacion.InitAccordions | src/app/pages/nueva-evaluacion/nueva-evaluacion.component.ts:48-59 | a panel for exactly the ten strokes, the first open and all others closed |
| NuevaEvaluacion.ToggleAccordion | src/app/pages/nueva-evaluacion/nueva-evaluacion.component.ts:62-64 | the stroke's panel flips (a stroke without a panel gets an open one) and every other panel stays |
| NuevaEvaluacion.ToggleTwice | src/app/pages/nueva-evaluacion/nueva-evaluacion.component.ts:62-64 | toggling a panel twice restores the panels |
| NuevaEvaluacion.Guardar | src/app/pages/nueva-evaluacion/nueva-evaluacion.component.ts:66-82 | something is sent exactly when the dialog is confirmed: the student, the trainer, the marks and the comments as the form holds them |
| NuevaEvaluacion.UntouchedSendsFives | src/app/pages/nueva-evaluacion/nueva-evaluacion.component.ts:48-82 | an evaluation saved untouched sends ten strokes, each marked 5, 5, 5, 5 |
| Perfil.UserRole | src/app/pages/perfil/perfil.component.ts:88-93 | always 'jugador' or 'entrenador', and 'entrenador' exactly when that is the stored role |
| Perfil.EveryRegionHasComunas | src/app/pages/perfil/perfil.component.ts:40-82 | every region of the picker has a non-empty list of communes |
| Perfil.RegionsDistinct | src/app/pages/perfil/perfil.component.ts:40-57 | no two regions share an id or a name |
| Perfil.SameNameSameRegion | src/app/pages/perfil/perfil.component.ts:125 | the region a name finds is determined by the name alone |
| Perfil.UpdateComunas | src/app/pages/perfil/perfil.component.ts:124-134 | a region named by the address lists its communes and, unless asked to keep it, clears the commune; an unknown region lists none and leaves the address alone |
| Perfil.OnlyRegionNamed | src/app/pages/perfil/perfil.component.ts:125 | the first region with a name is the only one with it |
| Perfil.PickingRegionListsComunas | src/app/pages/perfil/perfil.component.ts:110-134 | a region picked in the form lists its communes and clears the commune; restored from the server it lists them and keeps the commune |
| Perfil.Overlay | src/app/pages/perfil/perfil.component.ts:109-201 | the spread of two objects: the fields of both, the second's value winning |
| Perfil.LoadProfile | src/app/pages/perfil/perfil.component.ts:102-122 | a failed or unsuccessful answer changes nothing; a successful one overlays the user's fields on the profile and, when it holds an address, replaces the address and lists its region's communes, keeping the commune |
| Perfil.LoadKeepsFields | src/app/pages/perfil/perfil.component.ts:17-109 | loading never loses one of the page's profile fields |
| Perfil.GuardarCambios | src/app/pages/perfil/perfil.component.ts:190-201 | nothing is sent without a truthy user id; otherwise exactly the fields user_id, nombre, telefono, instagram, facebook and the address fields, each address field with its value, and the four editable profile fields and the user id unless an address field of the same name overrides them |
| Perfil.SaveSendsLoadedAddress | src/app/pages/perfil/perfil.component.ts:102-201 | saving right after loading an address sends that address unchanged |
| Perfil.CanOpen | src/app/pages/perfil/perfil.component.ts:88-98 | the page stays exactly when the stored user id reads as a non-zero number |
| HomeStats.PacksOf | src/app/pages/jugador-home/jugador-home.component.ts:62-69 | `estadisticas.packs` when truthy, else `packs` when truthy, else the answer itself when it has `pagada` or `reservada`; nothing exactly when none of the three applies; whatever is found is truthy |
| HomeStats.Counter | src/app/pages/jugador-home/jugador-home.component.ts:72-74 | the plural field when truthy, else the singular one, read with `parseInt`, 0 when it does not read |
| HomeStats.LoadStats | src/app/pages/jugador-home/jugador-home.component.ts:60-76 | the three counters read from the recognised place; all unchanged when no place is recognised |
| HomeStats.FlatAnswerCounts | src/app/pages/jugador-home/jugador-home.component.ts:67-74 | a flat answer with a number and a digit string shows those counts and 0 for the missing one |
| HomeStats.FlatAnswerIsRead | src/app/pages/jugador-home/jugador-home.component.ts:67-68 | an answer with `pagada` and neither `estadisticas` nor `packs` is read as it is |
| HomeStats.ParsesDecimal | src/app/pages/jugador-home/jugador-home.component.ts:72-74 | `parseInt` of a count written in decimal is the count |
| HomeStats.NestedWins | src/app/pages/jugador-home/jugador-home.component.ts:63-64 | counters nested under `estadisticas.packs` win over a `packs` field beside them |
| HomeStats.UnknownShapeKeepsCounters | src/app/pages/jugador-home/jugador-home.component.ts:62-71 | an answer of no known shape leaves every counter as it was |
| HomeStats.CanOpen | src/app/pages/jugador-home/jugador-home.component.ts:37-42 | the page loads exactly when the stored user id reads as a non-zero number |
| Storage.RemoveAll | src/app/services/auth.service.ts:60-63 | exactly the named keys leave the store; every other entry stays as it was |
| AuthService.SetCurrentUser | src/app/services/auth.service.ts:38-43 | the user becomes current; the user record, the id as text and the role (or 'alumno') are stored; every other entry stays |
| AuthService.GetUserRole | src/app/services/auth.service.ts:49-51 | the stored role when it is a non-empty text, otherwise 'alumno'; never empty |
| AuthService.LoadUser | src/app/services/auth.service.ts:53-58 | the store is untouched; a stored user record becomes current; with none stored the current user stays |
| AuthService.Logout | src/app/services/auth.service.ts:60-65 | no current user; the user record, the id and the role leave the store; every other entry stays |
| AuthService.ReloadRestoresUser | src/app/services/auth.service.ts:38-58 | a fresh service on the store of a signed-in session has the same user and role |
| AuthService.SignInOut | src/app/services/auth.service.ts:38-69 | signing in authenticates; signing out ends authentication, a reload after it restores nobody, and the role falls back to 'alumno' |
| ApiService.SetCurrentUser | src/app/services/api.service.ts:65-68 | the user becomes current and only the user record is stored; every other entry stays |
| ApiService.LoadUser | src/app/services/api.service.ts:74-79 | the store is untouched; a stored user record becomes current; with none stored the current user stays |
| ApiService.Logout | src/app/services/api.service.ts:81-85 | no current user; the user record and the id leave the store; every other entry, the role included, stays |
| ApiService.LastUserWins | src/app/services/api.service.ts:65-79 | of two users set, the last is current, and also after a reload |
| ApiService.LogoutKeepsRole | src/app/services/api.service.ts:81-89 | signing out through this service ends authentication but leaves the stored role behind |
| Login.Submit | src/app/pages/login/login.component.ts:29-32 | the request is made exactly when both email and password are given |
| Login.LoginRole | src/app/pages/login/login.component.ts:43-46 | the answer's role when non-empty, else 'jugador' |
| Login.RouteFor | src/app/pages/login/login.component.ts:47-53 | the player's home exactly for 'jugador', the trainer's home exactly for 'entrenador', the landing page for any other role |
| Login.OnResponse | src/app/pages/login/login.component.ts:37-64 | a failed request and an answer without a truthy id only set their error texts; otherwise the user is current, their record, id and role (or 'jugador') are stored, and the route follows that role |
| Login.MissingRoleIsJugador | src/app/pages/login/login.component.ts:41-48 | a user without a role ends up stored and routed as 'jugador', although the session service alone would store 'alumno' |
| Login.SignedInRoleAgrees | src/app/pages/login/login.component.ts:39-53 | a signed-in user is authenticated, and the route follows the role the session service reports |
| Register.CheckForm | src/app/pages/register/register.component.ts:42-60 | 'all fields required' exactly when a field is empty; 'passwords differ' exactly when all are given and the passwords differ; otherwise the name, email, password and role are sent |
| Register.ErrorAfterCheck | src/app/pages/register/register.component.ts:43-53 | the check's text for a rejected form, and no error once the form is sent |
| Register.RouteFor | src/app/pages/register/register.component.ts:73-82 | on the lower-cased role: the club administration exactly when it contains 'admin'; else the trainer's home exactly when it contains 'entrenador'; else the player's home exactly when it contains 'jugador' or 'alumno'; never the login page |
| Register.OnResponse | src/app/pages/register/register.component.ts:62-93 | a success signs the user in through both session services and routes by role; an unsuccessful answer shows its error or 'Error al registrarse'; a failed request its detail or the retry text; both leave the sessions alone |
| Register.BothServicesAgree | src/app/pages/register/register.component.ts:69-70 | after a registration both services have the new user current and store the same record |
| Register.NoRoleGoesToLanding | src/app/pages/register/register.component.ts:69-82 | a new user without a role goes to the landing page while the session service records them as 'alumno' |
| ResetPassword.Init | src/app/pages/reset-password/reset-password.component.ts:29-37 | the token of the link, empty when missing, and an error exactly when it is empty |
| ResetPassword.CheckPassword | src/app/pages/reset-password/reset-password.component.ts:39-57 | 'fill both' exactly when a field is empty; 'passwords differ' exactly when both are given and differ; 'too short' exactly when they agree with fewer than six characters; otherwise the token and the password are sent |
| ResetPassword.CheckNotice | src/app/pages/reset-password/reset-password.component.ts:40-53 | an error dialog exactly for differing passwords, a warning for the other rejections, each with one button |
| ResetPassword.OnReply | src/app/pages/reset-password/reset-password.component.ts:57-73 | success, followed by the login page, exactly for a successful answer; otherwise an error showing the answer's message or the default text, or the expired-link text when the request fails |
| ResetPassword.SentIffAcceptable | src/app/pages/reset-password/reset-password.component.ts:39-57 | the new password is sent exactly when the two entries agree and have at least six characters |
| ResetPassword.ShortBeforeMismatchNever | src/app/pages/reset-password/reset-password.component.ts:50-53 | a short password typed twice is rejected as too short |
| PopupService.Open | src/app/services/popup.service.ts:23-33 | the title and message as given; the icon given or 'info'; the buttons given or the single 'Aceptar' |
| PopupService.Shorthand | src/app/services/popup.service.ts:36-50 | the four shorthands show their icon with the single 'Aceptar' button |
| PopupService.Confirm | src/app/services/popup.service.ts:52-63 | a question with the buttons given, or 'Si' and 'No' |
| PopupService.ConfirmThree | src/app/services/popup.service.ts:68-75 | a question with exactly the three buttons given, in order |
| PopupService.DefaultsOfferAnAnswer | src/app/services/popup.service.ts:27-28 | unless the caller gives an empty list, a dialog has a button |
| PopupService.ConfirmAnswersDiffer | src/app/services/popup.service.ts:53-56 | the default confirmation's two buttons differ in text and in value |
| ClubAdmin.CanOpen | src/app/pages/club-admin/club-admin.component.ts:50-56 | the page opens exactly with a current user and a stored role that contains 'admin', ignoring case |
| ClubAdmin.Open | src/app/pages/club-admin/club-admin.component.ts:58-65 | new clubs are administered by the user; the rest of the page stays |
| ClubAdmin.SelectClub | src/app/pages/club-admin/club-admin.component.ts:74-78 | the club is selected and new courts go to it; nothing else of the forms changes |
| ClubAdmin.CreateClub | src/app/pages/club-admin/club-admin.component.ts:86-92 | nothing exactly without a name; otherwise the form's club is sent and afterwards only the name is cleared |
| ClubAdmin.CreateCancha | src/app/pages/club-admin/club-admin.component.ts:94-100 | nothing exactly without a name or a truthy club; otherwise the form's court is sent, its club's courts reloaded, and only the name cleared |
| ClubAdmin.CourtGoesToSelectedClub | src/app/pages/club-admin/club-admin.component.ts:74-100 | before a club is selected no court is sent; after selecting a club, a named court goes to that club and its courts are reloaded |
| Landing.Init | src/app/pages/landing/landing.component.ts:45-65 | public exactly without a truthy user id or role; 'jugador' and 'entrenador' go to their home pages; any other role stays signed in with that role |
| Landing.StayLoadsTrainerAgenda | src/app/pages/landing/landing.component.ts:56-84 | whoever stays has the trainer's agenda loaded, never the player's counters |
| Landing.CargarDatosAlumno | src/app/pages/landing/landing.component.ts:87-116 | the counters are read exactly as the player's home page reads them |
| Landing.CargarDatosEntrenador | src/app/pages/landing/landing.component.ts:118-137 | an answer that is not a list changes nothing; otherwise the first five sessions (all when fewer) and the number of sessions dated today, 0 when none is today and all when all are |
| Landing.TodayExtremes | src/app/pages/landing/landing.component.ts:125-128 | on a day made only of sessions all are counted, on a day without none |
| Landing.NoneToday | src/app/pages/landing/landing.component.ts:125-128 | no session is counted on a day without sessions |
| Landing.Logout | src/app/pages/landing/landing.component.ts:171-177 | the token, id, role and user record leave the store, every other entry stays, the page is no longer signed in and goes to the login page |
| Landing.LogoutThenPublic | src/app/pages/landing/landing.component.ts:45-177 | after signing out no id or role is stored, and without either the landing page is public |
| TorneoGestion.GroupMatches | src/app/pages/torneo-gestion/torneo-gestion.component.ts:126 | the group matches are exactly the category's matches whose group id is not `null`, kept in their original order |
| TorneoGestion.Grupos | src/app/pages/torneo-gestion/torneo-gestion.component.ts:129-135 | no group is listed twice, and the group of every group match is listed |
| TorneoGestion.GroupsCovered | src/app/pages/torneo-gestion/torneo-gestion.component.ts:129-133 | deduplicating the group ids loses no match's group |
| TorneoGestion.GroupNamedByFirstMatch | src/app/pages/torneo-gestion/torneo-gestion.component.ts:129-133 | a listed group is never the `null` group and carries the name of the first match with its id |
| TorneoGestion.GroupsInMatchOrder | src/app/pages/torneo-gestion/torneo-gestion.component.ts:129-135 | of any two groups, the earlier is read off the first match of a group whose first match comes earlier |
| TorneoGestion.Validada | src/app/pages/torneo-gestion/torneo-gestion.component.ts:182-190 | after validation the registration is validated exactly when the flag sent was `!validado`, and paid exactly when validated; its id is kept |
| TorneoGestion.ValidarTwice | src/app/pages/torneo-gestion/torneo-gestion.component.ts:182-190 | validating twice restores the validation state, with the payment brought in line with it |
| TorneoGestion.CrearTorneo | src/app/pages/torneo-gestion/torneo-gestion.component.ts:240-256 | a tournament is refused exactly when its name or start date is empty; otherwise the whole form is sent with the creator's id |
| TorneoGestion.CargarCategoriasStandard | src/app/pages/torneo-gestion/torneo-gestion.component.ts:258-274 | loading the standard categories replaces the form's categories by the standard list and leaves every other field of the form alone |
| TorneoGestion.StandardCategoriasNames | src/app/pages/torneo-gestion/torneo-gestion.component.ts:259-272 | there are ten standard categories: six men's ("… Varones") followed by four women's ("Damas …") |
| TorneoGestion.StandardCategoriasPoints | src/app/pages/torneo-gestion/torneo-gestion.component.ts:259-272 | within the men's and within the women's categories each category shares out fewer points than the one above it |
| TorneoGestion.NombreJugador | src/app/pages/torneo-gestion/torneo-gestion.component.ts:317-324 | a player's name is never empty: a player without an id is the typed name or "S/N"; a player with an id is named after the first user with that id ("S/N" when that name is empty), or "S/N" when no user has it |
| TorneoGestion.InscribirPareja | src/app/pages/torneo-gestion/torneo-gestion.component.ts:285-305 | nothing happens without a category; the pair is refused exactly when a player has neither an id nor a name; otherwise both players are sent as given, by the administrator, under the typed pair name or else "<player 1> / <player 2>" |
| TorneoGestion.TypedPairName | src/app/pages/torneo-gestion/torneo-gestion.component.ts:285-324 | two typed players with no pair name are registered as "<first> / <second>" |
| TorneoGestion.ResetFormRejected | src/app/pages/torneo-gestion/torneo-gestion.component.ts:285-311 | the form as it is reset after a registration cannot register another pair |
| TorneoAmericano.CanOpen | src/app/pages/torneo-americano/torneo-americano.component.ts:51-58 | the page stays open exactly for a current user whose stored role contains "admin" in any letter case |
| TorneoAmericano.CrearTorneo | src/app/pages/torneo-americano/torneo-americano.component.ts:86-92 | a tournament is refused exactly when its name is empty or no club is set; otherwise the form is sent unchanged |
| TorneoAmericano.DefaultNotSent | src/app/pages/torneo-americano/torneo-americano.component.ts:31-87 | the form as the page opens it is refused |
| TorneoAmericano.SearchPlayers | src/app/pages/torneo-americano/torneo-americano.component.ts:112-121 | the suggestions are the users' look-up for the term (none when blank; otherwise the first five matching users in list order); the term and the chosen tournament are kept |
| TorneoAmericano.AddPlayer | src/app/pages/torneo-americano/torneo-americano.component.ts:123-125 | a player is added exactly when a tournament is chosen, to that tournament and by the user's id |
| TorneoAmericano.NoSuggestionsAfterAdd | src/app/pages/torneo-americano/torneo-americano.component.ts:112-129 | searching right after an addition suggests nobody |
| TorneoAmericano.PointsOrZero | src/app/pages/torneo-americano/torneo-americano.component.ts:134 | a missing score is sent as 0 and a recorded one as it is |
| TorneoAmericano.SaveScore | src/app/pages/torneo-americano/torneo-americano.component.ts:133-134 | the score sent is the match's id with each team's points, missing points counting as 0 |
| TorneoAmericano.SavingAgainSendsSameScore | src/app/pages/torneo-americano/torneo-americano.component.ts:133-137 | saving a finished match sends the same score again, and the match stays finished |
| TorneoJugador.MarkMe | src/app/pages/torneo-jugador/torneo-jugador.component.ts:65-69 | one mark per pair, set exactly on the pairs in which the user is the first or the second player |
| TorneoJugador.PartnerSearch | src/app/pages/torneo-jugador/torneo-jugador.component.ts:203-214 | under two characters nobody is suggested; otherwise the first five known users, in list order, whose name contains the text in any letter case and who are not the user |
| TorneoJugador.NeverSuggestsSelf | src/app/pages/torneo-jugador/torneo-jugador.component.ts:212-213 | the player registering is never suggested as their own partner |
| TorneoJugador.ConfirmRegistration | src/app/pages/torneo-jugador/torneo-jugador.component.ts:269-283 | a registered partner is sent by id and any other by name, and the pair is "Pareja con " and the partner's name either way |
| TorneoJugador.Inscribirse | src/app/pages/torneo-jugador/torneo-jugador.component.ts:241-253 | closing the dialog cancels; an empty name keeps it open; otherwise the partner is sent by id exactly when a user with a non-zero id was chosen, and by the recorded or typed name otherwise |
| TorneoJugador.InscribirseSinLista | src/app/pages/torneo-jugador/torneo-jugador.component.ts:255-265 | without the user list a registration is sent exactly for a confirmed non-empty name, as an unregistered partner |
| TorneoJugador.PickedPartnerIsRegistered | src/app/pages/torneo-jugador/torneo-jugador.component.ts:185-283 | choosing a suggested user registers the pair with that user's id, named after them |
| TorneoJugador.TypedPartnerIsByName | src/app/pages/torneo-jugador/torneo-jugador.component.ts:185-283 | typing a name after removing a choice registers an unregistered partner under that name |

## Findings

| source | as written | input that shows it | evidently intended | confidence | as-written member | corrected member |
|---|---|---|---|---|---|---|
| src/app/pages/entrenador-agenda/entrenador-agenda.component.ts:152-160 | a group template is placed on a day when its `dia_semana` equals the day's JavaScript `getDay()` (0 = Sunday), while `dia_semana` counts from Monday = 0, as the trainer's home page reads it | a group pack with `dia_semana` 0 (Monday) and a Monday in the week, with nothing else booked at its time: it is in Monday's list on the home page but not on Monday's agenda | map the JavaScript weekday to the database weekday before comparing, as `entrenador-home` does | not executed | EntrenadorHome.AgendaAsWrittenMissesMonday | EntrenadorAgenda.DayData |

The rest of the model uses the corrected `EntrenadorAgenda.DayData`. `EntrenadorAgenda.DayDataAsWritten` keeps the code as written.

## Left out

- HTTP calls and observables are not modelled. A server's answer is an input, and the code that runs on success is a separate function of the page state.
- Error branches that only show a message are not modelled.
- Dialogs (SweetAlert and the popup service's promises) are not modelled. The user's answer is a parameter.
- Timers and Chart.js rendering are left out, because they draw and do not decide.
- The DOM, drag-and-drop events and CSS class strings are left out. Only the values the handlers compute are modelled.
- The browser geolocation call is not modelled. The position, or its failure, is a parameter.
- Photo upload is left out, because it is file I/O.
- JavaScript `Date` is not modelled. Dates are opaque "YYYY-MM-DD" strings that are compared as strings. "Now", "today" and today's weekday are parameters, and so is the calendar arithmetic behind "i days from today".
- `NaN` is modelled as `None`.
- `parseInt` reads only an unsigned leading digit run. Signs, leading whitespace and other bases are not modelled.
- `toLowerCase` lowers the ASCII letters only; other letters keep their case.
- Whitespace is modelled by two sets. `Text.IsSpace` is the set of characters JavaScript's `trim` removes: the WhiteSpace and LineTerminator code points, Unicode ones included. `RemoveHeaders.PySpace` is the set Python's `\s` matches in a `str` pattern, which is what `str.isspace()` accepts.
- Text.NumberOf: models `Number` only on what the pages feed it, where a string of decimal digits (or the empty string) gives its value. Any other string gives `NaN` in the model. JavaScript instead reads leading and trailing whitespace, a sign, a decimal point, an exponent, and `0x`, `0o` and `0b` prefixes, and gives a value for `Infinity`.
- `JSON.parse` is not modelled as a parser. A stored user's JSON text reads back as that user. Any other non-empty text under `currentUser` leaves the current user as it was, where the code would throw.
- `localeCompare` is modelled as plain lexicographic comparison of characters.
- The averages of the skills page (`promedio`, the radar chart's means) are not modelled, because they are floating-point.
- The skills page's "d/m" date labels are not modelled. The raw dates are kept.
- Profile display fields are not modelled. These are the names and photos that the many `loadProfile` methods copy into the page.
- The pack purchase flow (`comprarPack`/`procesarCompra`) is left out, because it is a payment redirect.
- `eliminarPack` is left out, because it is a confirm-then-delete HTTP call with no logic of its own.
- Several tournament operations are left out because they are server-side computations that the page only triggers: `cerrarGrupos`, `cargarResultado`, `generarGrupos` and `generarPartidos`.
- `selectTorneo` and the list loads are left out, because they only store the answers.
- The participant list's HTML in `viewTournamentDetails` is left out. Only its "(Tú)" marks are modelled.
- The player home's evaluation charts are left out, because they are Chart.js rendering.
- Route declarations (`Routes`) are data only, with no contract.
- The directory walk and the `print` of `remove_headers.py` are left out, because they are file-system I/O. Each file's name, path and content are inputs to `RemoveHeaders.ProcessFile`.
- RemoveHeaders.RemoveHeaders: its own contract states only that the text never grows. What a removal takes out is stated by `RemoveHeaders.HeaderMatch`, `RemoveHeaders.PlainRemovesSpan` and `RemoveHeaders.MarkerRemovesSpan`, and which texts it leaves alone by `RemoveHeaders.RemoveHeadersUnchanged`.
- `remove_headers.py` removes only whitespace BEFORE a header block (`\s*` precedes the tags). Whitespace after the block is kept, and the model follows the code.
- Removing headers twice is not claimed to be the same as removing them once. Removing a block can join text into a new opening tag, so idempotence does not hold in general.
- Login.Submit: the warning text shown when a field is missing is not modelled. Only whether the request is made is modelled.
- TorneoJugador.PartnerSearch: a user whose `nombre` is missing is read as having the empty name, so it is never suggested. The source calls `u.nombre.toLowerCase()` without `?.` (torneo-jugador.component.ts:213), so such a user makes the filter throw and the suggestions stay as they were. The model does not represent that throw.
- Alumnos.Filtrar: a student without `jugador_nombre` is read as having the empty name. With a non-empty search term the source's `a.jugador_nombre.toLowerCase()` (alumnos.component.ts:84) throws instead, and the model does not represent that throw.
- EntrenadorPacks.PacksFiltrados: a pack without `nombre` is read as having the empty name. The source's `p.nombre.toLowerCase()` (entrenador-packs.component.ts:94) throws instead, and the model does not represent that throw.
- EntrenadorHome.ClasesHoy: every class is assumed to carry `hora_inicio`. The source's `hora_inicio.substring(0, 5)` (entrenador-home.component.ts:102 and 129) throws on a class without one, and the model does not represent that throw.
- ResetPassword.CheckPassword: string length counts Unicode characters, while JavaScript's `length` counts UTF-16 code units. A password of three characters outside the Basic Multilingual Plane (three emoji, say) is six units long, so the source accepts it and the model rejects it as too short.
- EntrenadorAgenda.NormalizeFoto: the `foto.length > 5` test counts Unicode characters, not UTF-16 code units, for the same reason.
- TorneoJugador.PartnerSearch: the `val.length < 2` test counts Unicode characters, not UTF-16 code units, for the same reason.
- JugadorPacks.QueryOf: latitude and longitude are modelled as integers (a fixed-point reading of the coordinates). The source holds them as JavaScript floating-point numbers, so "each coordinate exactly" means the stored value is sent unchanged. Rounding and the text rendering of a float are not modelled.
