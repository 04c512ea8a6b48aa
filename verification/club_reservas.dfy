/** The court-booking grid of a club administrator: the hourly slots, which reservation
    fills a slot, the colour class of a reservation, editing, drag-and-drop moves, the
    player look-up inside the booking form and the checks done before saving. */
module ClubReservas {
  import opened Wrappers
  import opened Text
  import opened Clock
  import Lists
  import UserSearch

  /** A court reservation as the page holds it (a server record or the booking form).
      `canchaId` 0 means "no court"; `duracion` `None` is `NaN`; a player id `None` is
      `null`; a missing `usuario_id` is `None`. */
  datatype Reserva = Reserva(
    id: Option<int>,
    canchaId: int,
    duracion: Option<int>,
    jugadorId: Option<int>,
    jugador2Id: Option<int>,
    jugador3Id: Option<int>,
    jugador4Id: Option<int>,
    nombreExterno: string,
    nombreExterno2: string,
    nombreExterno3: string,
    nombreExterno4: string,
    fecha: string,
    horaInicio: string,
    horaFin: string,
    precio: int,
    pagado: int,
    estado: string,
    usuarioId: Option<int>)

  /* ---------- the grid ---------- */

  /** The rows of the grid: every full hour from 06:00 to 23:00. */
  function TimeSlots(): (r: seq<string>)
    ensures |r| == 18
    ensures forall i :: 0 <= i < 18 ==> r[i] == FormatTime((6 + i) * 60)
    ensures forall i :: 0 <= i < 18 ==> ParseTime(r[i]) == Some((6 + i) * 60)
    ensures forall i, j :: 0 <= i < j < 18 ==> LexLt(r[i], r[j])
  {
    var r := seq(18, i requires 0 <= i < 18 => PadStart(IntToString(6 + i), 2) + ":00");
    forall i | 0 <= i < 18 ensures r[i] == FormatTime((6 + i) * 60) {
      assert (6 + i) * 60 / 60 == 6 + i;
      assert JsRem((6 + i) * 60, 60) == 0;
      assert PadStart(IntToString(0), 2) == "00";
    }
    forall i | 0 <= i < 18 ensures ParseTime(r[i]) == Some((6 + i) * 60) {
      ReadBack((6 + i) * 60);
    }
    forall i, j | 0 <= i < j < 18 ensures LexLt(r[i], r[j]) {
      FormatTimeOrder((6 + i) * 60, (6 + j) * 60);
    }
    r
  }

  /** The slot at minute `slot` of court `canchaId` is covered by `r`: same court, not
      cancelled, and `start <= slot < end`. A time that does not read as a number (`NaN`)
      makes every comparison false. */
  predicate Occupies(r: Reserva, canchaId: int, slot: Option<int>) {
    && r.canchaId == canchaId
    && r.estado != "Cancelada"
    && slot.Some?
    && ParseTime(r.horaInicio).Some? && ParseTime(r.horaFin).Some?
    && ParseTime(r.horaInicio).value <= slot.value < ParseTime(r.horaFin).value
  }

  /** `getReservaInSlot`: the first reservation in the list covering the slot `hora`. */
  function ReservaInSlot(reservas: seq<Reserva>, canchaId: int, hora: string): (r: Option<Reserva>)
    ensures r.Some? ==> r.value.canchaId == canchaId && r.value.estado != "Cancelada"
    ensures r.Some? ==> exists i :: 0 <= i < |reservas| && reservas[i] == r.value &&
                          Occupies(reservas[i], canchaId, ParseTime(hora)) &&
                          forall j :: 0 <= j < i ==> !Occupies(reservas[j], canchaId, ParseTime(hora))
    ensures r.None? <==> forall i :: 0 <= i < |reservas| ==> !Occupies(reservas[i], canchaId, ParseTime(hora))
  {
    Lists.Find(reservas, x => Occupies(x, canchaId, ParseTime(hora)))
  }

  /** A reservation from `start` to `end`, its times written as "HH:MM", covers exactly
      the slots from `start` (included) to `end` (excluded). */
  lemma CoveredSlots(r: Reserva, start: nat, end: nat, slot: nat)
    requires r.horaInicio == FormatTime(start) && r.horaFin == FormatTime(end)
    requires r.estado != "Cancelada"
    ensures Occupies(r, r.canchaId, ParseTime(FormatTime(slot))) <==> start <= slot < end
  {
    ReadsAs(r.horaInicio, start);
    ReadsAs(r.horaFin, end);
    ReadBack(slot);
  }

  /** The colour class of a reservation on the grid. */
  datatype SlotClass = BlockedSlot | AdminReserva | PlayerReserva

  /** `getReservaClass`: blocked first; then a reservation without a user account but with
      an external name is the administrator's; everything else is a player's. */
  function ClassOf(r: Reserva): (c: SlotClass)
    ensures c == BlockedSlot <==> r.estado == "Bloqueada"
    ensures c == AdminReserva <==> r.estado != "Bloqueada" && !TruthyInt(r.usuarioId) && r.nombreExterno != ""
  {
    if r.estado == "Bloqueada" then BlockedSlot
    else if !TruthyInt(r.usuarioId) && r.nombreExterno != "" then AdminReserva
    else PlayerReserva
  }

  /* ---------- editing and moving ---------- */

  /** `b - a` on numbers that may be `NaN`. */
  function Minus(b: Option<int>, a: Option<int>): Option<int> {
    if a.Some? && b.Some? then Some(b.value - a.value) else None
  }

  /** `a + b` on numbers that may be `NaN`. */
  function Plus(a: Option<int>, b: Option<int>): Option<int> {
    if a.Some? && b.Some? then Some(a.value + b.value) else None
  }

  /** The length of a reservation in minutes, `NaN` when a time does not read. */
  function Duration(r: Reserva): Option<int> {
    Minus(ParseTime(r.horaFin), ParseTime(r.horaInicio))
  }

  /** `editarReserva`: the form receives a copy of the reservation with both times cut to
      "HH:MM" and the duration those two times span. */
  function EditForm(res: Reserva): (f: Reserva)
    ensures f.horaInicio == Prefix(res.horaInicio, 5) && f.horaFin == Prefix(res.horaFin, 5)
    ensures f.duracion == Duration(f)
    ensures f.(horaInicio := res.horaInicio, horaFin := res.horaFin, duracion := res.duracion) == res
  {
    var ini := Prefix(res.horaInicio, 5);
    var fin := Prefix(res.horaFin, 5);
    res.(horaInicio := ini, horaFin := fin, duracion := Minus(ParseTime(fin), ParseTime(ini)))
  }

  /** `onDrop`: the dragged reservation moves to court `canchaId` at `hora`, keeping its
      length (when the times read and the new end is not before midnight); nothing happens
      when nothing is being dragged. */
  function Drop(dragged: Option<Reserva>, canchaId: int, hora: string): (r: Option<Reserva>)
    ensures r.Some? <==> dragged.Some?
    ensures r.Some? ==> r.value.canchaId == canchaId && r.value.horaInicio == hora
    ensures r.Some? ==> r.value.(canchaId := dragged.value.canchaId, horaInicio := dragged.value.horaInicio,
                                 horaFin := dragged.value.horaFin) == dragged.value
    ensures r.Some? ==> r.value.horaFin == MovedEnd(hora, Duration(dragged.value))
  {
    match dragged
    case None => None
    case Some(res) =>
      Some(res.(canchaId := canchaId, horaInicio := hora, horaFin := MovedEnd(hora, Duration(res))))
  }

  /** The end of a moved reservation: the new start (read with `split(':')`) plus the old
      length, rendered "HH:MM"; `NaN` when either does not read. */
  function MovedEnd(hora: string, duracion: Option<int>): string {
    FormatMaybe(Plus(ParseTime(hora), duracion))
  }

  /** Where the times read, the dropped reservation ends at the rendering of its new start
      plus its old length. */
  lemma DropEnd(res: Reserva, canchaId: int, hora: string, moved: Reserva, h: int, d: int)
    requires Drop(Some(res), canchaId, hora) == Some(moved)
    requires ParseTime(hora) == Some(h) && Duration(res) == Some(d) && h + d >= 0
    ensures ParseTime(moved.horaInicio) == Some(h) && moved.horaFin == FormatTime(h + d)
  {
    MovedEndRendered(hora, Duration(res), h, d);
  }

  /** A new start at minute `h` and a length of `d` minutes end at the rendering of `h + d`. */
  lemma MovedEndRendered(hora: string, duracion: Option<int>, h: int, d: int)
    requires ParseTime(hora) == Some(h) && duracion == Some(d) && h + d >= 0
    ensures MovedEnd(hora, duracion) == FormatTime(h + d)
  {
    assert Plus(ParseTime(hora), duracion) == Some(h + d);
  }

  /** Dropping keeps the reservation's length whenever the old times read and the new end
      falls on or after midnight. */
  lemma DropKeepsDuration(res: Reserva, canchaId: int, hora: string, moved: Reserva, h: int, d: int)
    requires Drop(Some(res), canchaId, hora) == Some(moved)
    requires ParseTime(hora) == Some(h) && Duration(res) == Some(d) && h + d >= 0
    ensures Duration(moved) == Some(d)
  {
    DropEnd(res, canchaId, hora, moved, h, d);
    EndRendered(moved, h, d);
  }

  /** A reservation starting at minute `h` whose end is the rendering of minute `h + d`
      lasts `d` minutes. */
  lemma EndRendered(r: Reserva, h: int, d: int)
    requires ParseTime(r.horaInicio) == Some(h) && h + d >= 0 && r.horaFin == FormatTime(h + d)
    ensures Duration(r) == Some(d)
  {
    ReadsAs(r.horaFin, h + d);
    DurationOfSpan(r, h, d);
  }

  /** A reservation whose times read as minutes `s` and `s + d` lasts `d` minutes. */
  lemma DurationOfSpan(r: Reserva, s: int, d: int)
    requires ParseTime(r.horaInicio) == Some(s) && ParseTime(r.horaFin) == Some(s + d)
    ensures Duration(r) == Some(d)
  {
  }

  /* ---------- the booking form ---------- */

  /** The booking form: the reservation being written, which of the four player fields
      the look-up fills, and the current suggestions. */
  datatype Form = Form(reserva: Reserva, activeSlot: int, filtered: seq<UserSearch.User>, searchTerm: string)

  /** The name typed in player field `k` (1 to 4); any other field number reads as ''. */
  function SlotName(r: Reserva, k: int): string {
    if k == 1 then r.nombreExterno
    else if k == 2 then r.nombreExterno2
    else if k == 3 then r.nombreExterno3
    else if k == 4 then r.nombreExterno4
    else ""
  }

  /** The player id of field `k` (1 to 4). */
  function SlotId(r: Reserva, k: int): Option<int>
    requires 1 <= k <= 4
  {
    if k == 1 then r.jugadorId
    else if k == 2 then r.jugador2Id
    else if k == 3 then r.jugador3Id
    else r.jugador4Id
  }

  /** Writes the id of player field `k`. */
  function SetSlotId(r: Reserva, k: int, id: Option<int>): (r': Reserva)
    requires 1 <= k <= 4
    ensures SlotId(r', k) == id
    ensures forall j :: 1 <= j <= 4 && j != k ==> SlotId(r', j) == SlotId(r, j)
    ensures forall j :: 1 <= j <= 4 ==> SlotName(r', j) == SlotName(r, j)
    ensures r'.(jugadorId := r.jugadorId, jugador2Id := r.jugador2Id, jugador3Id := r.jugador3Id,
                jugador4Id := r.jugador4Id) == r
  {
    if k == 1 then r.(jugadorId := id)
    else if k == 2 then r.(jugador2Id := id)
    else if k == 3 then r.(jugador3Id := id)
    else r.(jugador4Id := id)
  }

  /** Writes the name of player field `k`. */
  function SetSlotName(r: Reserva, k: int, name: string): (r': Reserva)
    requires 1 <= k <= 4
    ensures SlotName(r', k) == name
    ensures forall j :: 1 <= j <= 4 && j != k ==> SlotName(r', j) == SlotName(r, j)
    ensures forall j :: 1 <= j <= 4 ==> SlotId(r', j) == SlotId(r, j)
    ensures r'.(nombreExterno := r.nombreExterno, nombreExterno2 := r.nombreExterno2,
                nombreExterno3 := r.nombreExterno3, nombreExterno4 := r.nombreExterno4) == r
  {
    if k == 1 then r.(nombreExterno := name)
    else if k == 2 then r.(nombreExterno2 := name)
    else if k == 3 then r.(nombreExterno3 := name)
    else r.(nombreExterno4 := name)
  }

  /** `searchUsers`: a blank name in the active field clears the suggestions; otherwise the
      field's player id is reset to 0 (the name now counts as a guest) and the suggestions
      are the look-up's result for that name. */
  function SearchUsers(f: Form, users: seq<UserSearch.User>): (f': Form)
    ensures IsBlank(SlotName(f.reserva, f.activeSlot)) ==> f' == f.(filtered := [])
    ensures !IsBlank(SlotName(f.reserva, f.activeSlot)) ==>
              && 1 <= f.activeSlot <= 4
              && SlotId(f'.reserva, f.activeSlot) == Some(0)
              && f'.filtered == UserSearch.Search(users, SlotName(f.reserva, f.activeSlot))
              && (forall j :: 1 <= j <= 4 && j != f.activeSlot ==> SlotId(f'.reserva, j) == SlotId(f.reserva, j))
              && (forall j :: 1 <= j <= 4 ==> SlotName(f'.reserva, j) == SlotName(f.reserva, j))
    ensures |f'.filtered| <= UserSearch.MaxSuggestions
    ensures f'.activeSlot == f.activeSlot && f'.searchTerm == f.searchTerm
  {
    var term := SlotName(f.reserva, f.activeSlot);
    if IsBlank(term) then f.(filtered := [])
    else
      f.(reserva := SetSlotId(f.reserva, f.activeSlot, Some(0)), filtered := UserSearch.Search(users, term))
  }

  /** `selectUser`: the chosen user's id and name fill the active player field only, and the
      suggestions close. */
  function SelectUser(f: Form, u: UserSearch.User): (f': Form)
    ensures f'.filtered == []
    ensures 1 <= f.activeSlot <= 4 ==>
              && SlotId(f'.reserva, f.activeSlot) == Some(u.id)
              && SlotName(f'.reserva, f.activeSlot) == u.nombre
    ensures forall j :: 1 <= j <= 4 && j != f.activeSlot ==>
              SlotId(f'.reserva, j) == SlotId(f.reserva, j) && SlotName(f'.reserva, j) == SlotName(f.reserva, j)
    ensures f'.reserva.(jugadorId := f.reserva.jugadorId, jugador2Id := f.reserva.jugador2Id,
                        jugador3Id := f.reserva.jugador3Id, jugador4Id := f.reserva.jugador4Id,
                        nombreExterno := f.reserva.nombreExterno, nombreExterno2 := f.reserva.nombreExterno2,
                        nombreExterno3 := f.reserva.nombreExterno3, nombreExterno4 := f.reserva.nombreExterno4)
            == f.reserva
  {
    var k := f.activeSlot;
    if 1 <= k <= 4 then
      f.(reserva := SetSlotName(SetSlotId(f.reserva, k, Some(u.id)), k, u.nombre), filtered := [])
    else f.(filtered := [])
  }

  /** What pressing "save" leads to. */
  datatype SaveOutcome =
    | Incomplete                          // no court or no start time: warning, no call
    | MissingPlayer                       // a confirmed booking without player 1: notice, no call
    | Save(reserva: Reserva, update: bool) // the record sent, and whether it updates an existing one

  const BlockName: string := "BLOQUEO ADMINISTRATIVO"

  /** `crearReserva`: the two checks in order, the clean-up of an administrative block, and
      the end time computed from the start time and the duration. */
  function CrearReserva(r: Reserva): (o: SaveOutcome)
    ensures o == Incomplete <==> r.canchaId == 0 || r.horaInicio == ""
    ensures o == MissingPlayer <==>
              r.canchaId != 0 && r.horaInicio != "" &&
              r.estado == "Confirmada" && r.nombreExterno == "" && !TruthyInt(r.jugadorId)
    ensures o.Save? ==> o.update == TruthyInt(r.id)
    ensures o.Save? && r.estado == "Bloqueada" ==>
              && o.reserva.nombreExterno == BlockName && o.reserva.precio == 0
              && o.reserva.jugadorId == None && o.reserva.jugador2Id == None
              && o.reserva.jugador3Id == None && o.reserva.jugador4Id == None
              && o.reserva == r.(nombreExterno := BlockName, jugadorId := None, jugador2Id := None,
                                 jugador3Id := None, jugador4Id := None, precio := 0,
                                 horaFin := o.reserva.horaFin)
    ensures o.Save? && r.estado != "Bloqueada" ==> o.reserva == r.(horaFin := o.reserva.horaFin)
    ensures o.Save? ==> o.reserva.horaFin == HoraFin(r.horaInicio, r.duracion)
  {
    if r.canchaId == 0 || r.horaInicio == "" then Incomplete
    else if r.estado == "Confirmada" && r.nombreExterno == "" && !TruthyInt(r.jugadorId) then MissingPlayer
    else
      var b := if r.estado == "Bloqueada" then
          r.(nombreExterno := BlockName, jugadorId := None, jugador2Id := None,
             jugador3Id := None, jugador4Id := None, precio := 0)
        else r;
      Save(b.(horaFin := HoraFin(r.horaInicio, r.duracion)), TruthyInt(r.id))
  }

  /** The end `crearReserva` writes: the start's minutes (read with `parseInt`) plus the
      duration, rendered "HH:MM"; `NaN` when either is missing. */
  function HoraFin(horaInicio: string, duracion: Option<int>): string {
    FormatMaybe(Plus(ParseTimeLoose(horaInicio), duracion))
  }

  /** A start that reads as minute `h` and a duration of `d` minutes end at the rendering
      of minute `h + d`, which reads back as `h + d`. */
  lemma HoraFinReads(horaInicio: string, duracion: Option<int>, h: int, d: int)
    requires ParseTimeLoose(horaInicio) == Some(h) && duracion == Some(d) && h + d >= 0
    ensures HoraFin(horaInicio, duracion) == FormatTime(h + d)
    ensures ParseTime(HoraFin(horaInicio, duracion)) == Some(h + d)
  {
    assert Plus(ParseTimeLoose(horaInicio), duracion) == Some(h + d);
    ReadsAs(HoraFin(horaInicio, duracion), h + d);
  }

  /** A saved administrative block shows on the grid as a blocked slot. */
  lemma SavedBlockIsBlocked(r: Reserva)
    requires r.estado == "Bloqueada"
    requires CrearReserva(r).Save?
    ensures ClassOf(CrearReserva(r).reserva) == BlockedSlot
  {
  }

  /** A start at minute `s` lasting until minute `e` ends at the rendering of `e`. */
  lemma EndAfterSpan(horaInicio: string, duracion: Option<int>, s: int, e: nat)
    requires ParseTimeLoose(horaInicio) == Some(s) && duracion == Some(e - s)
    ensures HoraFin(horaInicio, duracion) == FormatTime(e)
  {
    assert Plus(ParseTimeLoose(horaInicio), duracion) == Some(e);
  }

  /** The end time of a saved reservation reads back as its start plus its duration. */
  lemma SavedEndReads(r: Reserva, h: int, d: int)
    requires CrearReserva(r).Save?
    requires ParseTimeLoose(r.horaInicio) == Some(h) && r.duracion == Some(d) && h + d >= 0
    ensures ParseTime(CrearReserva(r).reserva.horaFin) == Some(h + d)
  {
    HoraFinReads(r.horaInicio, r.duracion, h, d);
  }

  /** The first five characters of a rendered time followed by seconds are the rendered time. */
  lemma CutToMinutes(x: string, t: nat, sfx: string)
    requires t < 6000 && x == FormatTime(t) + sfx
    ensures Prefix(x, 5) == FormatTime(t)
  {
    FormatTimeWidth(t);
  }

  /** A reservation whose times are the renderings of minutes `s` and `e` lasts `e - s`
      minutes. */
  lemma RenderedTimes(r: Reserva, s: nat, e: nat)
    requires r.horaInicio == FormatTime(s) && r.horaFin == FormatTime(e)
    ensures Duration(r) == Some(e - s)
  {
    var ini, fin := r.horaInicio, r.horaFin;
    ReadsAs(ini, s);
    ReadsAs(fin, e);
    DurationOfParsed(r, s, e);
  }

  /** A reservation whose times read as minutes `s` and `e` lasts `e - s` minutes. */
  lemma DurationOfParsed(r: Reserva, s: int, e: int)
    requires ParseTime(r.horaInicio) == Some(s) && ParseTime(r.horaFin) == Some(e)
    ensures Duration(r) == Some(e - s)
  {
  }

  /** The edit form of a reservation stored with times `s` and `e` (possibly with seconds)
      holds the two times as "HH:MM". */
  lemma EditFormCut(res: Reserva, s: nat, e: nat, sfx1: string, sfx2: string)
    requires s < 6000 && e < 6000
    requires res.horaInicio == FormatTime(s) + sfx1 && res.horaFin == FormatTime(e) + sfx2
    ensures EditForm(res).horaInicio == FormatTime(s) && EditForm(res).horaFin == FormatTime(e)
  {
    CutToMinutes(res.horaInicio, s, sfx1);
    CutToMinutes(res.horaFin, e, sfx2);
  }

  /** ... so it starts at `s` and lasts `e - s` minutes. */
  lemma EditFormTimes(res: Reserva, s: nat, e: nat, sfx1: string, sfx2: string)
    requires s < 6000 && e < 6000
    requires res.horaInicio == FormatTime(s) + sfx1 && res.horaFin == FormatTime(e) + sfx2
    ensures ParseTimeLoose(EditForm(res).horaInicio) == Some(s)
    ensures EditForm(res).duracion == Some(e - s)
  {
    EditFormCut(res, s, e, sfx1, sfx2);
    RenderedTimes(EditForm(res), s, e);
    var ini := EditForm(res).horaInicio;
    ReadsAs(ini, s);
  }

  /** Opening a stored reservation in the form and saving it unchanged writes back the
      stored end time as "HH:MM" (which is the stored end cut to five characters, by
      `CutToMinutes`): the duration the form derives gives back the end it came from. */
  lemma EditThenSaveKeepsEnd(res: Reserva, s: nat, e: nat, sfx1: string, sfx2: string)
    requires s <= e < 6000
    requires res.horaInicio == FormatTime(s) + sfx1 && res.horaFin == FormatTime(e) + sfx2
    requires CrearReserva(EditForm(res)).Save?
    ensures CrearReserva(EditForm(res)).reserva.horaFin == FormatTime(e)
  {
    EditFormTimes(res, s, e, sfx1, sfx2);
    var f := EditForm(res);
    EndAfterSpan(f.horaInicio, f.duracion, s, e);
  }

  /** `resetForm`: the empty booking form on the first court of the club (or none). */
  function ResetForm(f: Form, canchaIds: seq<int>, selectedFecha: string): (f': Form)
    ensures f'.activeSlot == 1 && f'.searchTerm == "" && f'.filtered == f.filtered
    ensures f'.reserva.canchaId == (if |canchaIds| > 0 then canchaIds[0] else 0)
    ensures f'.reserva.fecha == selectedFecha && f'.reserva.horaInicio == "" && f'.reserva.horaFin == ""
    ensures f'.reserva.id == None && f'.reserva.duracion == Some(90)
    ensures f'.reserva.estado == "Confirmada" && f'.reserva.precio == 0 && f'.reserva.pagado == 1
    ensures forall k :: 1 <= k <= 4 ==> SlotId(f'.reserva, k) == Some(0) && SlotName(f'.reserva, k) == ""
  {
    var cancha := if |canchaIds| > 0 && canchaIds[0] != 0 then canchaIds[0] else 0;
    var r := Reserva(None, cancha, Some(90), Some(0), Some(0), Some(0), Some(0), "", "", "", "",
                     selectedFecha, "", "", 0, 1, "Confirmada", None);
    f.(reserva := r, activeSlot := 1, searchTerm := "")
  }

  /** A freshly reset form has no start time, so saving it is refused. */
  lemma ResetFormIsIncomplete(f: Form, canchaIds: seq<int>, selectedFecha: string)
    ensures CrearReserva(ResetForm(f, canchaIds, selectedFecha).reserva) == Incomplete
  {
  }
}
