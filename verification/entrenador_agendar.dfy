/** A trainer booking one of their students into a free hour, once or weekly for a number
    of weeks. The bookable hours are those of `HourlyBlocks`. */
module EntrenadorAgendar {
  import opened Wrappers
  import opened Text
  import HourlyBlocks

  /** A student of the trainer, with the pack the classes are charged to. */
  datatype Alumno = Alumno(jugadorId: int, jugadorNombre: string, packId: int, packJugadorId: int)

  /** The booking sent to the server. */
  datatype Booking = Booking(
    entrenadorId: Option<int>,
    packId: int,
    packJugadorId: int,
    fecha: string,
    horaInicio: string,
    horaFin: string,
    jugadorId: int,
    estado: string,
    recurrencia: int)

  datatype Outcome =
    | NoStudent  // warning: choose a student first
    | Ignored    // the hour is booked: nothing happens
    | Dismissed  // the confirmation was declined
    | Book(booking: Booking)

  /** The recurrence part of the confirmation text. */
  function RecurrenceNote(recurrencia: int): (r: string)
    ensures r != "" <==> recurrencia > 1
    ensures recurrencia > 1 ==> r == " por " + IntToString(recurrencia) + " semanas"
  {
    if recurrencia > 1 then " por " + IntToString(recurrencia) + " semanas" else ""
  }

  /** `reservarHorario` after the confirmation dialog answers `confirmed`: the student is
      checked before the hour, and the booking takes its player and pack from the student. */
  function ReservarHorario(alumno: Option<Alumno>, h: HourlyBlocks.Horario, confirmed: bool,
                           entrenadorId: Option<int>, recurrencia: int): (o: Outcome)
    ensures alumno.None? <==> o == NoStudent
    ensures o == Ignored <==> alumno.Some? && h.ocupado
    ensures o.Book? <==> alumno.Some? && !h.ocupado && confirmed
    ensures o.Book? ==> && o.booking.jugadorId == alumno.value.jugadorId
                        && o.booking.packId == alumno.value.packId
                        && o.booking.packJugadorId == alumno.value.packJugadorId
                        && o.booking.entrenadorId == entrenadorId
                        && o.booking.estado == "reservado" && o.booking.recurrencia == recurrencia
                        && o.booking.fecha == h.fecha
                        && o.booking.horaInicio == HourlyBlocks.HoraDe(h.inicio)
                        && o.booking.horaFin == HourlyBlocks.HoraDe(h.fin)
  {
    match alumno
    case None => NoStudent
    case Some(a) =>
      if h.ocupado then Ignored
      else if !confirmed then Dismissed
      else Book(Booking(entrenadorId, a.packId, a.packJugadorId, h.fecha,
                        HourlyBlocks.HoraDe(h.inicio), HourlyBlocks.HoraDe(h.fin), a.jugadorId, "reservado", recurrencia))
  }

  /** `ngOnInit`: the page is for a signed-in trainer; anyone else goes to the login page. */
  function CanOpen(userId: Option<int>, userRole: Option<string>): (ok: bool)
    ensures ok <==> TruthyInt(userId) && userRole == Some("entrenador")
  {
    TruthyInt(userId) && userRole == Some("entrenador")
  }
}
