/** A player booking a court of a club: picking a club, the six days on offer, and the
    booking of a free start time for 60 or 90 minutes. */
module ClubesJugador {
  import opened Wrappers
  import opened Text
  import Clock

  /* ---------- choosing a club ---------- */

  /** A start time of a court, as the availability answer lists it. */
  datatype Horario = Horario(horaInicio: string, disponible: bool)

  /** What the page has chosen: a club, one of its courts, and the court's times. */
  datatype Seleccion = Seleccion(club: Option<int>, cancha: Option<int>, horarios: seq<Horario>, fecha: string)

  /** `onSelectClub`: the new club, with no court and no times until a court is chosen. */
  function OnSelectClub(s: Seleccion, club: int): (t: Seleccion)
    ensures t.club == Some(club) && t.cancha == None && t.horarios == [] && t.fecha == s.fecha
  {
    s.(club := Some(club), cancha := None, horarios := [])
  }

  /** After choosing a club nothing can be booked until a court is chosen again. */
  lemma NoCourtAfterClubChange(s: Seleccion, club: int, other: int)
    ensures OnSelectClub(OnSelectClub(s, other), club) == OnSelectClub(s, club)
  {
  }

  /* ---------- the days on offer ---------- */

  const DayNames: seq<string> := ["DOM", "LUN", "MAR", "MIÉ", "JUE", "VIE", "SÁB"]
  const DaysShown: nat := 6

  datatype WeekDay = WeekDay(nombre: string, numero: int, fullDate: string)

  /** `generateWeekDays`: today and the five following days. `hoy` is today's JavaScript
      weekday (0 = Sunday); `numeroOf(i)` and `fechaOf(i)` are the day of the month and the
      date string `i` days from today. */
  function GenerateWeekDays(hoy: int, numeroOf: nat -> int, fechaOf: nat -> string): (r: seq<WeekDay>)
    requires 0 <= hoy <= 6
    ensures |r| == DaysShown
    ensures r[0].nombre == DayNames[hoy]
    ensures forall i :: 0 <= i < |r| ==> r[i].numero == numeroOf(i) && r[i].fullDate == fechaOf(i)
    ensures forall i :: 0 <= i < |r| ==> r[i].nombre == DayNames[(hoy + i) % 7]
  {
    seq(DaysShown, i requires 0 <= i < DaysShown => WeekDay(DayNames[(hoy + i) % 7], numeroOf(i), fechaOf(i)))
  }

  /** Six days are fewer than a week: no two days on offer carry the same name. */
  lemma WeekDayNamesDistinct(hoy: int, numeroOf: nat -> int, fechaOf: nat -> string, i: nat, j: nat)
    requires 0 <= hoy <= 6 && i < j < DaysShown
    ensures GenerateWeekDays(hoy, numeroOf, fechaOf)[i].nombre != GenerateWeekDays(hoy, numeroOf, fechaOf)[j].nombre
  {
    var r := GenerateWeekDays(hoy, numeroOf, fechaOf);
    assert r[i].nombre == DayNames[(hoy + i) % 7] && r[j].nombre == DayNames[(hoy + j) % 7];
    ShiftsDiffer(hoy, i, j);
    DayNamesDistinct((hoy + i) % 7, (hoy + j) % 7);
  }

  /** Fewer than seven days apart, two days fall on different weekdays. */
  lemma ShiftsDiffer(hoy: int, i: nat, j: nat)
    requires 0 <= hoy <= 6 && i < j < 7
    ensures (hoy + i) % 7 != (hoy + j) % 7
  {
    assert 0 < j - i < 7;
  }

  /** The seven day names are all different. */
  lemma DayNamesDistinct(a: nat, b: nat)
    requires a < 7 && b < 7 && a != b
    ensures DayNames[a] != DayNames[b]
  {
  }

  /* ---------- booking ---------- */

  /** The answer of the duration dialog. */
  datatype Choice = Dismissed | Confirmed | Denied

  /** The reservation sent to the server. */
  datatype Booking = Booking(
    canchaId: int,
    usuarioId: Option<int>,
    nombreExterno: string,
    fecha: string,
    horaInicio: string,
    horaFin: string,
    precio: int,
    pagado: int,
    estado: string,
    jugadorId: Option<int>,
    nombreExterno2: string,
    nombreExterno3: string,
    nombreExterno4: string)

  datatype Outcome =
    | Unavailable    // error: the time is taken
    | Nothing        // a dialog was dismissed or declined
    | Book(booking: Booking)

  /** The length the duration dialog chooses: the confirm button is 90 minutes, the deny
      button 60. */
  function Duracion(c: Choice): (d: int)
    requires c != Dismissed
    ensures d == 90 <==> c == Confirmed
    ensures d == 60 <==> c == Denied
  {
    match c
    case Confirmed => 90
    case Denied => 60
  }

  /** The price of a booking of `d` minutes. */
  function Precio(d: int): int {
    if d == 90 then 20 else 15
  }

  /** `hora_fin`: the start's minutes (read with `parseInt`) plus the duration, rendered as
      "HH:MM:00"; `NaN` when the start does not read. */
  function HoraFin(horaInicio: string, duracion: int): string {
    var total := match Clock.ParseTimeLoose(horaInicio)
      case Some(t) => Some(t + duracion)
      case None => None;
    Clock.FormatMaybe(total) + ":00"
  }

  /** `reservar`, with the two dialogs answered by `choice` and `confirmed`; the court,
      date and user are the page's current ones. */
  function Reservar(h: Horario, choice: Choice, confirmed: bool, canchaId: int, fecha: string,
                    userId: Option<int>, userName: string): (o: Outcome)
    ensures o == Unavailable <==> !h.disponible
    ensures o == Nothing <==> h.disponible && (choice == Dismissed || !confirmed)
    ensures o.Book? ==> && o.booking.horaInicio == h.horaInicio && o.booking.canchaId == canchaId
                        && o.booking.fecha == fecha
                        && o.booking.horaFin == HoraFin(h.horaInicio, Duracion(choice))
                        && o.booking.precio == (if choice == Confirmed then 20 else 15)
                        && o.booking.pagado == 0 && o.booking.estado == "Confirmada"
                        && o.booking.usuarioId == userId && o.booking.jugadorId == userId
                        && o.booking.nombreExterno == userName
                        && o.booking.nombreExterno2 == "" && o.booking.nombreExterno3 == "" && o.booking.nombreExterno4 == ""
  {
    if !h.disponible then Unavailable
    else if choice == Dismissed || !confirmed then Nothing
    else
      var d := Duracion(choice);
      Book(Booking(canchaId, userId, userName, fecha, h.horaInicio, HoraFin(h.horaInicio, d),
                   Precio(d), 0, "Confirmada", userId, "", "", ""))
  }

  /** A booked start time rendered as "HH:MM:SS" ends exactly 60 or 90 minutes later:
      the end reads back as start plus the chosen length, and the price is 20 for the
      longer game and 15 for the shorter. */
  lemma BookingSpansChoice(s: nat, h: Horario, choice: Choice, canchaId: int, fecha: string, userId: Option<int>, userName: string)
    requires h.disponible && choice != Dismissed
    requires h.horaInicio == Clock.FormatTime(s) + ":00"
    ensures var o := Reservar(h, choice, true, canchaId, fecha, userId, userName);
            && o.Book?
            && Clock.ParseTime(o.booking.horaInicio) == Some(s)
            && Clock.ParseTime(o.booking.horaFin) == Some(s + Duracion(choice))
            && (o.booking.precio == 20 <==> Duracion(choice) == 90)
  {
    Clock.ParseFormatTime(s, ":00");
    EndReads(h.horaInicio, s, Duracion(choice));
  }

  /** The end of a booking whose start reads as minute `s` reads back as `s + d`. */
  lemma EndReads(horaInicio: string, s: nat, d: nat)
    requires Clock.ParseTimeLoose(horaInicio) == Some(s)
    ensures Clock.ParseTime(HoraFin(horaInicio, d)) == Some(s + d)
  {
    EndRendered(horaInicio, s, d);
    SecondsReadBack(HoraFin(horaInicio, d), s + d);
  }

  /** "HH:MM:00" reads back as its minute count. */
  lemma SecondsReadBack(x: string, t: nat)
    requires x == Clock.FormatTime(t) + ":00"
    ensures Clock.ParseTime(x) == Some(t)
  {
    Clock.ParseFormatTime(t, ":00");
  }

  /** The end is the start's minutes plus the duration, rendered "HH:MM:00". */
  lemma EndRendered(horaInicio: string, s: nat, d: nat)
    requires Clock.ParseTimeLoose(horaInicio) == Some(s)
    ensures HoraFin(horaInicio, d) == Clock.FormatTime(s + d) + ":00"
  {
  }
}
