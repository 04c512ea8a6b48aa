/** The trainer's home page: who may stay on it, and the list of today's classes (the
    individual classes dated today and the weekly group classes of today's weekday,
    ordered by start time). */
module EntrenadorHome {
  import opened Wrappers
  import opened Text
  import Clock
  import Lists
  import Sorting
  import EntrenadorAgenda

  /* ---------- access ---------- */

  datatype Route = Login | AdminClub | JugadorHome | Stay

  /** The role as `(localStorage.getItem('userRole') || '').toLowerCase()` reads it. */
  function RoleOf(userRole: Option<string>): string {
    Lower(userRole.GetOr(""))
  }

  /** `ngOnInit`: without a user id to the login page; an administrator to the club
      administration; a player, a student or a trainer stays; anyone else goes to the
      player's home. */
  function Redirect(userId: Option<int>, userRole: Option<string>): (r: Route)
    ensures r == Login <==> !TruthyInt(userId)
    ensures r == AdminClub <==> TruthyInt(userId) && Contains(RoleOf(userRole), "admin")
    ensures r == Stay <==> && TruthyInt(userId) && !Contains(RoleOf(userRole), "admin")
                           && (|| Contains(RoleOf(userRole), "jugador") || Contains(RoleOf(userRole), "alumno")
                               || Contains(RoleOf(userRole), "entrenador"))
  {
    var role := RoleOf(userRole);
    AdministradorIsAdmin(role);
    if !TruthyInt(userId) then Login
    else if Contains(role, "admin") || Contains(role, "administrador") then AdminClub
    else if Contains(role, "jugador") || Contains(role, "alumno") then Stay
    else if !Contains(role, "entrenador") then JugadorHome
    else Stay
  }

  /** The redirect does not depend on the case of the stored role. */
  lemma RedirectIgnoresCase(userId: Option<int>, role: string)
    ensures Redirect(userId, Some(role)) == Redirect(userId, Some(Lower(role)))
  {
    assert Lower(Lower(role)) == Lower(role);
  }

  /* ---------- today's classes ---------- */

  /** An individual class of the answer. */
  datatype Individual = Individual(fecha: Option<string>, horaInicio: string, jugadorNombre: Option<string>,
                                   packNombre: Option<string>, estado: Option<string>)

  /** A weekly group class of the answer; `diaSemana` is `Number(dia_semana)`, `None` for
      `NaN`. */
  datatype Grupal = Grupal(diaSemana: Option<int>, horaInicio: string, packNombre: Option<string>,
                           inscritosConfirmados: Option<int>)

  /** One line of today's list. */
  datatype ClaseHoy = ClaseHoy(hora: string, tipo: string, titulo: Option<string>, subtitulo: Option<string>,
                               estado: Option<string>)

  function IndividualItem(r: Individual): ClaseHoy {
    ClaseHoy(Prefix(r.horaInicio, 5), "Individual", r.jugadorNombre, r.packNombre, r.estado)
  }

  function GrupalItem(g: Grupal): ClaseHoy {
    ClaseHoy(Prefix(g.horaInicio, 5), "Grupal", g.packNombre,
             Some(IntToString(EntrenadorAgenda.OrElse(g.inscritosConfirmados, 0)) + " inscritos"), Some("activo"))
  }

  /** An individual class is today's when it is dated today. */
  predicate IndividualToday(r: Individual, fechaHoy: string) {
    r.fecha == Some(fechaHoy)
  }

  /** A group class is today's when its weekday, in the database convention (0 = Monday),
      is today's; `jsDay` is today's JavaScript weekday (0 = Sunday). */
  predicate GroupToday(diaSemana: Option<int>, jsDay: int)
    requires 0 <= jsDay <= 6
  {
    diaSemana == Some(Clock.JsDayToDbDay(jsDay))
  }

  function Hora(c: ClaseHoy): string {
    c.hora
  }

  /** The lines of an individual class dated today and a group class of today's weekday. */
  ghost predicate Listed(c: ClaseHoy, ts: seq<Individual>, gs: seq<Grupal>, fechaHoy: string, jsDay: int)
    requires 0 <= jsDay <= 6
  {
    || (exists k :: 0 <= k < |ts| && IndividualToday(ts[k], fechaHoy) && c == IndividualItem(ts[k]))
    || (exists k :: 0 <= k < |gs| && GroupToday(gs[k].diaSemana, jsDay) && c == GrupalItem(gs[k]))
  }

  /** The lines of the individual classes dated today, in answer order. */
  function IndividualLines(ts: seq<Individual>, fechaHoy: string): (u: seq<ClaseHoy>)
    ensures forall c :: c in u <==> exists k :: 0 <= k < |ts| && IndividualToday(ts[k], fechaHoy) && c == IndividualItem(ts[k])
  {
    var today := (r: Individual) => IndividualToday(r, fechaHoy);
    Lists.FilterMapMembers(ts, today, IndividualItem);
    Lists.Map(Lists.Filter(ts, today), IndividualItem)
  }

  /** The lines of the group classes of today's weekday, in answer order. */
  function GroupLines(gs: seq<Grupal>, jsDay: int): (u: seq<ClaseHoy>)
    requires 0 <= jsDay <= 6
    ensures forall c :: c in u <==> exists k :: 0 <= k < |gs| && GroupToday(gs[k].diaSemana, jsDay) && c == GrupalItem(gs[k])
  {
    var weekday := (g: Grupal) => GroupToday(g.diaSemana, jsDay);
    Lists.FilterMapMembers(gs, weekday, GrupalItem);
    Lists.Map(Lists.Filter(gs, weekday), GrupalItem)
  }

  /** The classes of `loadData`, before sorting. */
  function Unsorted(ts: seq<Individual>, gs: seq<Grupal>, fechaHoy: string, jsDay: int): (u: seq<ClaseHoy>)
    requires 0 <= jsDay <= 6
    ensures forall c :: c in u <==> Listed(c, ts, gs, fechaHoy, jsDay)
    ensures forall i :: 0 <= i < |u| ==> |u[i].hora| <= 5
  {
    IndividualLines(ts, fechaHoy) + GroupLines(gs, jsDay)
  }

  /** `loadData`'s list: a line for each individual class dated today and each group class
      of today's weekday, ordered by start time; a missing list contributes nothing. */
  function ClasesHoy(tradicionales: Option<seq<Individual>>, grupales: Option<seq<Grupal>>, fechaHoy: string, jsDay: int): (r: seq<ClaseHoy>)
    requires 0 <= jsDay <= 6
    ensures forall i, j :: 0 <= i < j < |r| ==> LexLe(r[i].hora, r[j].hora)
    ensures forall i :: 0 <= i < |r| ==> |r[i].hora| <= 5
    ensures forall c :: c in r <==> Listed(c, tradicionales.GetOr([]), grupales.GetOr([]), fechaHoy, jsDay)
    ensures multiset(r) == multiset(IndividualLines(tradicionales.GetOr([]), fechaHoy)) + multiset(GroupLines(grupales.GetOr([]), jsDay))
  {
    var u := Unsorted(tradicionales.GetOr([]), grupales.GetOr([]), fechaHoy, jsDay);
    var r := Sorting.SortByStr(u, Hora);
    Reordered(u, r);
    r
  }

  /** A reordering of the lines holds the same lines, all with short hours. */
  lemma Reordered(u: seq<ClaseHoy>, r: seq<ClaseHoy>)
    requires multiset(u) == multiset(r)
    requires forall i :: 0 <= i < |u| ==> |u[i].hora| <= 5
    ensures forall c :: c in r <==> c in u
    ensures forall i :: 0 <= i < |r| ==> |r[i].hora| <= 5
  {
    Lists.SameMembers(u, r);
    forall i | 0 <= i < |r| ensures |r[i].hora| <= 5 {
      assert r[i] in u;
    }
  }

  /* ---------- the home page and the agenda on the same day ---------- */

  /** With the weekday read as the home page reads it, a group pack shows on today's
      agenda exactly when it is in today's list, unless a class dated today starts when it
      does. */
  lemma AgendaAgreesWithHome(todas: seq<EntrenadorAgenda.Clase>, hoy: EntrenadorAgenda.Dia, p: EntrenadorAgenda.Clase)
    requires 0 <= hoy.diaNumero <= 6 && EntrenadorAgenda.MapPack(p) in todas
    requires forall k :: 0 <= k < |todas| && EntrenadorAgenda.IsDirect(todas[k], hoy.fecha) ==> todas[k].horaInicio != p.horaInicio
    ensures EntrenadorAgenda.MapPack(p) in EntrenadorAgenda.DayData(todas, hoy) <==> GroupToday(p.diaSemana, hoy.diaNumero)
  {
    EntrenadorAgenda.PackOnDay(todas, hoy, p);
  }

  /** As written, the agenda compares the pack's weekday with the JavaScript weekday: a
      pack given for Monday (0) is in Monday's list on the home page but missing from
      Monday's agenda, even with nothing else booked at its time. */
  lemma AgendaAsWrittenMissesMonday(todas: seq<EntrenadorAgenda.Clase>, lunes: EntrenadorAgenda.Dia, p: EntrenadorAgenda.Clase)
    requires p.diaSemana == Some(0) && lunes.diaNumero == 1 && EntrenadorAgenda.MapPack(p) in todas
    requires forall k :: 0 <= k < |todas| && EntrenadorAgenda.IsDirect(todas[k], lunes.fecha) ==> todas[k].horaInicio != p.horaInicio
    ensures GroupToday(p.diaSemana, lunes.diaNumero)
    ensures EntrenadorAgenda.MapPack(p) !in EntrenadorAgenda.DayDataAsWritten(todas, lunes)
    ensures EntrenadorAgenda.MapPack(p) in EntrenadorAgenda.DayData(todas, lunes)
  {
    EntrenadorAgenda.PackOnDay(todas, lunes, p);
  }
}
