/** The landing page: who is sent on to their home page, what the page loads for anyone
    else who is signed in, and signing out. */
module Landing {
  import opened Wrappers
  import opened Routes
  import Lists
  import Storage
  import HomeStats

  /** The data the page loads for a signed-in user who stays. */
  datatype Carga = PlayerStats | TrainerAgenda

  datatype Outcome =
    | Unauthenticated                   // the page shows its public face, loading off
    | Go(route: Route)
    | Stay(role: string, carga: Carga)

  /** `ngOnInit`: without a (non-zero) user id or a (non-empty) role the page is public;
      'jugador' and 'entrenador' go to their home pages; any other role stays signed in
      and loads the data of its kind ('jugador' would load the player's counters). */
  function Init(userId: Option<int>, userRole: Option<string>): (o: Outcome)
    ensures o == Unauthenticated <==> !TruthyInt(userId) || !TruthyStr(userRole)
    ensures o == Go(ToJugadorHome) <==> TruthyInt(userId) && userRole == Some("jugador")
    ensures o == Go(ToEntrenadorHome) <==> TruthyInt(userId) && userRole == Some("entrenador")
    ensures o.Stay? <==> && TruthyInt(userId) && TruthyStr(userRole)
                         && userRole.value != "jugador" && userRole.value != "entrenador"
    ensures o.Stay? ==> o.role == userRole.value
  {
    if !TruthyInt(userId) || !TruthyStr(userRole) then Unauthenticated
    else if userRole.value == "jugador" then Go(ToJugadorHome)
    else if userRole.value == "entrenador" then Go(ToEntrenadorHome)
    else Stay(userRole.value, if userRole.value == "jugador" then PlayerStats else TrainerAgenda)
  }

  /** A user who stays never has the player's counters loaded: players are sent to their
      own home page first, so the page always loads the trainer's agenda. */
  lemma StayLoadsTrainerAgenda(userId: Option<int>, userRole: Option<string>)
    requires Init(userId, userRole).Stay?
    ensures Init(userId, userRole).carga == TrainerAgenda
  {
  }

  /** `cargarDatosAlumno`: the player's counters, read exactly as the player's home page
      reads them. */
  function CargarDatosAlumno(s: HomeStats.Stats, res: HomeStats.Json): (t: HomeStats.Stats)
    ensures t == HomeStats.LoadStats(s, res)
  {
    HomeStats.LoadStats(s, res)
  }

  /** A training session of the trainer's agenda. */
  datatype Entrenamiento = Entrenamiento(id: int, fecha: string)

  datatype EntrenadorStats = EntrenadorStats(proximos: seq<Entrenamiento>, clasesHoy: nat)

  /** The sessions dated today, in agenda order. */
  function Today(es: seq<Entrenamiento>, isToday: string -> bool): seq<Entrenamiento> {
    Lists.Filter(es, (e: Entrenamiento) => isToday(e.fecha))
  }

  /** `cargarDatosEntrenador`: the first five sessions of the agenda, and the number of them
      dated today (`isToday` compares the session's date with today's, as
      `toDateString()` does); an answer that is not a list changes nothing. */
  function CargarDatosEntrenador(s: EntrenadorStats, res: Option<seq<Entrenamiento>>, isToday: string -> bool): (t: EntrenadorStats)
    ensures res.None? ==> t == s
    ensures res.Some? ==> && |t.proximos| == (if |res.value| < 5 then |res.value| else 5)
                          && (forall i :: 0 <= i < |t.proximos| ==> t.proximos[i] == res.value[i])
                          && t.clasesHoy == |Today(res.value, isToday)|
                          && t.clasesHoy <= |res.value|
    ensures res.Some? && (forall i :: 0 <= i < |res.value| ==> !isToday(res.value[i].fecha)) ==> t.clasesHoy == 0
    ensures res.Some? && (forall i :: 0 <= i < |res.value| ==> isToday(res.value[i].fecha)) ==> t.clasesHoy == |res.value|
  {
    match res
    case None => s
    case Some(es) =>
      TodayExtremes(es, isToday);
      EntrenadorStats(Lists.Take(es, 5), |Today(es, isToday)|)
  }

  /** Every session is counted on a day made only of sessions, and none on a day without. */
  lemma TodayExtremes(es: seq<Entrenamiento>, isToday: string -> bool)
    ensures (forall i :: 0 <= i < |es| ==> isToday(es[i].fecha)) ==> Today(es, isToday) == es
    ensures (forall i :: 0 <= i < |es| ==> !isToday(es[i].fecha)) ==> Today(es, isToday) == []
  {
    if forall i :: 0 <= i < |es| ==> isToday(es[i].fecha) {
      Lists.FilterAll(es, (e: Entrenamiento) => isToday(e.fecha));
    }
    if forall i :: 0 <= i < |es| ==> !isToday(es[i].fecha) {
      NoneToday(es, isToday);
    }
  }

  /** No session of a day without sessions is counted. */
  lemma {:induction false} NoneToday(es: seq<Entrenamiento>, isToday: string -> bool)
    requires forall i :: 0 <= i < |es| ==> !isToday(es[i].fecha)
    ensures Today(es, isToday) == []
    decreases |es|
  {
    if es != [] {
      NoneToday(es[1..], isToday);
    }
  }

  /** The keys `logout` removes. */
  const SessionKeys: set<string> := {"token", "userId", "userRole", "currentUser"}

  /** `logout`: the token, the user id, the role and the user record leave the store (the
      rest stays), the page is no longer signed in, and it goes to the login page. */
  function Logout(store: Storage.Store): (r: (Storage.Store, bool, Route))
    ensures forall k :: k in SessionKeys ==> k !in r.0
    ensures forall k :: k in store && k !in SessionKeys ==> k in r.0 && r.0[k] == store[k]
    ensures !r.1 && r.2 == ToLogin
  {
    (Storage.RemoveAll(store, SessionKeys), false, ToLogin)
  }

  /** After signing out, the landing page is public: no stored id or role is left. */
  lemma LogoutThenPublic(store: Storage.Store, userId: Option<int>, userRole: Option<string>)
    ensures "userId" !in Logout(store).0 && "userRole" !in Logout(store).0
    ensures Init(None, userRole) == Unauthenticated && Init(userId, None) == Unauthenticated
  {
  }
}
