/** The "americano" tournament page of a club administrator: who may open it, creating a
    tournament, finding players and adding them, and saving a match score. */
module TorneoAmericano {
  import opened Wrappers
  import opened Text
  import UserSearch

  /** `ngOnInit`: the page needs a current user whose stored role contains 'admin' (or
      'administrador', which contains it); anyone else goes to the login page. */
  function CanOpen(hasUser: bool, storedRole: Option<string>): (ok: bool)
    ensures ok <==> hasUser && Contains(Lower(storedRole.GetOr("")), "admin")
  {
    var role := Lower(storedRole.GetOr(""));
    AdministradorIsAdmin(role);
    hasUser && (Contains(role, "admin") || Contains(role, "administrador"))
  }

  /* ---------- creating a tournament ---------- */

  datatype Torneo = Torneo(clubId: int, nombre: string, fecha: string, horaInicio: string, numCanchas: int,
                           tiempoPorPartido: int, puntosGanado: int, puntosEmpate: int,
                           puntos1erLugar: int, puntos2doLugar: int, puntos3erLugar: int)

  /** The form as the page opens it. */
  const DefaultTorneo := Torneo(0, "", "", "", 2, 20, 3, 1, 100, 50, 25)

  /** `crearTorneo`: the form is sent unless the name or the club is missing. */
  function CrearTorneo(t: Torneo): (r: Option<Torneo>)
    ensures r.None? <==> t.nombre == "" || t.clubId == 0
    ensures r.Some? ==> r.value == t
  {
    if t.nombre == "" || t.clubId == 0 then None else Some(t)
  }

  /** The form as it opens cannot be sent. */
  lemma DefaultNotSent()
    ensures CrearTorneo(DefaultTorneo).None?
  {
  }

  /* ---------- players ---------- */

  /** The page's search state and selected tournament. */
  datatype Busqueda = Busqueda(selected: Option<int>, searchTerm: string, filteredUsers: seq<UserSearch.User>)

  /** `searchPlayers`: the suggestions for the current term; the rest is kept. */
  function SearchPlayers(b: Busqueda, users: seq<UserSearch.User>): (r: Busqueda)
    ensures r.selected == b.selected && r.searchTerm == b.searchTerm
    ensures r.filteredUsers == UserSearch.Search(users, b.searchTerm)
    ensures |r.filteredUsers| <= UserSearch.MaxSuggestions
    ensures IsBlank(b.searchTerm) ==> r.filteredUsers == []
    ensures forall i :: 0 <= i < |r.filteredUsers| ==>
              r.filteredUsers[i] in users && UserSearch.Matches(r.filteredUsers[i], b.searchTerm)
  {
    b.(filteredUsers := UserSearch.Search(users, b.searchTerm))
  }

  /** The request `addPlayer` sends: the selected tournament and the user. */
  datatype Alta = Alta(torneoId: int, userId: int)

  /** `addPlayer`: nothing without a selected tournament. */
  function AddPlayer(b: Busqueda, u: UserSearch.User): (r: Option<Alta>)
    ensures r.None? <==> b.selected.None?
    ensures r.Some? ==> r.value.torneoId == b.selected.value && r.value.userId == u.id
  {
    match b.selected
    case None => None
    case Some(t) => Some(Alta(t, u.id))
  }

  /** After the player is added the search starts afresh. */
  function PlayerAdded(b: Busqueda): Busqueda
  {
    b.(searchTerm := "", filteredUsers := [])
  }

  /** Searching again right after an addition suggests nobody. */
  lemma NoSuggestionsAfterAdd(b: Busqueda, users: seq<UserSearch.User>)
    ensures SearchPlayers(PlayerAdded(b), users).filteredUsers == []
  {
  }

  /* ---------- scores ---------- */

  /** A match of the tournament; missing points are `None`. */
  datatype Match = Match(id: int, puntosT1: Option<int>, puntosT2: Option<int>, finalizado: int)

  /** The score `saveScore` sends. */
  datatype Score = Score(matchId: int, puntosT1: int, puntosT2: int)

  /** `m.puntos_t1 || 0`: a missing score is sent as 0. */
  function PointsOrZero(p: Option<int>): (r: int)
    ensures p.Some? ==> r == p.value
    ensures p.None? ==> r == 0
  {
    OrInt(p, Some(0)).value
  }

  /** `saveScore`: the match's two scores, a missing one as 0. */
  function SaveScore(m: Match): (s: Score)
    ensures s.matchId == m.id
    ensures s.puntosT1 == m.puntosT1.GetOr(0) && s.puntosT2 == m.puntosT2.GetOr(0)
  {
    Score(m.id, PointsOrZero(m.puntosT1), PointsOrZero(m.puntosT2))
  }

  /** Once the score is saved the match is finished; nothing else changes. */
  function ScoreSaved(m: Match): Match {
    m.(finalizado := 1)
  }

  /** A finished match sends the same score again, and a score saved twice leaves the
      match as saving it once. */
  lemma SavingAgainSendsSameScore(m: Match)
    ensures SaveScore(ScoreSaved(m)) == SaveScore(m)
    ensures ScoreSaved(ScoreSaved(m)) == ScoreSaved(m)
    ensures ScoreSaved(m).finalizado == 1
  {
  }
}
