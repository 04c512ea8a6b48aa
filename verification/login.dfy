/** The login page: the form check, and what a login answer does to the stored session and
    where it sends the user. */
module Login {
  import opened Wrappers
  import opened Storage
  import opened Routes
  import AuthService

  /** `login` before the request: both fields are required. */
  function Submit(email: string, password: string): (send: bool)
    ensures !send <==> email == "" || password == ""
  {
    email != "" && password != ""
  }

  /** The role a login stores and routes on: the answer's `rol`, else 'jugador'. */
  function LoginRole(u: User): (r: string)
    ensures TruthyStr(u.rol) ==> r == u.rol.value
    ensures !TruthyStr(u.rol) ==> r == "jugador"
  {
    OrStr(u.rol, Some("jugador")).value
  }

  /** Routing after login is by exact role: 'jugador' and 'entrenador' have their home
      pages, any other role goes to the landing page. */
  function RouteFor(role: string): (r: Route)
    ensures r == ToJugadorHome <==> role == "jugador"
    ensures r == ToEntrenadorHome <==> role == "entrenador"
    ensures r == ToRoot <==> role != "jugador" && role != "entrenador"
  {
    if role == "jugador" then ToJugadorHome else if role == "entrenador" then ToEntrenadorHome else ToRoot
  }

  datatype Result = Result(session: AuthService.Session, error: string, route: Option<Route>)

  /** The login answer: `None` for a failed request, otherwise the user it describes. A user
      with an id is signed in through `AuthService`, after which the page stores the id
      and its own role (defaulting to 'jugador') and routes on that role; an answer
      without an id is rejected. */
  function OnResponse(s: AuthService.Session, reply: Option<User>): (r: Result)
    ensures reply.None? ==> r == Result(s, "Error al iniciar sesión. Verifica tus credenciales.", None)
    ensures reply.Some? && !TruthyInt(reply.value.id) ==> r == Result(s, "Credenciales inválidas", None)
    ensures reply.Some? && TruthyInt(reply.value.id) ==>
              && r.error == "" && r.route == Some(RouteFor(LoginRole(reply.value)))
              && r.session.current == Some(reply.value)
              && "userRole" in r.session.store && r.session.store["userRole"] == Text(LoginRole(reply.value))
              && "userId" in r.session.store && r.session.store["userId"] == Text(IdText(reply.value.id))
              && "currentUser" in r.session.store && r.session.store["currentUser"] == UserJson(reply.value)
  {
    match reply
    case None => Result(s, "Error al iniciar sesión. Verifica tus credenciales.", None)
    case Some(u) =>
      if !TruthyInt(u.id) then Result(s, "Credenciales inválidas", None)
      else
        var t := AuthService.SetCurrentUser(s, u);
        var role := LoginRole(u);
        var store := t.store["userId" := Text(IdText(u.id))]["userRole" := Text(role)];
        Result(t.(store := store), "", Some(RouteFor(role)))
  }

  /** A user without a role is stored as 'jugador', not as `AuthService`'s 'alumno': the
      page's own write comes last, and the service then reads 'jugador' back. */
  lemma MissingRoleIsJugador(s: AuthService.Session, u: User)
    requires TruthyInt(u.id) && u.rol.None?
    ensures var r := OnResponse(s, Some(u));
            && AuthService.GetUserRole(r.session) == "jugador"
            && AuthService.RoleOf(u) == "alumno"
            && r.route == Some(ToJugadorHome)
  {
  }

  /** A signed-in user is authenticated, and the role the page routed on is the role the
      service reports. */
  lemma SignedInRoleAgrees(s: AuthService.Session, u: User)
    requires TruthyInt(u.id)
    ensures var r := OnResponse(s, Some(u));
            && AuthService.IsAuthenticated(r.session)
            && AuthService.GetUserRole(r.session) == LoginRole(u)
            && r.route == Some(RouteFor(AuthService.GetUserRole(r.session)))
  {
    assert LoginRole(u) != "";
  }
}
