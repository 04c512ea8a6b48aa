/** The registration page: the form checks, in order, and what a registration answer does:
    the new user is signed in through both session services and routed by role. */
module Register {
  import opened Wrappers
  import opened Text
  import opened Storage
  import opened Routes
  import AuthService
  import ApiService

  datatype Form = Form(nombre: string, email: string, password: string, confirmPassword: string, rol: string)

  /** What `register` sends. */
  datatype UserData = UserData(nombre: string, email: string, password: string, rol: string)

  datatype Check =
    | Incompleto       // 'Todos los campos son obligatorios'
    | NoCoinciden      // 'Las contraseñas no coinciden'
    | Enviar(data: UserData)

  const IncompletoText := "Todos los campos son obligatorios"
  const NoCoincidenText := "Las contraseñas no coinciden"

  /** The form check: any empty field first, then differing passwords; a form that passes
      sends its four fields. */
  function CheckForm(f: Form): (c: Check)
    ensures c == Incompleto <==> f.nombre == "" || f.email == "" || f.password == "" || f.confirmPassword == ""
    ensures c == NoCoinciden <==> && f.nombre != "" && f.email != "" && f.password != "" && f.confirmPassword != ""
                                  && f.password != f.confirmPassword
    ensures c.Enviar? ==> c.data == UserData(f.nombre, f.email, f.password, f.rol) && f.password == f.confirmPassword
  {
    if f.nombre == "" || f.email == "" || f.password == "" || f.confirmPassword == "" then Incompleto
    else if f.password != f.confirmPassword then NoCoinciden
    else Enviar(UserData(f.nombre, f.email, f.password, f.rol))
  }

  /** The error shown after the check: the check's own text, or none before a send. */
  function ErrorAfterCheck(previous: string, c: Check): (e: string)
    ensures c == Incompleto ==> e == IncompletoText
    ensures c == NoCoinciden ==> e == NoCoincidenText
    ensures c.Enviar? ==> e == ""
  {
    match c
    case Incompleto => IncompletoText
    case NoCoinciden => NoCoincidenText
    case Enviar(_) => ""
  }

  /** Routing after registration, on the lower-cased role (missing is ''): an administrator
      to the club administration, then a trainer, then a player or student, else the
      landing page. */
  function RouteFor(rol: Option<string>): (r: Route)
    ensures var role := Lower(OrStr(rol, Some("")).value);
            && (r == ToAdminClub <==> Contains(role, "admin"))
            && (r == ToEntrenadorHome <==> !Contains(role, "admin") && Contains(role, "entrenador"))
            && (r == ToJugadorHome <==> && !Contains(role, "admin") && !Contains(role, "entrenador")
                                        && (Contains(role, "jugador") || Contains(role, "alumno")))
            && r != ToLogin
  {
    var role := Lower(OrStr(rol, Some("")).value);
    AdministradorIsAdmin(role);
    if Contains(role, "administrador") || Contains(role, "admin") then ToAdminClub
    else if Contains(role, "entrenador") then ToEntrenadorHome
    else if Contains(role, "jugador") || Contains(role, "alumno") then ToJugadorHome
    else ToRoot
  }

  /** The registration answer. */
  datatype Reply =
    | Failed(detail: Option<string>)                             // the request failed; `err.error?.error`
    | Answer(success: bool, usuario: User, error: Option<string>)

  datatype Result = Result(auth: AuthService.Session, api: ApiService.Session, error: string, route: Option<Route>)

  /** A successful answer signs the new user in through both services and routes on their
      role; otherwise the answer's error, or a default text, is shown. */
  function OnResponse(auth: AuthService.Session, api: ApiService.Session, reply: Reply): (r: Result)
    ensures reply.Answer? && reply.success ==>
              && r.auth == AuthService.SetCurrentUser(auth, reply.usuario)
              && r.api == ApiService.SetCurrentUser(api, reply.usuario)
              && r.route == Some(RouteFor(reply.usuario.rol)) && r.error == ""
    ensures reply.Answer? && !reply.success ==>
              r == Result(auth, api, OrStr(reply.error, Some("Error al registrarse")).value, None)
    ensures reply.Failed? ==>
              r == Result(auth, api, OrStr(reply.detail, Some("Error al registrarse. Inténtalo de nuevo.")).value, None)
  {
    match reply
    case Failed(detail) => Result(auth, api, OrStr(detail, Some("Error al registrarse. Inténtalo de nuevo.")).value, None)
    case Answer(ok, u, err) =>
      if ok then
        Result(AuthService.SetCurrentUser(auth, u), ApiService.SetCurrentUser(api, u), "", Some(RouteFor(u.rol)))
      else Result(auth, api, OrStr(err, Some("Error al registrarse")).value, None)
  }

  /** After a successful registration both services hold the new user, and both keep the
      same user record in the store. */
  lemma BothServicesAgree(auth: AuthService.Session, api: ApiService.Session, u: User, error: Option<string>)
    ensures var r := OnResponse(auth, api, Answer(true, u, error));
            && AuthService.GetCurrentUser(r.auth) == ApiService.GetCurrentUser(r.api) == Some(u)
            && r.auth.store["currentUser"] == r.api.store["currentUser"]
  {
  }

  /** A new user without a role lands on the landing page, though `AuthService` records them
      as a student. */
  lemma NoRoleGoesToLanding(auth: AuthService.Session, api: ApiService.Session, u: User, error: Option<string>)
    requires u.rol.None?
    ensures var r := OnResponse(auth, api, Answer(true, u, error));
            r.route == Some(ToRoot) && AuthService.GetUserRole(r.auth) == "alumno"
  {
    assert Lower("") == "";
    assert !Contains("", "admin") && !Contains("", "entrenador") && !Contains("", "jugador") && !Contains("", "alumno");
  }
}
