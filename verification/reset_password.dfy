/** The password-reset page: the recovery token from the link, the checks on the new
    password, and the dialogs shown for each outcome. */
module ResetPassword {
  import opened Wrappers
  import PopupService

  /** `ngOnInit`: the token of the link (`''` when missing); without one an error is shown
      and the page goes to the login page once it is closed. */
  function Init(token: Option<string>): (r: (string, bool))
    ensures r.0 == token.GetOr("")
    ensures r.1 <==> token.GetOr("") == ""
  {
    var t := OrStr(token, Some("")).value;
    (t, t == "")
  }

  const MinLength: nat := 6

  datatype Check =
    | Incompleto          // warning: both fields are required
    | NoCoinciden         // error: the passwords differ
    | Corta               // warning: at least six characters
    | Enviar(token: string, password: string)

  /** `resetPassword`: empty fields first, then differing passwords, then a password
      shorter than six characters; only a password passing all three is sent, with the
      token. */
  function CheckPassword(token: string, password: string, confirm: string): (c: Check)
    ensures c == Incompleto <==> password == "" || confirm == ""
    ensures c == NoCoinciden <==> password != "" && confirm != "" && password != confirm
    ensures c == Corta <==> password != "" && password == confirm && |password| < MinLength
    ensures c.Enviar? <==> password == confirm && |password| >= MinLength
    ensures c.Enviar? ==> c == Enviar(token, password)
  {
    if password == "" || confirm == "" then Incompleto
    else if password != confirm then NoCoinciden
    else if |password| < MinLength then Corta
    else Enviar(token, password)
  }

  /** The dialog shown for a check that stops the request. */
  function CheckNotice(c: Check): (p: PopupService.Popup)
    requires !c.Enviar?
    ensures c == NoCoinciden <==> p.icon == PopupService.Error
    ensures p.icon == PopupService.Error || p.icon == PopupService.Warning
    ensures |p.buttons| == 1
  {
    match c
    case Incompleto => PopupService.Shorthand(PopupService.Warning, "Atención", "Debes completar ambos campos")
    case NoCoinciden => PopupService.Shorthand(PopupService.Error, "Error", "Las contraseñas no coinciden")
    case Corta => PopupService.Shorthand(PopupService.Warning, "Atención", "La contraseña debe tener al menos 6 caracteres")
  }

  /** The answer of the reset request: `Failed` for a failed request. */
  datatype Reply = Failed | Answer(success: bool, message: Option<string>)

  /** The dialog after the answer, and whether closing it goes to the login page: only a
      success does. */
  function OnReply(reply: Reply): (r: (PopupService.Popup, bool))
    ensures r.1 <==> reply.Answer? && reply.success
    ensures r.1 ==> r.0.icon == PopupService.Success
    ensures !r.1 ==> r.0.icon == PopupService.Error
    ensures reply.Answer? && !reply.success ==> r.0.message == OrStr(reply.message, Some("No se pudo restablecer la contraseña")).value
    ensures reply.Failed? ==> r.0.message == "El enlace ha expirado o no es válido"
  {
    match reply
    case Failed => (PopupService.Shorthand(PopupService.Error, "Error", "El enlace ha expirado o no es válido"), false)
    case Answer(ok, message) =>
      if ok then (PopupService.Shorthand(PopupService.Success, "¡Éxito!", "Tu contraseña ha sido actualizada"), true)
      else (PopupService.Shorthand(PopupService.Error, "Error", OrStr(message, Some("No se pudo restablecer la contraseña")).value), false)
  }

  /** A password is sent exactly when it is confirmed and long enough; the order of the
      checks only decides which message a rejected one gets. */
  lemma SentIffAcceptable(token: string, password: string, confirm: string)
    ensures CheckPassword(token, password, confirm) == Enviar(token, password) <==> password == confirm && |password| >= MinLength
  {
  }

  /** A short password typed twice is reported as short, never as a mismatch. */
  lemma ShortBeforeMismatchNever(token: string, password: string)
    requires 0 < |password| < MinLength
    ensures CheckPassword(token, password, password) == Corta
  {
  }
}
