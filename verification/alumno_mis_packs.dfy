/** A student's own packs, and the invitation of another player into a pack's team. */
module AlumnoMisPacks {
  import opened Wrappers
  import opened Text

  /** A pack the student bought; `packJugadorId` names the purchase. */
  datatype PackJugador = PackJugador(packJugadorId: int, nombre: string)

  /** `loadPacks`: the answer's `data`, or nothing when it has none; a failed request
      (`None`) keeps what was shown. */
  function LoadPacks(shown: seq<PackJugador>, reply: Option<Option<seq<PackJugador>>>): (r: seq<PackJugador>)
    ensures reply.None? ==> r == shown
    ensures reply.Some? && reply.value.Some? ==> r == reply.value.value
    ensures reply.Some? && reply.value.None? ==> r == []
  {
    match reply
    case None => shown
    case Some(data) => data.GetOr([])
  }

  /** The invitation dialog. */
  datatype Modal = Modal(show: bool, selected: Option<PackJugador>, email: string)

  /** `abrirModalInvitacion`: the dialog opens for the pack, with an empty email. */
  function Abrir(m: Modal, p: PackJugador): (n: Modal)
    ensures n == Modal(true, Some(p), "")
  {
    Modal(true, Some(p), "")
  }

  /** `cerrarModal`: the dialog closes and forgets the pack; the email is kept. */
  function Cerrar(m: Modal): (n: Modal)
    ensures !n.show && n.selected.None? && n.email == m.email
  {
    m.(show := false, selected := None)
  }

  /** What `enviarInvitacion` does. */
  datatype Envio =
    | EmailInvalido           // warning: enter a valid email
    | SinPack                 // nothing happens
    | Invitar(packJugadorId: int, email: string)

  /** A usable email is non-empty and holds an '@'. */
  predicate ValidEmail(email: string) {
    email != "" && Contains(email, "@")
  }

  /** `enviarInvitacion`: the email is checked first, then the pack; the invitation names
      the purchase of the selected pack and the typed email. */
  function Enviar(m: Modal): (e: Envio)
    ensures e == EmailInvalido <==> !ValidEmail(m.email)
    ensures e == SinPack <==> ValidEmail(m.email) && m.selected.None?
    ensures e.Invitar? ==> e.packJugadorId == m.selected.value.packJugadorId && e.email == m.email
  {
    if m.email == "" || !Contains(m.email, "@") then EmailInvalido
    else if m.selected.None? then SinPack
    else Invitar(m.selected.value.packJugadorId, m.email)
  }

  /** An email with an '@' is never empty: the '@' test alone decides validity. */
  lemma AtSignSuffices(email: string)
    ensures ValidEmail(email) <==> Contains(email, "@")
  {
    if Contains(email, "@") {
      var i :| 0 <= i <= |email| - 1 && OccursAt(email, "@", i);
    }
  }

  /** A freshly opened dialog is never sent: its email is empty. */
  lemma FreshDialogNotSent(m: Modal, p: PackJugador)
    ensures Enviar(Abrir(m, p)) == EmailInvalido
  {
  }

  /** Once a valid email is typed in an opened dialog, the invitation goes to that pack. */
  lemma OpenedDialogInvites(m: Modal, p: PackJugador, email: string)
    requires Contains(email, "@")
    ensures Enviar(Abrir(m, p).(email := email)) == Invitar(p.packJugadorId, email)
  {
    AtSignSuffices(email);
  }

  /** After the invitation the dialog closes, so a second send finds no pack. */
  lemma NoSecondInvitation(m: Modal)
    requires ValidEmail(m.email)
    ensures Enviar(Cerrar(m)) == SinPack
  {
  }
}
