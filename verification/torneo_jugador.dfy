/** A player's tournament page: marking the player's own pair in a participant list,
    looking up a partner, and the registration sent for the pair. */
module TorneoJugador {
  import opened Wrappers
  import opened Text
  import Lists
  import UserSearch

  /* ---------- participants ---------- */

  /** A registered pair as the participant list shows it. */
  datatype Participante = Participante(jugadorId: Option<int>, jugador2Id: Option<int>, nombrePareja: string)

  /** `p.jugador_id == userId || p.jugador2_id == userId`: the pair is the user's own. */
  predicate IsMe(p: Participante, userId: int) {
    p.jugadorId == Some(userId) || p.jugador2Id == Some(userId)
  }

  /** The "(Tú)" marks of a participant list: one per pair, set on the user's own pairs. */
  function MarkMe(ps: seq<Participante>, userId: int): (r: seq<bool>)
    ensures |r| == |ps|
    ensures forall i :: 0 <= i < |ps| ==> (r[i] <==> ps[i].jugadorId == Some(userId) || ps[i].jugador2Id == Some(userId))
  {
    Lists.Map(ps, (p: Participante) => IsMe(p, userId))
  }

  /* ---------- looking up a partner ---------- */

  const MaxPartners: nat := 5

  /** A user the look-up offers for `val`: the name contains it in any letter case, and it is
      not the current user. */
  predicate Offered(u: UserSearch.User, val: string, userId: int) {
    ContainsCI(u.nombre, val) && u.id != userId
  }

  /** Every user offered for the typed text, in list order. */
  function OfferedUsers(users: seq<UserSearch.User>, input: string, userId: int): seq<UserSearch.User> {
    Lists.Filter(users, (u: UserSearch.User) => Offered(u, input, userId))
  }

  /** The suggestions for the typed text: none under two characters, otherwise the first
      five users offered for it, in list order. */
  function PartnerSearch(users: seq<UserSearch.User>, input: string, userId: int): (r: seq<UserSearch.User>)
    ensures |r| <= MaxPartners
    ensures |input| < 2 ==> r == []
    ensures |input| >= 2 ==> r == Lists.Take(OfferedUsers(users, input, userId), MaxPartners)
    ensures forall i :: 0 <= i < |r| ==> r[i] in users && ContainsCI(r[i].nombre, input) && r[i].id != userId
    ensures |input| >= 2 && |r| < MaxPartners ==>
              forall j :: 0 <= j < |users| && Offered(users[j], input, userId) ==> users[j] in r
  {
    var val := Lower(input);
    if |val| < 2 then []
    else
      var all := OfferedUsers(users, input, userId);
      var r := Lists.Take(all, MaxPartners);
      assert |r| < MaxPartners ==> r == all;
      r
  }

  /** The suggestions never include the player registering. */
  lemma NeverSuggestsSelf(users: seq<UserSearch.User>, input: string, userId: int)
    ensures forall u :: u in PartnerSearch(users, input, userId) ==> u.id != userId
  {
  }

  /* ---------- the registration dialog ---------- */

  /** What the dialog has recorded: the chosen registered user, if any, and the partner's
      name. */
  datatype Seleccion = Seleccion(userId: Option<int>, name: string)

  /** Typing in the search box: the typed text becomes the partner's name; a chosen user
      stays chosen. */
  function Typed(s: Seleccion, input: string): Seleccion
  {
    s.(name := input)
  }

  /** Choosing a suggestion: the user's id and name. */
  function Pick(u: UserSearch.User): Seleccion
  {
    Seleccion(Some(u.id), u.nombre)
  }

  /** Removing the choice: no user, and the name is what the box holds. */
  function Unpick(input: string): Seleccion
  {
    Seleccion(None, input)
  }

  /** The registration sent for the pair. */
  datatype Registro = Registro(torneoId: int, usuarioId: int, jugador2Id: Option<int>, nombre2: Option<string>,
                               nombrePareja: string)

  datatype Outcome =
    | Cancelled       // the dialog was closed
    | NameRequired    // the dialog stays open: the name is required
    | Send(registro: Registro)

  /** `confirmRegistration`: a registered partner is sent by id, any other by name; the
      pair is "Pareja con " and the partner's name either way. */
  function ConfirmRegistration(torneoId: int, userId: int, partnerId: Option<int>, name: string,
                               isRegistered: bool): (r: Registro)
    ensures r.torneoId == torneoId && r.usuarioId == userId
    ensures r.nombrePareja == "Pareja con " + name
    ensures isRegistered ==> r.jugador2Id == partnerId && r.nombre2.None?
    ensures !isRegistered ==> r.jugador2Id.None? && r.nombre2 == Some(name)
  {
    if isRegistered then Registro(torneoId, userId, partnerId, None, "Pareja con " + name)
    else Registro(torneoId, userId, None, Some(name), "Pareja con " + name)
  }

  /** `inscribirse`, once the dialog is answered: `preConfirm` takes the recorded name or else
      the box's text and refuses an empty one; the partner counts as registered exactly when
      a user with a truthy id was chosen. */
  function Inscribirse(torneoId: int, userId: int, confirmed: bool, s: Seleccion, input: string): (o: Outcome)
    ensures o == Cancelled <==> !confirmed
    ensures o == NameRequired <==> confirmed && s.name == "" && input == ""
    ensures o.Send? ==> var name := if s.name != "" then s.name else input;
                        && o.registro.nombrePareja == "Pareja con " + name
                        && (o.registro.jugador2Id.Some? <==> TruthyInt(s.userId))
                        && (TruthyInt(s.userId) ==> o.registro.jugador2Id == s.userId)
                        && (!TruthyInt(s.userId) ==> o.registro.nombre2 == Some(name))
  {
    if !confirmed then Cancelled
    else
      var name := if s.name != "" then s.name else input;
      if name == "" then NameRequired
      else Send(ConfirmRegistration(torneoId, userId, s.userId, name, TruthyInt(s.userId)))
  }

  /** Without the user list the page asks for a name alone: a confirmed, non-empty name is
      sent as an unregistered partner. */
  function InscribirseSinLista(torneoId: int, userId: int, confirmed: bool, value: string): (o: Outcome)
    ensures o.Send? <==> confirmed && value != ""
    ensures o.Send? ==> o.registro == ConfirmRegistration(torneoId, userId, None, value, false)
    ensures !o.Send? ==> o == Cancelled
  {
    if confirmed && value != "" then Send(ConfirmRegistration(torneoId, userId, None, value, false))
    else Cancelled
  }

  /** Choosing a suggested user registers the pair with that user: the partner is sent by
      id and the pair is named after them. */
  lemma PickedPartnerIsRegistered(torneoId: int, userId: int, u: UserSearch.User, input: string)
    requires u.id != 0 && u.nombre != ""
    ensures Inscribirse(torneoId, userId, true, Pick(u), input).Send?
    ensures Inscribirse(torneoId, userId, true, Pick(u), input).registro.jugador2Id == Some(u.id)
    ensures Inscribirse(torneoId, userId, true, Pick(u), input).registro.nombrePareja == "Pareja con " + u.nombre
  {
  }

  /** Typing a name after removing a choice registers an unregistered partner by that name. */
  lemma TypedPartnerIsByName(torneoId: int, userId: int, previous: string, input: string)
    requires input != ""
    ensures Inscribirse(torneoId, userId, true, Typed(Unpick(previous), input), input).Send?
    ensures Inscribirse(torneoId, userId, true, Typed(Unpick(previous), input), input).registro.nombre2 == Some(input)
    ensures Inscribirse(torneoId, userId, true, Typed(Unpick(previous), input), input).registro.jugador2Id.None?
  {
  }
}
