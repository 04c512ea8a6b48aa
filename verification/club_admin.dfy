/** The club administration page: who may open it, and the forms that add a club and a
    court to the selected club. */
module ClubAdmin {
  import opened Wrappers
  import opened Text
  import Storage

  /** `ngOnInit`'s guard: a current user and a stored role containing 'admin' (or
      'administrador'), in any case. */
  function CanOpen(user: Option<Storage.User>, storedRole: Option<string>): (ok: bool)
    ensures ok <==> user.Some? && Contains(Lower(OrStr(storedRole, Some("")).value), "admin")
  {
    var role := Lower(OrStr(storedRole, Some("")).value);
    AdministradorIsAdmin(role);
    user.Some? && (Contains(role, "admin") || Contains(role, "administrador"))
  }

  datatype Club = Club(id: int, nombre: string)

  datatype NewClub = NewClub(nombre: string, direccion: string, telefono: string, instagram: string, email: string,
                             adminId: Option<int>)

  datatype NewCancha = NewCancha(clubId: Option<int>, nombre: string, tipo: string, superficie: string, precioHora: int)

  const EmptyClub: NewClub := NewClub("", "", "", "", "", Some(0))
  const EmptyCancha: NewCancha := NewCancha(Some(0), "", "Outdoor", "Césped Sintético", 0)

  datatype Pagina = Pagina(selected: Option<Club>, newClub: NewClub, newCancha: NewCancha)

  /** Opening the page as the user: new clubs are administered by them. */
  function Open(p: Pagina, user: Storage.User): (q: Pagina)
    ensures q.newClub.adminId == user.id
    ensures q.selected == p.selected && q.newCancha == p.newCancha
  {
    p.(newClub := p.newClub.(adminId := user.id))
  }

  /** `selectClub`: the club becomes the selected one, and new courts go to it. */
  function SelectClub(p: Pagina, club: Club): (q: Pagina)
    ensures q.selected == Some(club) && q.newCancha.clubId == Some(club.id)
    ensures q.newClub == p.newClub
    ensures q.newCancha.(clubId := p.newCancha.clubId) == p.newCancha
  {
    p.(selected := Some(club), newCancha := p.newCancha.(clubId := Some(club.id)))
  }

  /** `createClub`: nothing without a name; otherwise the club is sent, and after the
      answer the name is cleared and the rest of the form kept. */
  function CreateClub(p: Pagina): (r: Option<(NewClub, Pagina)>)
    ensures r.None? <==> p.newClub.nombre == ""
    ensures r.Some? ==> r.value.0 == p.newClub && r.value.1 == p.(newClub := p.newClub.(nombre := ""))
  {
    if p.newClub.nombre == "" then None
    else Some((p.newClub, p.(newClub := p.newClub.(nombre := ""))))
  }

  /** `createCancha`: nothing without a name or a (non-zero) club; otherwise the court is
      sent, and after the answer the name is cleared and the courts of that club reloaded. */
  function CreateCancha(p: Pagina): (r: Option<(NewCancha, Pagina, int)>)
    ensures r.None? <==> p.newCancha.nombre == "" || !TruthyInt(p.newCancha.clubId)
    ensures r.Some? ==> && r.value.0 == p.newCancha && r.value.1 == p.(newCancha := p.newCancha.(nombre := ""))
                        && r.value.2 == p.newCancha.clubId.value
  {
    if p.newCancha.nombre == "" || !TruthyInt(p.newCancha.clubId) then None
    else Some((p.newCancha, p.(newCancha := p.newCancha.(nombre := "")), p.newCancha.clubId.value))
  }

  /** A court cannot be added before a club is selected; once club `c` (id not 0) is
      selected, a named court goes to `c` and its courts are the ones reloaded. */
  lemma CourtGoesToSelectedClub(p: Pagina, c: Club, nombre: string)
    requires c.id != 0 && nombre != ""
    ensures CreateCancha(Pagina(None, p.newClub, EmptyCancha.(nombre := nombre))).None?
    ensures var q := SelectClub(p, c).(newCancha := SelectClub(p, c).newCancha.(nombre := nombre));
            var r := CreateCancha(q);
            r.Some? && r.value.0.clubId == Some(c.id) && r.value.2 == c.id
  {
  }
}
