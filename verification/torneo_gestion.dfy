/** The club administrator's tournament page: the groups of a category read off its
    matches, validating a registration, creating a tournament, the standard categories,
    and registering a pair by hand. */
module TorneoGestion {
  import opened Wrappers
  import opened Text
  import Lists
  import UserSearch

  /* ---------- groups of a category ---------- */

  /** A match's `grupo_id`: JSON `null`, absent, or a group id. `!== null` lets an absent
      id through, and `new Set` keeps it as a key of its own. */
  datatype GrupoRef = Null | Absent | Id(id: int)

  /** A match of a category, as far as the group list reads it. */
  datatype Partido = Partido(grupoId: GrupoRef, grupoNombre: Option<string>)

  /** An entry of the group list. */
  datatype Grupo = Grupo(id: GrupoRef, nombre: Option<string>)

  function GrupoOf(m: Partido): GrupoRef {
    m.grupoId
  }

  function ToGrupo(m: Partido): Grupo {
    Grupo(m.grupoId, m.grupoNombre)
  }

  /** `groupMatches`: the matches whose `grupo_id` is not `null`, in order. */
  function GroupMatches(res: seq<Partido>): (r: seq<Partido>)
    ensures forall m :: m in r <==> m in res && m.grupoId != Null
    ensures Lists.Subseq(r, res)
  {
    Lists.FilterIsSubseq(res, (m: Partido) => m.grupoId != Null);
    Lists.Filter(res, (m: Partido) => m.grupoId != Null)
  }

  /** `grupos`: one entry per distinct group of the group matches (see `GroupNamedByFirstMatch`
      and `GroupsInMatchOrder` for which match names it and the order). */
  function Grupos(res: seq<Partido>): (r: seq<Grupo>)
    ensures forall i, j :: 0 <= i < j < |r| ==> r[i].id != r[j].id
    ensures forall m :: m in GroupMatches(res) ==> exists i :: 0 <= i < |r| && r[i].id == m.grupoId
  {
    var ms := GroupMatches(res);
    var d := Lists.DedupBy(ms, GrupoOf);
    var r := Lists.Map(d, ToGrupo);
    GroupsCovered(ms, d, r);
    r
  }

  /** Every match's group has an entry once the groups are read off. */
  lemma GroupsCovered(ms: seq<Partido>, d: seq<Partido>, r: seq<Grupo>)
    requires d == Lists.DedupBy(ms, GrupoOf) && r == Lists.Map(d, ToGrupo)
    ensures forall m :: m in ms ==> exists i :: 0 <= i < |r| && r[i].id == m.grupoId
  {
    forall m | m in ms ensures exists i :: 0 <= i < |r| && r[i].id == m.grupoId {
      var j :| 0 <= j < |ms| && ms[j] == m;
      assert GrupoOf(ms[j]) in Lists.Keys(d, GrupoOf);
      var i :| 0 <= i < |d| && Lists.Keys(d, GrupoOf)[i] == GrupoOf(ms[j]);
      assert r[i].id == m.grupoId;
    }
  }

  /** Each group is a group of the category's matches (never `null`), named after the first
      match that carries its id. */
  lemma GroupNamedByFirstMatch(res: seq<Partido>, i: nat)
    requires i < |Grupos(res)|
    ensures Grupos(res)[i].id != Null
    ensures exists k :: && 0 <= k < |GroupMatches(res)| && Grupos(res)[i] == ToGrupo(GroupMatches(res)[k])
                        && forall m :: 0 <= m < k ==> GroupMatches(res)[m].grupoId != Grupos(res)[i].id
  {
    var ms := GroupMatches(res);
    var d := Lists.DedupBy(ms, GrupoOf);
    var r := Grupos(res);
    assert r[i] == ToGrupo(d[i]);
    assert Lists.FirstIn(ms, GrupoOf, d[i]);
    var k :| 0 <= k < |ms| && ms[k] == d[i] && Lists.FirstOfKey(ms, GrupoOf, k);
    assert ms[k] in ms;
    assert r[i] == ToGrupo(ms[k]);
  }

  function GrupoId(g: Grupo): GrupoRef {
    g.id
  }

  /** The groups come in the order their first matches do: of any two groups, the earlier
      is read off the first match of a group whose first match comes earlier. */
  lemma GroupsInMatchOrder(res: seq<Partido>)
    ensures Lists.Subseq(Lists.Keys(Grupos(res), GrupoId), Lists.Keys(GroupMatches(res), GrupoOf))
    ensures forall i, j :: 0 <= i < j < |Grupos(res)| ==>
              exists a, b :: && 0 <= a < b < |GroupMatches(res)|
                             && Lists.FirstOfKey(GroupMatches(res), GrupoOf, a)
                             && Lists.FirstOfKey(GroupMatches(res), GrupoOf, b)
                             && Grupos(res)[i] == ToGrupo(GroupMatches(res)[a])
                             && Grupos(res)[j] == ToGrupo(GroupMatches(res)[b])
  {
    var ms := GroupMatches(res);
    var d := Lists.DedupBy(ms, GrupoOf);
    var r := Grupos(res);
    Lists.DedupIsSubseq(ms, GrupoOf);
    Lists.SubseqKeys(d, ms, GrupoOf);
    KeysOfGroups(d);
    Lists.DedupInOrder(ms, GrupoOf);
    forall i, j | 0 <= i < j < |r|
      ensures exists a, b :: && 0 <= a < b < |ms|
                             && Lists.FirstOfKey(ms, GrupoOf, a) && Lists.FirstOfKey(ms, GrupoOf, b)
                             && r[i] == ToGrupo(ms[a]) && r[j] == ToGrupo(ms[b])
    {
      assert Lists.FirstsInOrder(ms, GrupoOf, d[i], d[j]);
      var a, b :| && 0 <= a < b < |ms| && ms[a] == d[i] && ms[b] == d[j]
                  && Lists.FirstOfKey(ms, GrupoOf, a) && Lists.FirstOfKey(ms, GrupoOf, b);
      assert r[i] == ToGrupo(ms[a]) && r[j] == ToGrupo(ms[b]);
    }
  }

  lemma KeysOfGroups(d: seq<Partido>)
    ensures Lists.Keys(Lists.Map(d, ToGrupo), GrupoId) == Lists.Keys(d, GrupoOf)
  {
  }

  /* ---------- validating a registration ---------- */

  /** A pair's registration; `validado` and `pagado` are 0 or 1 as the server stores them. */
  datatype Inscripcion = Inscripcion(id: int, validado: int, pagado: int)

  /** The flag sent with `validarInscripcion`: `!ins.validado`. */
  function ValidarFlag(ins: Inscripcion): bool {
    ins.validado == 0
  }

  /** The registration once the server accepts: `validado` flips between 0 and 1 and
      `pagado` follows it. */
  function Validada(ins: Inscripcion): (r: Inscripcion)
    ensures r.id == ins.id
    ensures r.validado == 1 <==> ValidarFlag(ins)
    ensures r.validado == 0 <==> !ValidarFlag(ins)
    ensures r.pagado == r.validado
  {
    var v := if ins.validado != 0 then 0 else 1;
    ins.(validado := v, pagado := v)
  }

  /** Validating twice gives back the validation state; the payment follows it. */
  lemma ValidarTwice(ins: Inscripcion)
    requires ins.validado == 0 || ins.validado == 1
    ensures Validada(Validada(ins)).validado == ins.validado
    ensures Validada(Validada(ins)) == ins.(pagado := ins.validado)
  {
  }

  /* ---------- creating a tournament ---------- */

  /** A category of a tournament. */
  datatype Categoria = Categoria(nombre: string, maxParejas: int, puntosRepartir: int)

  /** The creation form; missing texts are "". */
  datatype NuevoTorneo = NuevoTorneo(clubId: int, nombre: string, descripcion: string, fechaInicio: string,
                                     fechaFin: string, tipo: string, categorias: seq<Categoria>)

  /** The form as the page opens it. */
  const DefaultTorneo := NuevoTorneo(0, "", "", "", "", "Grupos + Playoffs",
    [Categoria("Iniciación", 12, 100), Categoria("Intermedio", 16, 250), Categoria("Open", 8, 500)])

  datatype Creacion =
    | Incompleto   // warning: name and date are required
    | Crear(torneo: NuevoTorneo, creatorId: int)

  /** `crearTorneo`: the form with the creator attached, unless the name or the start date is
      missing. */
  function CrearTorneo(t: NuevoTorneo, userId: int): (c: Creacion)
    ensures c == Incompleto <==> t.nombre == "" || t.fechaInicio == ""
    ensures c.Crear? ==> c.torneo == t && c.creatorId == userId
  {
    if t.nombre == "" || t.fechaInicio == "" then Incompleto else Crear(t, userId)
  }

  const StandardCategorias: seq<Categoria> := [
    Categoria("1ra Varones", 16, 1000), Categoria("2da Varones", 16, 750), Categoria("3ra Varones", 24, 500),
    Categoria("4ta Varones", 32, 250), Categoria("5ta Varones", 32, 100), Categoria("6ta Varones", 32, 50),
    Categoria("Damas A", 16, 500), Categoria("Damas B", 16, 250), Categoria("Damas C", 24, 100),
    Categoria("Damas D", 24, 50)]

  /** `cargarCategoriasStandard`: the form's categories become the ten standard ones,
      nothing else changes. */
  function CargarCategoriasStandard(t: NuevoTorneo): (r: NuevoTorneo)
    ensures r.(categorias := t.categorias) == t
    ensures r.categorias == StandardCategorias
  {
    t.(categorias := StandardCategorias)
  }

  /** The standard categories: ten of them, six men's categories followed by four
      women's. */
  lemma StandardCategoriasNames()
    ensures |StandardCategorias| == 10
    ensures forall i :: 0 <= i < 6 ==> EndsWith(StandardCategorias[i].nombre, " Varones")
    ensures forall i :: 6 <= i < 10 ==> StartsWith(StandardCategorias[i].nombre, "Damas ")
  {
  }

  /** Within the men's and within the women's categories, the higher category shares out
      more points. */
  lemma StandardCategoriasPoints()
    ensures forall i :: 0 <= i < 5 ==> StandardCategorias[i + 1].puntosRepartir < StandardCategorias[i].puntosRepartir
    ensures forall i :: 6 <= i < 9 ==> StandardCategorias[i + 1].puntosRepartir < StandardCategorias[i].puntosRepartir
  {
  }

  /* ---------- registering a pair by hand ---------- */

  /** The manual registration form: each player by user id (0 for none) or by a typed name. */
  datatype Manual = Manual(jugador1Id: int, jugador1Nombre: string, jugador2Id: int, jugador2Nombre: string,
                           nombrePareja: string)

  /** The form as it opens and as it is reset after a registration. */
  const EmptyManual := Manual(0, "", 0, "", "")

  /** `obtenerNombreJ(num)`: a player chosen by id is named after the first user with that
      id, a typed player by the typed name; "S/N" when there is no such name. */
  function NombreJugador(m: Manual, num: int, users: seq<UserSearch.User>): (r: string)
    ensures r != ""
    ensures var id := if num == 1 then m.jugador1Id else m.jugador2Id;
            var manual := if num == 1 then m.jugador1Nombre else m.jugador2Nombre;
            && (id <= 0 ==> r == (if manual != "" then manual else "S/N"))
            && (id > 0 && (forall k :: 0 <= k < |users| ==> users[k].id != id) ==> r == "S/N")
            && (id > 0 && (exists k :: 0 <= k < |users| && users[k].id == id) ==>
                  exists k :: && 0 <= k < |users| && users[k].id == id
                              && (forall m :: 0 <= m < k ==> users[m].id != id)
                              && r == (if users[k].nombre != "" then users[k].nombre else "S/N"))
  {
    var id := if num == 1 then m.jugador1Id else m.jugador2Id;
    var manual := if num == 1 then m.jugador1Nombre else m.jugador2Nombre;
    if id > 0 then
      match Lists.Find(users, (u: UserSearch.User) => u.id == id)
      case Some(u) => if u.nombre != "" then u.nombre else "S/N"
      case None => "S/N"
    else if manual != "" then manual
    else "S/N"
  }

  /** A player is given when it has a user id or a typed name (`id || nombre_manual`). */
  predicate Given(id: int, nombre: string) {
    id != 0 || nombre != ""
  }

  /** The registration sent for a pair. */
  datatype Pareja = Pareja(categoriaId: int, jugador1Id: int, jugador1Nombre: string, jugador2Id: int,
                           jugador2Nombre: string, nombrePareja: string, esAdmin: bool)

  datatype Registro =
    | SinCategoria   // no category selected: nothing happens
    | Incompleta     // warning: both players are required
    | Inscribir(pareja: Pareja)

  /** `inscribirParejaManual`: the category is checked first, then both players; the pair's
      name defaults to "<player 1> / <player 2>" and the registration is the administrator's. */
  function InscribirPareja(categoria: Option<int>, m: Manual, users: seq<UserSearch.User>): (r: Registro)
    ensures r == SinCategoria <==> categoria.None?
    ensures r == Incompleta <==> categoria.Some? && !(Given(m.jugador1Id, m.jugador1Nombre) && Given(m.jugador2Id, m.jugador2Nombre))
    ensures r.Inscribir? ==> && r.pareja.categoriaId == categoria.value && r.pareja.esAdmin
                             && r.pareja.jugador1Id == m.jugador1Id && r.pareja.jugador1Nombre == m.jugador1Nombre
                             && r.pareja.jugador2Id == m.jugador2Id && r.pareja.jugador2Nombre == m.jugador2Nombre
                             && (m.nombrePareja != "" ==> r.pareja.nombrePareja == m.nombrePareja)
                             && (m.nombrePareja == "" ==>
                                   r.pareja.nombrePareja == NombreJugador(m, 1, users) + " / " + NombreJugador(m, 2, users))
  {
    match categoria
    case None => SinCategoria
    case Some(cat) =>
      if !(Given(m.jugador1Id, m.jugador1Nombre) && Given(m.jugador2Id, m.jugador2Nombre)) then Incompleta
      else
        var nombre := if m.nombrePareja != "" then m.nombrePareja
                      else NombreJugador(m, 1, users) + " / " + NombreJugador(m, 2, users);
        Inscribir(Pareja(cat, m.jugador1Id, m.jugador1Nombre, m.jugador2Id, m.jugador2Nombre, nombre, true))
  }

  /** A pair of two typed players with no pair name is named after them. */
  lemma TypedPairName(cat: int, a: string, b: string, users: seq<UserSearch.User>)
    requires a != "" && b != ""
    ensures InscribirPareja(Some(cat), Manual(0, a, 0, b, ""), users).Inscribir?
    ensures InscribirPareja(Some(cat), Manual(0, a, 0, b, ""), users).pareja.nombrePareja == a + " / " + b
  {
  }

  /** After a registration the form is empty again, and an empty form cannot register. */
  lemma ResetFormRejected(cat: int, users: seq<UserSearch.User>)
    ensures InscribirPareja(Some(cat), EmptyManual, users) == Incompleta
  {
  }
}
