/** A trainer's own packs: loading them, filtering them by name, and the form that creates
    a pack or edits one. */
module EntrenadorPacks {
  import opened Wrappers
  import opened Text
  import Lists

  /** A pack, as listed and as held by the form. */
  datatype Pack = Pack(
    id: Option<int>,
    nombre: string,
    tipo: string,
    sesionesTotales: Option<int>,
    duracionSesionMin: Option<int>,
    precio: Option<int>,
    descripcion: string,
    capacidadMinima: Option<int>,
    capacidadMaxima: Option<int>,
    diaSemana: Option<int>,
    horaInicio: Option<string>,
    categoria: string,
    entrenadorId: Option<int>)

  /** The empty form: an individual pack of 60-minute sessions for 4 to 6 players. */
  const DefaultPack: Pack := Pack(None, "", "individual", None, Some(60), None, "", Some(4), Some(6), None, None, "", None)

  /* ---------- loading ---------- */

  /** The answer of `getMisPacks`. */
  datatype Reply =
    | Failed                                      // the request failed
    | Lista(packs: seq<Pack>)                     // a bare array
    | Objeto(success: bool, data: Option<seq<Pack>>)
    | Otro                                        // null or any other value

  /** `loadPacks`: a bare array is the list, a successful object's `data` is the list,
      anything else empties it; a failed request keeps what was shown. */
  function LoadPacks(shown: seq<Pack>, reply: Reply): (r: seq<Pack>)
    ensures reply.Failed? ==> r == shown
    ensures reply.Lista? ==> r == reply.packs
    ensures reply.Objeto? && reply.success && reply.data.Some? ==> r == reply.data.value
    ensures reply.Otro? || (reply.Objeto? && !(reply.success && reply.data.Some?)) ==> r == []
  {
    match reply
    case Failed => shown
    case Lista(ps) => ps
    case Objeto(ok, data) => if ok && data.Some? then data.value else []
    case Otro => []
  }

  /* ---------- filtering ---------- */

  predicate NameMatches(p: Pack, filtro: string) {
    ContainsCI(p.nombre, filtro)
  }

  /** `packsFiltrados`: the packs whose name contains the filter, ignoring case, in order. */
  function PacksFiltrados(packs: seq<Pack>, filtro: string): (r: seq<Pack>)
    ensures forall p :: p in r <==> p in packs && NameMatches(p, filtro)
    ensures Lists.Subseq(r, packs)
  {
    Lists.FilterIsSubseq(packs, p => NameMatches(p, filtro));
    Lists.Filter(packs, p => NameMatches(p, filtro))
  }

  /** An empty filter shows every pack, in order. */
  lemma EmptyFilterShowsAll(packs: seq<Pack>)
    ensures PacksFiltrados(packs, "") == packs
  {
    forall i | 0 <= i < |packs| ensures NameMatches(packs[i], "") {
      EmptyContained(Lower(packs[i].nombre));
    }
    Lists.FilterAll(packs, p => NameMatches(p, ""));
  }

  /* ---------- the form ---------- */

  datatype Formulario = Formulario(mostrar: bool, nuevoPack: Pack)

  /** `resetFormulario`. */
  function Reset(f: Formulario): (g: Formulario)
    ensures g.nuevoPack == DefaultPack && g.mostrar == f.mostrar
  {
    f.(nuevoPack := DefaultPack)
  }

  /** `toggleFormulario`: opening keeps the form's contents, closing empties it. */
  function Toggle(f: Formulario): (g: Formulario)
    ensures g.mostrar == !f.mostrar
    ensures f.mostrar ==> g.nuevoPack == DefaultPack
    ensures !f.mostrar ==> g.nuevoPack == f.nuevoPack
  {
    var g := f.(mostrar := !f.mostrar);
    if !g.mostrar then Reset(g) else g
  }

  /** `editarPack`: the form opens holding a copy of the pack. */
  function Editar(f: Formulario, p: Pack): (g: Formulario)
    ensures g.mostrar && g.nuevoPack == p
  {
    Formulario(true, p)
  }

  /** Closing after editing forgets the edit: the form is empty whatever was edited. */
  lemma CloseForgetsEdit(f: Formulario, p: Pack, q: Pack)
    ensures Toggle(Editar(f, p)) == Toggle(Editar(f, q))
    ensures Toggle(Editar(f, p)) == Formulario(false, DefaultPack)
  {
  }

  /** What `crearPack` asks the server to do. */
  datatype Envio =
    | Incompleto          // warning: name and total sessions are required
    | Actualizar(pack: Pack)
    | Crear(pack: Pack)

  /** `crearPack`: a pack needs a name and a (non-zero) number of sessions; one with an id
      is updated as it is, one without is created with the trainer attached. */
  function CrearPack(p: Pack, userId: Option<int>): (e: Envio)
    ensures e == Incompleto <==> p.nombre == "" || !TruthyInt(p.sesionesTotales)
    ensures e.Actualizar? <==> e != Incompleto && TruthyInt(p.id)
    ensures e.Actualizar? ==> e.pack == p
    ensures e.Crear? ==> e.pack == p.(entrenadorId := userId)
  {
    if p.nombre == "" || !TruthyInt(p.sesionesTotales) then Incompleto
    else if TruthyInt(p.id) then Actualizar(p)
    else Crear(p.(entrenadorId := userId))
  }

  /** A created pack differs from the form only in carrying the trainer: every field the
      trainer filled in is sent as it is. */
  lemma CreatedPackIsTheForm(p: Pack, userId: Option<int>)
    requires CrearPack(p, userId).Crear?
    ensures CrearPack(p, userId).pack.(entrenadorId := p.entrenadorId) == p
    ensures CrearPack(p, userId).pack.entrenadorId == userId
    ensures !TruthyInt(CrearPack(p, userId).pack.id)
  {
  }

  /** The empty form is never sent. */
  lemma DefaultIsIncomplete(userId: Option<int>)
    ensures CrearPack(DefaultPack, userId) == Incompleto
  {
  }

  /** After a successful save the list is reloaded and the form toggled: an open form
      closes empty. */
  function AfterSave(f: Formulario): (g: Formulario)
    requires f.mostrar
    ensures g == Formulario(false, DefaultPack)
  {
    Toggle(f)
  }

  /** `ngOnInit`: a page without a (non-zero) user id goes to the login page. */
  function CanOpen(userId: Option<int>): (ok: bool)
    ensures ok <==> userId.Some? && userId.value != 0
  {
    TruthyInt(userId)
  }
}
