/** The profile page: the stored role, the profile and address as loaded from the server,
    the region and commune pickers, and the fields sent when saving. */
module Perfil {
  import opened Wrappers
  import Lists

  /** A JSON value of a profile or address field. */
  datatype Value = Text(s: string) | Num(n: int) | Null

  /** An object: field name to value. */
  type Fields = map<string, Value>

  /** The profile fields the page starts with, all empty. */
  const DefaultProfile: Fields := map["nombre" := Text(""), "usuario" := Text(""), "rol" := Text(""),
                                      "telefono" := Text(""), "instagram" := Text(""),
                                      "facebook" := Text(""), "foto_perfil" := Text("")]

  /** The address fields the page starts with. */
  const DefaultDireccion: Fields := map["region" := Text(""), "comuna" := Text(""), "calle" := Text(""),
                                        "numero_casa" := Text(""), "referencia" := Text(""),
                                        "latitud" := Null, "longitud" := Null]

  /* ---------- the stored role ---------- */

  /** The role the page works with: the stored one when it is exactly 'entrenador' or
      'jugador', otherwise 'jugador'. */
  function UserRole(stored: Option<string>): (r: string)
    ensures r == "entrenador" || r == "jugador"
    ensures r == "entrenador" <==> stored == Some("entrenador")
  {
    if stored == Some("entrenador") || stored == Some("jugador") then stored.value else "jugador"
  }

  /* ---------- regions and communes ---------- */

  datatype Region = Region(id: string, name: string)

  /** The sixteen regions, in the order of the picker. */
  const Regions: seq<Region> := [
    Region("13", "Metropolitana de Santiago"), Region("15", "Arica y Parinacota"),
    Region("1", "Tarapacá"), Region("2", "Antofagasta"), Region("3", "Atacama"),
    Region("4", "Coquimbo"), Region("5", "Valparaíso"), Region("6", "O'Higgins"),
    Region("7", "Maule"), Region("16", "Ñuble"), Region("8", "Biobío"),
    Region("9", "Araucanía"), Region("14", "Los Ríos"), Region("10", "Los Lagos"),
    Region("11", "Aysén"), Region("12", "Magallanes")]

  /** The communes of each region, by region id. */
  const AllComunas: map<string, seq<string>> := map[
    "13" := ["Santiago", "Las Condes", "Providencia", "Ñuñoa", "Maipú", "Puente Alto", "La Florida",
             "Vitacura", "Lo Barnechea", "Colina", "Lampa", "San Bernardo", "Peñalolén"],
    "15" := ["Arica", "Camarones", "Putre", "General Lagos"],
    "1" := ["Iquique", "Alto Hospicio", "Pozo Almonte", "Pica", "Huara"],
    "2" := ["Antofagasta", "Calama", "Mejillones", "Taltal", "Tocopilla"],
    "3" := ["Copiapó", "Vallenar", "Caldera", "Chañaral", "Huasco"],
    "4" := ["La Serena", "Coquimbo", "Ovalle", "Illapel", "Vicuña", "Salamanca"],
    "5" := ["Valparaíso", "Viña del Mar", "Concón", "Quilpué", "Villa Alemana", "Limache", "Quillota",
            "San Antonio", "Los Andes", "San Felipe"],
    "6" := ["Rancagua", "Machalí", "Rengo", "San Fernando", "Pichilemu", "Santa Cruz"],
    "7" := ["Talca", "Curicó", "Linares", "Constitución", "Cauquenes", "Parral"],
    "16" := ["Chillán", "Chillán Viejo", "San Carlos", "Bulnes", "Yungay"],
    "8" := ["Concepción", "Talcahuano", "San Pedro de la Paz", "Chiguayante", "Hualpén", "Los Ángeles",
            "Coronel", "Lota", "Tomé", "Penco"],
    "9" := ["Temuco", "Padre Las Casas", "Villarrica", "Pucón", "Angol", "Victoria", "Lautaro"],
    "14" := ["Valdivia", "La Unión", "Río Bueno", "Panguipulli", "Paillaco", "Mariquina"],
    "10" := ["Puerto Montt", "Puerto Varas", "Osorno", "Castro", "Ancud", "Quellón", "Frutillar"],
    "11" := ["Coyhaique", "Puerto Aysén", "Chile Chico", "Cochrane"],
    "12" := ["Punta Arenas", "Puerto Natales", "Porvenir", "Cabo de Hornos"]]

  /** Every region of the picker has its list of communes, and no list is empty. */
  lemma EveryRegionHasComunas()
    ensures forall i :: 0 <= i < |Regions| ==> Regions[i].id in AllComunas && AllComunas[Regions[i].id] != []
  {
  }

  /** No two regions share an id or a name, so a region is found by its name alone. */
  lemma RegionsDistinct()
    ensures forall i, j :: 0 <= i < j < |Regions| ==> Regions[i].id != Regions[j].id && Regions[i].name != Regions[j].name
  {
  }

  /** `allComunas[id] || []`: the communes listed for a region id, none when it has no
      entry. */
  function ComunasOf(id: string): seq<string> {
    if id in AllComunas then AllComunas[id] else []
  }

  /** The address's region name, when it holds a text. */
  function RegionName(d: Fields): Option<string> {
    if "region" in d && d["region"].Text? then Some(d["region"].s) else None
  }

  predicate Named(r: Region, name: Option<string>) {
    name == Some(r.name)
  }

  /** Two regions with the same name are the same entry of the picker. */
  lemma SameNameSameRegion(i: nat, j: nat)
    requires i < |Regions| && j < |Regions| && Regions[i].name == Regions[j].name
    ensures i == j
  {
    RegionsDistinct();
  }

  /** `updateComunas`: a region found by name gives its communes (none when it has no
      entry) and, unless `keepComuna`, clears the commune; an unknown region gives no
      communes and leaves the address alone. */
  function UpdateComunas(d: Fields, keepComuna: bool): (r: (seq<string>, Fields))
    ensures forall i :: 0 <= i < |Regions| && Named(Regions[i], RegionName(d)) ==>
              r == (ComunasOf(Regions[i].id), if keepComuna then d else d["comuna" := Text("")])
    ensures (forall i :: 0 <= i < |Regions| ==> !Named(Regions[i], RegionName(d))) ==> r == ([], d)
  {
    var name := RegionName(d);
    match Lists.FindIndex(Regions, (x: Region) => Named(x, name))
    case Some(k) =>
      OnlyRegionNamed(name, k);
      (ComunasOf(Regions[k].id), if keepComuna then d else d["comuna" := Text("")])
    case None => ([], d)
  }

  /** The region found by a name is the only one with that name. */
  lemma OnlyRegionNamed(name: Option<string>, k: nat)
    requires k < |Regions| && Named(Regions[k], name)
    ensures forall i :: 0 <= i < |Regions| && Named(Regions[i], name) ==> i == k
  {
    forall i | 0 <= i < |Regions| && Named(Regions[i], name) ensures i == k {
      SameNameSameRegion(i, k);
    }
  }

  /** A region picked by name lists its communes; picked in the form the commune is
      cleared, restored from the server it is kept. */
  lemma PickingRegionListsComunas(d: Fields, i: nat)
    requires i < |Regions| && "region" in d && d["region"] == Text(Regions[i].name)
    ensures UpdateComunas(d, false) == (ComunasOf(Regions[i].id), d["comuna" := Text("")])
    ensures UpdateComunas(d, true) == (ComunasOf(Regions[i].id), d)
  {
    assert Named(Regions[i], RegionName(d));
  }

  /* ---------- loading and saving ---------- */

  datatype Pagina = Pagina(profile: Fields, direccion: Fields, comunas: seq<string>)

  /** `{ ...a, ...b }`: every field of `b`, and the fields of `a` that `b` does not have. */
  function Overlay(a: Fields, b: Fields): (r: Fields)
    ensures r.Keys == a.Keys + b.Keys
    ensures forall k :: k in b ==> r[k] == b[k]
    ensures forall k :: k in a && k !in b ==> r[k] == a[k]
  {
    a + b
  }

  /** The answer of `getPerfil`. */
  datatype Reply = Failed | Answer(success: bool, user: Fields, direccion: Option<Fields>)

  /** `loadProfile`: on success the user's fields overlay the profile, and an address in the
      answer replaces the address and refreshes the communes, keeping the commune. */
  function LoadProfile(p: Pagina, reply: Reply): (q: Pagina)
    ensures !(reply.Answer? && reply.success) ==> q == p
    ensures reply.Answer? && reply.success ==> q.profile == Overlay(p.profile, reply.user)
    ensures reply.Answer? && reply.success && reply.direccion.None? ==> q.direccion == p.direccion && q.comunas == p.comunas
    ensures reply.Answer? && reply.success && reply.direccion.Some? ==>
              q.direccion == reply.direccion.value && q.comunas == UpdateComunas(reply.direccion.value, true).0
  {
    match reply
    case Failed => p
    case Answer(ok, user, dir) =>
      if !ok then p
      else
        var p1 := p.(profile := Overlay(p.profile, user));
        match dir
        case None => p1
        case Some(d) =>
          var (comunas, d1) := UpdateComunas(d, true);
          p1.(direccion := d1, comunas := comunas)
  }

  /** Loading never loses a profile field: the fields the page started with are always
      there, whatever the server leaves out. */
  lemma LoadKeepsFields(p: Pagina, reply: Reply)
    requires DefaultProfile.Keys <= p.profile.Keys
    ensures DefaultProfile.Keys <= LoadProfile(p, reply).profile.Keys
  {
  }

  /** A field of the profile, `undefined` (here `Null`) when missing. */
  function Get(f: Fields, k: string): Value {
    if k in f then f[k] else Null
  }

  /** `guardarCambios`: nothing is sent without a (non-zero) user id; otherwise the user id,
      the four editable profile fields and then every address field, an address field
      winning over a profile field of the same name. */
  function GuardarCambios(userId: Option<int>, p: Pagina): (payload: Option<Fields>)
    ensures payload.Some? <==> TruthyInt(userId)
    ensures payload.Some? ==>
              payload.value.Keys == {"user_id", "nombre", "telefono", "instagram", "facebook"} + p.direccion.Keys
    ensures payload.Some? ==> && p.direccion.Keys <= payload.value.Keys
                              && (forall k :: k in p.direccion ==> payload.value[k] == p.direccion[k])
    ensures payload.Some? ==> forall k :: k in {"nombre", "telefono", "instagram", "facebook"} && k !in p.direccion ==>
                                k in payload.value && payload.value[k] == Get(p.profile, k)
    ensures payload.Some? && "user_id" !in p.direccion ==> "user_id" in payload.value && payload.value["user_id"] == Num(userId.value)
  {
    if !TruthyInt(userId) then None
    else
      var base := map["user_id" := Num(userId.value), "nombre" := Get(p.profile, "nombre"),
                      "telefono" := Get(p.profile, "telefono"), "instagram" := Get(p.profile, "instagram"),
                      "facebook" := Get(p.profile, "facebook")];
      Some(Overlay(base, p.direccion))
  }

  /** Saving right after loading an answer sends back the loaded address unchanged. */
  lemma SaveSendsLoadedAddress(userId: int, p: Pagina, user: Fields, d: Fields)
    requires userId != 0
    ensures var payload := GuardarCambios(Some(userId), LoadProfile(p, Answer(true, user, Some(d))));
            payload.Some? && forall k :: k in d ==> k in payload.value && payload.value[k] == d[k]
  {
  }

  /** `ngOnInit`: a page without a (non-zero) user id goes to the login page. */
  function CanOpen(userId: Option<int>): (ok: bool)
    ensures ok <==> userId.Some? && userId.value != 0
  {
    TruthyInt(userId)
  }
}
