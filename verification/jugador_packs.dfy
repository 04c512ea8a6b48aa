/** The player's pack shop: the trainers on offer, the packs of the chosen trainer, the
    optional location filter of the pack query, and the notice shown on return from the
    payment page. */
module JugadorPacks {
  import opened Wrappers
  import opened Text
  import Lists

  /* ---------- return from the payment page ---------- */

  datatype Notice = PaymentOk | PaymentError | PaymentCancelled | NoNotice

  /** `checkPaymentStatus`: the `status` query parameter chooses the notice. */
  function PaymentNotice(status: Option<string>): (n: Notice)
    ensures n == PaymentOk <==> status == Some("success")
    ensures n == PaymentError <==> status == Some("error_db") || status == Some("error_token")
    ensures n == PaymentCancelled <==> status == Some("cancelled")
  {
    match status
    case None => NoNotice
    case Some(s) =>
      if s == "success" then PaymentOk
      else if s == "error_db" || s == "error_token" then PaymentError
      else if s == "cancelled" then PaymentCancelled
      else NoNotice
  }

  /* ---------- trainers and packs ---------- */

  /** A pack on sale; a missing trainer id is `None`. */
  datatype Pack = Pack(id: int, entrenadorId: Option<int>, entrenadorNombre: Option<string>, nombre: string, precio: int)

  /** An entry of the trainer selector. */
  datatype Entrenador = Entrenador(id: int, nombre: Option<string>)

  function TrainerOf(p: Pack): Option<int> {
    p.entrenadorId
  }

  /** The entry a pack gives: its trainer's id and name (the packs it is used on all have
      a trainer id). */
  function ToEntrenador(p: Pack): Entrenador {
    Entrenador(p.entrenadorId.GetOr(0), p.entrenadorNombre)
  }

  /** The packs `cargarEntrenadores` looks at: those with a truthy trainer id. */
  function WithTrainer(packs: seq<Pack>): (r: seq<Pack>)
    ensures forall p :: p in r <==> p in packs && TruthyInt(p.entrenadorId)
    ensures forall i :: 0 <= i < |r| ==> TruthyInt(r[i].entrenadorId)
  {
    Lists.Filter(packs, (p: Pack) => TruthyInt(p.entrenadorId))
  }

  /** `cargarEntrenadores`: one entry per distinct trainer id of the packs, skipping packs
      without a trainer (see `TrainerNamedByFirstPack` for which pack names it). */
  function CargarEntrenadores(packs: seq<Pack>): (r: seq<Entrenador>)
    ensures forall i, j :: 0 <= i < j < |r| ==> r[i].id != r[j].id
    ensures forall p :: p in packs && TruthyInt(p.entrenadorId) ==> exists i :: 0 <= i < |r| && r[i].id == p.entrenadorId.value
  {
    var ws := WithTrainer(packs);
    var d := Lists.DedupBy(ws, TrainerOf);
    var r := Lists.Map(d, ToEntrenador);
    DistinctTrainers(ws, d, r);
    TrainersCovered(ws, d, r);
    r
  }

  /** Every pack's trainer has an entry once the trainers are read off. */
  lemma TrainersCovered(ws: seq<Pack>, d: seq<Pack>, r: seq<Entrenador>)
    requires forall p :: p in ws ==> TruthyInt(p.entrenadorId)
    requires d == Lists.DedupBy(ws, TrainerOf) && r == Lists.Map(d, ToEntrenador)
    ensures forall p :: p in ws ==> exists i :: 0 <= i < |r| && Some(r[i].id) == p.entrenadorId
  {
    forall p | p in ws ensures exists i :: 0 <= i < |r| && Some(r[i].id) == p.entrenadorId {
      var j :| 0 <= j < |ws| && ws[j] == p;
      assert TrainerOf(ws[j]) in Lists.Keys(d, TrainerOf);
      var i :| 0 <= i < |d| && Lists.Keys(d, TrainerOf)[i] == TrainerOf(ws[j]);
      assert r[i].id == p.entrenadorId.value;
    }
  }

  /** Distinct trainer ids, all present, stay distinct once read off. */
  lemma DistinctTrainers(ws: seq<Pack>, d: seq<Pack>, r: seq<Entrenador>)
    requires forall i :: 0 <= i < |ws| ==> TruthyInt(ws[i].entrenadorId)
    requires d == Lists.DedupBy(ws, TrainerOf) && r == Lists.Map(d, ToEntrenador)
    ensures forall i, j :: 0 <= i < j < |r| ==> r[i].id != r[j].id
  {
    Lists.DedupMembers(ws, TrainerOf);
  }

  /** Each trainer has a truthy id and is named after the first pack of theirs. */
  lemma TrainerNamedByFirstPack(packs: seq<Pack>, i: nat)
    requires i < |CargarEntrenadores(packs)|
    ensures CargarEntrenadores(packs)[i].id != 0
    ensures exists k :: && 0 <= k < |WithTrainer(packs)|
                        && CargarEntrenadores(packs)[i] == ToEntrenador(WithTrainer(packs)[k])
                        && forall m :: 0 <= m < k ==> WithTrainer(packs)[m].entrenadorId != WithTrainer(packs)[k].entrenadorId
  {
    var ws := WithTrainer(packs);
    var d := Lists.DedupBy(ws, TrainerOf);
    var r := CargarEntrenadores(packs);
    assert r[i] == ToEntrenador(d[i]);
    assert Lists.FirstIn(ws, TrainerOf, d[i]);
    var k :| 0 <= k < |ws| && ws[k] == d[i] && Lists.FirstOfKey(ws, TrainerOf, k);
    assert r[i] == ToEntrenador(ws[k]);
  }

  /** The entries come in the order of their trainers' first packs. */
  lemma TrainersInPackOrder(packs: seq<Pack>, i: nat, j: nat)
    requires i < j < |CargarEntrenadores(packs)|
    ensures exists a, b :: && 0 <= a < b < |WithTrainer(packs)|
                           && CargarEntrenadores(packs)[i] == ToEntrenador(WithTrainer(packs)[a])
                           && CargarEntrenadores(packs)[j] == ToEntrenador(WithTrainer(packs)[b])
                           && Lists.FirstOfKey(WithTrainer(packs), TrainerOf, a)
                           && Lists.FirstOfKey(WithTrainer(packs), TrainerOf, b)
  {
    var ws := WithTrainer(packs);
    var d := Lists.DedupBy(ws, TrainerOf);
    Lists.DedupInOrder(ws, TrainerOf);
    assert Lists.FirstsInOrder(ws, TrainerOf, d[i], d[j]);
    var a, b :| && 0 <= a < b < |ws| && ws[a] == d[i] && ws[b] == d[j]
                && Lists.FirstOfKey(ws, TrainerOf, a) && Lists.FirstOfKey(ws, TrainerOf, b);
    assert CargarEntrenadores(packs)[i] == ToEntrenador(ws[a]);
    assert CargarEntrenadores(packs)[j] == ToEntrenador(ws[b]);
  }

  /** The first entry is the trainer of the first pack that has one. */
  lemma FirstPackGivesFirstTrainer(packs: seq<Pack>)
    requires WithTrainer(packs) != []
    ensures CargarEntrenadores(packs) != []
    ensures CargarEntrenadores(packs)[0] == ToEntrenador(WithTrainer(packs)[0])
  {
    Lists.DedupHead(WithTrainer(packs), TrainerOf);
  }

  /** `filtrarPacks`: all packs, in order, when no trainer is chosen; otherwise exactly the
      chosen trainer's packs, in order. */
  function FiltrarPacks(packs: seq<Pack>, selected: Option<int>): (r: seq<Pack>)
    ensures !TruthyInt(selected) ==> r == packs
    ensures TruthyInt(selected) ==> forall p :: p in r <==> p in packs && p.entrenadorId == selected
    ensures Lists.Subseq(r, packs)
  {
    if TruthyInt(selected) then
      Lists.FilterIsSubseq(packs, (p: Pack) => p.entrenadorId == selected);
      Lists.Filter(packs, (p: Pack) => p.entrenadorId == selected)
    else
      Lists.FilterIsSubseq(packs, (p: Pack) => true);
      Lists.FilterAll(packs, (p: Pack) => true);
      packs
  }

  /** `onEntrenadorChange`: 'null' and '' clear the choice; anything else is read with
      `Number` (`NaN`, like `null`, selects nobody, and is `None` here). */
  function OnEntrenadorChange(val: string): (r: Option<int>)
    ensures val == "null" || val == "" ==> r.None?
    ensures val != "null" && val != "" ==> r == NumberOf(val)
  {
    if val == "null" || val == "" then None else NumberOf(val)
  }

  /** Choosing a trainer in the selector (whose option value is the id written in decimal)
      shows exactly that trainer's packs; choosing "all" shows every pack. */
  lemma ChosenTrainerPacks(packs: seq<Pack>, id: nat)
    requires id > 0
    ensures forall p :: p in FiltrarPacks(packs, OnEntrenadorChange(Decimal(id))) <==> p in packs && p.entrenadorId == Some(id)
    ensures FiltrarPacks(packs, OnEntrenadorChange("null")) == packs
  {
    DigitsValueOfDecimal(id);
    DecimalDigits(id);
    assert IsDigit(Decimal(id)[0]);
  }

  /* ---------- the location filter ---------- */

  /** The location part of the page; coordinates are fixed-point numbers and, as in the
      source, 0 counts as missing. */
  datatype Ubicacion = Ubicacion(useLocation: bool, lat: Option<int>, lng: Option<int>, radius: int)

  /** The optional parameters of the pack query. */
  datatype Query = Query(lat: Option<int>, lng: Option<int>, radius: Option<int>)

  /** `loadPacks`: the coordinates go with the query only when the filter is on and they are
      set; the radius whenever the filter is on. */
  function QueryOf(u: Ubicacion): (q: Query)
    ensures !u.useLocation ==> q == Query(None, None, None)
    ensures u.useLocation ==> q.radius == Some(u.radius)
    ensures q.lat.Some? <==> u.useLocation && TruthyInt(u.lat)
    ensures q.lng.Some? <==> u.useLocation && TruthyInt(u.lng)
    ensures q.lat.Some? ==> q.lat == u.lat
    ensures q.lng.Some? ==> q.lng == u.lng
  {
    Query(if u.useLocation && TruthyInt(u.lat) then u.lat else None,
          if u.useLocation && TruthyInt(u.lng) then u.lng else None,
          if u.useLocation then Some(u.radius) else None)
  }

  /** What a change of the filter leads to. */
  datatype Effect = Locate | Reload | Stay

  /** `toggleLocation`: turning the filter on asks for the position; turning it off forgets
      the coordinates and reloads. */
  function ToggleLocation(u: Ubicacion): (r: (Ubicacion, Effect))
    ensures r.0.useLocation == !u.useLocation && r.0.radius == u.radius
    ensures u.useLocation ==> r.0.lat.None? && r.0.lng.None? && r.1 == Reload
    ensures !u.useLocation ==> r.0.lat == u.lat && r.0.lng == u.lng && r.1 == Locate
  {
    if u.useLocation then (u.(useLocation := false, lat := None, lng := None), Reload)
    else (u.(useLocation := true), Locate)
  }

  /** The position arrived: the coordinates are set and the packs reloaded. */
  function Located(u: Ubicacion, lat: int, lng: int): (r: (Ubicacion, Effect))
    ensures r.0 == u.(lat := Some(lat), lng := Some(lng)) && r.1 == Reload
  {
    (u.(lat := Some(lat), lng := Some(lng)), Reload)
  }

  /** The position could not be had (or geolocation is missing): the filter is off again. */
  function LocationFailed(u: Ubicacion): (r: Ubicacion)
    ensures !r.useLocation && r.lat == u.lat && r.lng == u.lng && r.radius == u.radius
  {
    u.(useLocation := false)
  }

  /** `onRadiusChange`: the new radius; a reload only when the filter is on and both
      coordinates are set. */
  function OnRadiusChange(u: Ubicacion, radius: int): (r: (Ubicacion, Effect))
    ensures r.0 == u.(radius := radius)
    ensures r.1 == Reload <==> u.useLocation && TruthyInt(u.lat) && TruthyInt(u.lng)
    ensures r.1 != Locate
  {
    (u.(radius := radius), if u.useLocation && TruthyInt(u.lat) && TruthyInt(u.lng) then Reload else Stay)
  }

  /** Turning the filter off sends the query without any location parameter. */
  lemma OffMeansNoLocation(u: Ubicacion)
    requires u.useLocation
    ensures QueryOf(ToggleLocation(u).0) == Query(None, None, None)
  {
  }

  /** Turning the filter on and receiving a position sends the position and the radius. */
  lemma OnAndLocatedSendsPosition(u: Ubicacion, lat: int, lng: int)
    requires !u.useLocation && lat != 0 && lng != 0
    ensures QueryOf(Located(ToggleLocation(u).0, lat, lng).0) == Query(Some(lat), Some(lng), Some(u.radius))
  {
  }
}
