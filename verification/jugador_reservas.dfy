/** A player booking a class with one of their trainers: the trainers are taken from the
    player's packs, choosing a trainer picks the oldest pack that still has sessions, and
    booking an hour is guarded by the hour being free and a pack being selected. */
module JugadorReservas {
  import opened Wrappers
  import Lists
  import Sorting
  import HourlyBlocks

  /** A pack the player bought, as the server lists it. `sesionesRestantes` `None` is a
      value `Number` reads as `NaN`; `fechaCompra` is the purchase instant. */
  datatype Pack = Pack(
    entrenadorId: int,
    entrenadorNombre: string,
    entrenadorFoto: Option<string>,
    foto: Option<string>,
    sesionesRestantes: Option<int>,
    fechaCompra: int,
    packId: int,
    packJugadorId: int)

  /** A trainer entry of the selector. */
  datatype Entrenador = Entrenador(id: int, nombre: string, foto: Option<string>)

  function TrainerKey(p: Pack): int {
    p.entrenadorId
  }

  /** The trainer entry a pack describes: `foto` falls back from the trainer's photo to the
      pack's, then to `null`. */
  function EntrenadorOf(p: Pack): (e: Entrenador)
    ensures e.id == p.entrenadorId && e.nombre == p.entrenadorNombre
    ensures e.foto.Some? ==> e.foto.value != ""
    ensures TruthyStr(p.entrenadorFoto) ==> e.foto == p.entrenadorFoto
    ensures !TruthyStr(p.entrenadorFoto) && TruthyStr(p.foto) ==> e.foto == p.foto
    ensures !TruthyStr(p.entrenadorFoto) && !TruthyStr(p.foto) ==> e.foto == None
  {
    Entrenador(p.entrenadorId, p.entrenadorNombre,
      if TruthyStr(p.entrenadorFoto) then p.entrenadorFoto
      else if TruthyStr(p.foto) then p.foto
      else None)
  }

  function Ids(es: seq<Entrenador>): (r: seq<int>)
    ensures |r| == |es| && forall i :: 0 <= i < |es| ==> r[i] == es[i].id
  {
    seq(|es|, i requires 0 <= i < |es| => es[i].id)
  }

  /** `extraerEntrenadores`: one entry per distinct trainer id, built from the first pack
      of that trainer. */
  function ExtraerEntrenadores(packs: seq<Pack>): (r: seq<Entrenador>)
    ensures |r| <= |packs|
    ensures forall i, j :: 0 <= i < j < |r| ==> r[i].id != r[j].id
    ensures forall j :: 0 <= j < |packs| ==> packs[j].entrenadorId in Ids(r)
    ensures forall i :: 0 <= i < |r| ==>
              exists j :: 0 <= j < |packs| && Lists.FirstOfKey(packs, TrainerKey, j) && r[i] == EntrenadorOf(packs[j])
  {
    var d := Lists.DedupBy(packs, TrainerKey);
    var r := seq(|d|, i requires 0 <= i < |d| => EntrenadorOf(d[i]));
    assert Ids(r) == Lists.Keys(d, TrainerKey);
    r
  }

  /** The entries come in the order their trainers first appear among the packs: of any
      two entries, the earlier is read off the first pack of a trainer whose first pack
      comes earlier. */
  lemma ExtraerKeepsOrder(packs: seq<Pack>)
    ensures Lists.Subseq(Ids(ExtraerEntrenadores(packs)), Lists.Keys(packs, TrainerKey))
    ensures forall i, j :: 0 <= i < j < |ExtraerEntrenadores(packs)| ==>
              exists a, b :: && 0 <= a < b < |packs|
                             && Lists.FirstOfKey(packs, TrainerKey, a) && Lists.FirstOfKey(packs, TrainerKey, b)
                             && ExtraerEntrenadores(packs)[i] == EntrenadorOf(packs[a])
                             && ExtraerEntrenadores(packs)[j] == EntrenadorOf(packs[b])
  {
    var d := Lists.DedupBy(packs, TrainerKey);
    var r := ExtraerEntrenadores(packs);
    Lists.DedupIsSubseq(packs, TrainerKey);
    Lists.SubseqKeys(d, packs, TrainerKey);
    assert Ids(r) == Lists.Keys(d, TrainerKey);
    Lists.DedupInOrder(packs, TrainerKey);
    forall i, j | 0 <= i < j < |r|
      ensures exists a, b :: && 0 <= a < b < |packs|
                             && Lists.FirstOfKey(packs, TrainerKey, a) && Lists.FirstOfKey(packs, TrainerKey, b)
                             && r[i] == EntrenadorOf(packs[a]) && r[j] == EntrenadorOf(packs[b])
    {
      assert Lists.FirstsInOrder(packs, TrainerKey, d[i], d[j]);
      var a, b :| && 0 <= a < b < |packs| && packs[a] == d[i] && packs[b] == d[j]
                  && Lists.FirstOfKey(packs, TrainerKey, a) && Lists.FirstOfKey(packs, TrainerKey, b);
      assert r[i] == EntrenadorOf(packs[a]) && r[j] == EntrenadorOf(packs[b]);
    }
  }

  /** `getCoachName`: the name of the first trainer with that id; '' for no id (`null` or 0),
      for an unknown id, and for a trainer without a name. */
  function CoachName(entrenadores: seq<Entrenador>, id: Option<int>): (r: string)
    ensures !TruthyInt(id) ==> r == ""
    ensures TruthyInt(id) && id.value !in Ids(entrenadores) ==> r == ""
    ensures TruthyInt(id) && id.value in Ids(entrenadores) ==>
              exists i :: 0 <= i < |entrenadores| && entrenadores[i].id == id.value && r == entrenadores[i].nombre &&
                forall j :: 0 <= j < i ==> entrenadores[j].id != id.value
  {
    if !TruthyInt(id) then ""
    else match Lists.Find(entrenadores, (e: Entrenador) => e.id == id.value)
      case None => ""
      case Some(e) => e.nombre
  }

  /** `currentCoachPhoto`: the photo of the first trainer with the selected id, if any. */
  function CurrentCoachPhoto(entrenadores: seq<Entrenador>, selected: Option<int>): (r: Option<string>)
    ensures !TruthyInt(selected) ==> r == None
    ensures TruthyInt(selected) && selected.value !in Ids(entrenadores) ==> r == None
    ensures TruthyInt(selected) && selected.value in Ids(entrenadores) ==>
              exists i :: && 0 <= i < |entrenadores| && entrenadores[i].id == selected.value
                          && (forall j :: 0 <= j < i ==> entrenadores[j].id != selected.value)
                          && r == (if TruthyStr(entrenadores[i].foto) then entrenadores[i].foto else None)
    ensures r.Some? ==> r.value != ""
  {
    if !TruthyInt(selected) then None
    else match Lists.Find(entrenadores, (e: Entrenador) => e.id == selected.value)
      case None => None
      case Some(e) => if TruthyStr(e.foto) then e.foto else None
  }

  /** Once the trainers are read off the packs, the photo shown for a chosen trainer is the
      one their first pack gives. */
  lemma CoachPhotoFromFirstPack(packs: seq<Pack>, k: nat)
    requires k < |packs| && Lists.FirstOfKey(packs, TrainerKey, k) && packs[k].entrenadorId != 0
    ensures CurrentCoachPhoto(ExtraerEntrenadores(packs), Some(packs[k].entrenadorId)) == EntrenadorOf(packs[k]).foto
  {
    var r := ExtraerEntrenadores(packs);
    var id := packs[k].entrenadorId;
    assert id in Ids(r);
    var i :| 0 <= i < |r| && Ids(r)[i] == id;
    var j :| 0 <= j < |packs| && Lists.FirstOfKey(packs, TrainerKey, j) && r[i] == EntrenadorOf(packs[j]);
    assert TrainerKey(packs[j]) == TrainerKey(packs[k]);
    assert j == k;
    forall m | 0 <= m < |r| && r[m].id == id ensures m == i {
    }
  }

  /* ---------- choosing a trainer ---------- */

  /** The pack counts for the trainer: same trainer and at least one session left. */
  predicate Usable(p: Pack, trainer: int) {
    p.entrenadorId == trainer && p.sesionesRestantes.Some? && p.sesionesRestantes.value > 0
  }

  function FechaCompra(p: Pack): int {
    p.fechaCompra
  }

  datatype Seleccion = Seleccion(packsDelEntrenador: seq<Pack>, selectedPack: Option<Pack>)

  /** `onEntrenadorChange`: nothing happens without a selected trainer; otherwise the
      trainer's usable packs, oldest purchase first (packs bought at the same time in list
      order, as the stable sort keeps them), and the first of them selected. */
  function OnEntrenadorChange(packs: seq<Pack>, selected: Option<int>, current: Seleccion): (s: Seleccion)
    ensures !TruthyInt(selected) ==> s == current
    ensures TruthyInt(selected) ==>
              && multiset(s.packsDelEntrenador) == multiset(Lists.Filter(packs, (p: Pack) => Usable(p, selected.value)))
              && (forall i, j :: 0 <= i < j < |s.packsDelEntrenador| ==>
                    s.packsDelEntrenador[i].fechaCompra <= s.packsDelEntrenador[j].fechaCompra)
              && (forall d :: Lists.Filter(s.packsDelEntrenador, Sorting.HasKey(FechaCompra, d)) ==
                                Lists.Filter(Lists.Filter(packs, (p: Pack) => Usable(p, selected.value)), Sorting.HasKey(FechaCompra, d)))
              && (s.selectedPack.None? <==> forall k :: 0 <= k < |packs| ==> !Usable(packs[k], selected.value))
              && (s.packsDelEntrenador != [] ==> s.selectedPack == Some(s.packsDelEntrenador[0]))
              && (s.selectedPack.Some? ==> (Usable(s.selectedPack.value, selected.value) && s.selectedPack.value in packs &&
                    forall k :: 0 <= k < |packs| && Usable(packs[k], selected.value) ==>
                      s.selectedPack.value.fechaCompra <= packs[k].fechaCompra))
  {
    if !TruthyInt(selected) then current
    else
      var usable := Lists.Filter(packs, (p: Pack) => Usable(p, selected.value));
      var sorted := Sorting.SortByInt(usable, FechaCompra);
      if |sorted| > 0 then
        OldestFirst(packs, selected.value, usable, sorted);
        Seleccion(sorted, Some(sorted[0]))
      else
        assert forall k :: 0 <= k < |packs| && Usable(packs[k], selected.value) ==> packs[k] in usable;
        Seleccion(sorted, None)
  }

  lemma OldestFirst(packs: seq<Pack>, trainer: int, usable: seq<Pack>, sorted: seq<Pack>)
    requires usable == Lists.Filter(packs, (p: Pack) => Usable(p, trainer))
    requires multiset(sorted) == multiset(usable) && |sorted| > 0
    requires forall i, j :: 0 <= i < j < |sorted| ==> sorted[i].fechaCompra <= sorted[j].fechaCompra
    ensures Usable(sorted[0], trainer) && sorted[0] in packs
    ensures forall k :: 0 <= k < |packs| && Usable(packs[k], trainer) ==> sorted[0].fechaCompra <= packs[k].fechaCompra
  {
    assert sorted[0] in multiset(usable);
    forall k | 0 <= k < |packs| && Usable(packs[k], trainer) ensures sorted[0].fechaCompra <= packs[k].fechaCompra {
      assert packs[k] in usable;
      assert packs[k] in multiset(sorted);
      var j :| 0 <= j < |sorted| && sorted[j] == packs[k];
    }
  }

  /* ---------- booking ---------- */

  /** The booking sent to the server. */
  datatype Booking = Booking(
    entrenadorId: Option<int>,
    packId: int,
    packJugadorId: int,
    fecha: string,
    horaInicio: string,
    horaFin: string,
    jugadorId: Option<int>,
    estado: string)

  datatype Outcome =
    | Ignored    // the hour is booked: nothing happens
    | Dismissed  // the confirmation was declined
    | NoPack     // confirmed without a selected pack: error, no booking
    | Book(booking: Booking)

  /** `reservarHorario` after the confirmation dialog answers `confirmed`. */
  function ReservarHorario(h: HourlyBlocks.Horario, confirmed: bool, selectedPack: Option<Pack>,
                           selectedEntrenador: Option<int>, userId: Option<int>): (o: Outcome)
    ensures h.ocupado <==> o == Ignored
    ensures o.Book? <==> !h.ocupado && confirmed && selectedPack.Some?
    ensures o == NoPack <==> !h.ocupado && confirmed && selectedPack.None?
    ensures o.Book? ==> && o.booking.packId == selectedPack.value.packId
                        && o.booking.packJugadorId == selectedPack.value.packJugadorId
                        && o.booking.entrenadorId == selectedEntrenador && o.booking.jugadorId == userId
                        && o.booking.fecha == h.fecha && o.booking.estado == "reservado"
                        && o.booking.horaInicio == HourlyBlocks.HoraDe(h.inicio)
                        && o.booking.horaFin == HourlyBlocks.HoraDe(h.fin)
  {
    if h.ocupado then Ignored
    else if !confirmed then Dismissed
    else match selectedPack
      case None => NoPack
      case Some(p) =>
        Book(Booking(selectedEntrenador, p.packId, p.packJugadorId, h.fecha,
                     HourlyBlocks.HoraDe(h.inicio), HourlyBlocks.HoraDe(h.fin), userId, "reservado"))
  }

  /** Once a trainer is chosen, booking a free, confirmed hour fails exactly when the
      player has no pack with sessions left for that trainer, and otherwise uses the
      oldest such pack. */
  lemma BookingUsesOldestPack(packs: seq<Pack>, trainer: int, current: Seleccion, h: HourlyBlocks.Horario, userId: Option<int>)
    requires trainer != 0 && !h.ocupado
    ensures var s := OnEntrenadorChange(packs, Some(trainer), current);
      var o := ReservarHorario(h, true, s.selectedPack, Some(trainer), userId);
      && (o == NoPack <==> forall k :: 0 <= k < |packs| ==> !Usable(packs[k], trainer))
      && (o.Book? ==> exists k :: (0 <= k < |packs| && Usable(packs[k], trainer) && o.booking.packId == packs[k].packId &&
            forall m :: 0 <= m < |packs| && Usable(packs[m], trainer) ==> packs[k].fechaCompra <= packs[m].fechaCompra))
  {
    var s := OnEntrenadorChange(packs, Some(trainer), current);
    if s.selectedPack.Some? {
      var k :| 0 <= k < |packs| && packs[k] == s.selectedPack.value;
    }
  }
}
