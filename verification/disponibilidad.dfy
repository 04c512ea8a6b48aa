/** A trainer's weekly availability: the day split into fixed-length blocks, the blocks a
    booking already occupies, selecting and deselecting blocks, and the create/delete
    difference sent to the server when saving. Instants are minute counts of the day;
    `formatTime` (the "HH:MM:SS" of `toTimeString`) is the rendered minute count followed
    by ":00". */
module DisponibilidadEntrenador {
  import opened Wrappers
  import opened Text
  import opened Clock

  /** One block of a day's grid. */
  datatype Bloque = Bloque(fecha: string, horaInicio: string, horaFin: string, seleccionado: bool, ocupado: bool)

  /* ---------- generating a day ---------- */

  /** `formatTime` of the instant at minute `t` of the day: "HH:MM:SS". */
  function Stamp(t: int): string {
    FormatTime(t) + ":00"
  }

  /** `${fecha} ${hora}`, one end of an availability record as the server stores it. */
  function Stamped(fecha: string, hora: string): string {
    fecha + " " + hora
  }

  /** The key of the block from minute `s` to minute `e` in the set of stored availability:
      `${fecha} ${formatTime(inicio)}-${fecha} ${formatTime(finBloque)}`. */
  function GenKey(fecha: string, s: int, e: int): string {
    Stamped(fecha, Stamp(s)) + "-" + Stamped(fecha, Stamp(e))
  }

  /** The block from minute `s` to minute `e`, as generation builds it: times cut to
      "HH:MM", selected when stored, never occupied. */
  function BlockAt(fecha: string, s: int, e: int, existentes: set<string>): Bloque {
    Bloque(fecha, Prefix(Stamp(s), 5), Prefix(Stamp(e), 5), GenKey(fecha, s, e) in existentes, false)
  }

  /** The start minutes of the loop of `generarBloquesDia`: from `inicio`, one block of
      `duracion` minutes after another, while the next one still ends by `fin`. */
  function Starts(inicio: int, fin: int, duracion: int): seq<int>
    requires duracion > 0
    decreases fin - inicio
  {
    if inicio < fin && inicio + duracion <= fin then [inicio] + Starts(inicio + duracion, fin, duracion)
    else []
  }

  /** `generarBloquesDia`: one block per start minute of the loop. The only caller passes
      a duration of 60; with a duration that is not positive the source's loop never ends. */
  function GenerarBloquesDia(fecha: string, inicio: int, fin: int, duracion: int, existentes: set<string>): (r: seq<Bloque>)
    requires duracion > 0
    ensures |r| == |Starts(inicio, fin, duracion)|
    ensures forall i :: 0 <= i < |r| ==> r[i].fecha == fecha && !r[i].ocupado
  {
    var st := Starts(inicio, fin, duracion);
    seq(|st|, i requires 0 <= i < |st| => BlockAt(fecha, st[i], st[i] + duracion, existentes))
  }

  /** Block `i` starts at minute `inicio + i * duracion` (so each block starts where the
      previous one ended); the last block ends by `fin`, and what is left after it is
      shorter than one block. */
  lemma {:induction false} StartsShape(inicio: int, fin: int, duracion: int)
    requires duracion > 0
    ensures forall i :: 0 <= i < |Starts(inicio, fin, duracion)| ==> Starts(inicio, fin, duracion)[i] == inicio + i * duracion
    ensures |Starts(inicio, fin, duracion)| > 0 ==> inicio + |Starts(inicio, fin, duracion)| * duracion <= fin
    ensures fin - inicio - |Starts(inicio, fin, duracion)| * duracion < duracion
    decreases fin - inicio
  {
    var r := Starts(inicio, fin, duracion);
    if inicio < fin && inicio + duracion <= fin {
      var next := inicio + duracion;
      var rest := Starts(next, fin, duracion);
      StartsShape(next, fin, duracion);
      assert r == [inicio] + rest;
      forall i | 0 <= i < |r|
        ensures r[i] == inicio + i * duracion
      {
        if i > 0 {
          assert r[i] == rest[i - 1];
          MulSucc(i - 1, duracion);
        }
      }
      MulSucc(|rest|, duracion);
    }
  }

  /** Every start lies in the window together with its whole block. */
  lemma {:induction false} StartsInWindow(inicio: int, fin: int, duracion: int)
    requires duracion > 0
    ensures forall i :: 0 <= i < |Starts(inicio, fin, duracion)| ==>
              inicio <= Starts(inicio, fin, duracion)[i] && Starts(inicio, fin, duracion)[i] + duracion <= fin
    decreases fin - inicio
  {
    if inicio < fin && inicio + duracion <= fin {
      StartsInWindow(inicio + duracion, fin, duracion);
      assert forall i :: 1 <= i < |Starts(inicio, fin, duracion)| ==>
               Starts(inicio, fin, duracion)[i] == Starts(inicio + duracion, fin, duracion)[i - 1];
    }
  }

  /** Block `i` of a day is the block from its start minute to the next start, selected
      exactly when its key is stored; it lies in the window. */
  lemma BlockOfDay(fecha: string, inicio: int, fin: int, duracion: int, existentes: set<string>, i: int)
    requires duracion > 0 && 0 <= i < |GenerarBloquesDia(fecha, inicio, fin, duracion, existentes)|
    ensures GenerarBloquesDia(fecha, inicio, fin, duracion, existentes)[i] ==
              BlockAt(fecha, Starts(inicio, fin, duracion)[i], Starts(inicio, fin, duracion)[i] + duracion, existentes)
    ensures inicio <= Starts(inicio, fin, duracion)[i] && Starts(inicio, fin, duracion)[i] + duracion <= fin
  {
    StartsInWindow(inicio, fin, duracion);
  }

  lemma MulSucc(n: int, d: int)
    ensures (n + 1) * d == n * d + d
  {
  }

  /** The first five characters of a stamp below 100 hours are the "HH:MM" rendering. */
  lemma StampCut(t: nat)
    requires t < 6000
    ensures Prefix(Stamp(t), 5) == FormatTime(t)
  {
    FormatTimeWidth(t);
  }

  /** Within a day (any window below 100 hours), block `i` reads as starting at minute
      `inicio + i * duracion` and lasts exactly `duracion` minutes; each block starts where
      the previous one ended. */
  lemma GeneratedTimes(fecha: string, inicio: nat, fin: int, duracion: int, existentes: set<string>, i: nat)
    requires duracion > 0 && fin < 6000
    requires i < |GenerarBloquesDia(fecha, inicio, fin, duracion, existentes)|
    ensures ParseTime(GenerarBloquesDia(fecha, inicio, fin, duracion, existentes)[i].horaInicio) == Some(inicio + i * duracion)
    ensures ParseTime(GenerarBloquesDia(fecha, inicio, fin, duracion, existentes)[i].horaFin) == Some(inicio + i * duracion + duracion)
    ensures i + 1 < |GenerarBloquesDia(fecha, inicio, fin, duracion, existentes)| ==>
              GenerarBloquesDia(fecha, inicio, fin, duracion, existentes)[i + 1].horaInicio ==
              GenerarBloquesDia(fecha, inicio, fin, duracion, existentes)[i].horaFin
  {
    var r := GenerarBloquesDia(fecha, inicio, fin, duracion, existentes);
    var st := Starts(inicio, fin, duracion);
    assert st[i] == inicio + i * duracion by {
      StartsShape(inicio, fin, duracion);
    }
    BlockOfDay(fecha, inicio, fin, duracion, existentes, i);
    var s: nat := st[i];
    BlockRead(r[i], fecha, s, s + duracion, existentes);
    if i + 1 < |r| {
      NextBlockFollows(fecha, inicio, fin, duracion, existentes, i);
    }
  }

  /** The block after block `i` starts at the minute block `i` ends. */
  lemma NextBlockFollows(fecha: string, inicio: int, fin: int, duracion: int, existentes: set<string>, i: nat)
    requires duracion > 0 && i + 1 < |GenerarBloquesDia(fecha, inicio, fin, duracion, existentes)|
    ensures GenerarBloquesDia(fecha, inicio, fin, duracion, existentes)[i + 1].horaInicio ==
            GenerarBloquesDia(fecha, inicio, fin, duracion, existentes)[i].horaFin
  {
    BlockOfDay(fecha, inicio, fin, duracion, existentes, i);
    BlockOfDay(fecha, inicio, fin, duracion, existentes, i + 1);
    StartsStep(inicio, fin, duracion, i);
  }

  /** Consecutive starts are one block apart. */
  lemma {:induction false} StartsStep(inicio: int, fin: int, duracion: int, i: nat)
    requires duracion > 0 && i + 1 < |Starts(inicio, fin, duracion)|
    ensures Starts(inicio, fin, duracion)[i + 1] == Starts(inicio, fin, duracion)[i] + duracion
    decreases i
  {
    var rest := Starts(inicio + duracion, fin, duracion);
    assert Starts(inicio, fin, duracion) == [inicio] + rest;
    if i > 0 {
      StartsStep(inicio + duracion, fin, duracion, i - 1);
    } else {
      assert rest[0] == inicio + duracion;
    }
  }

  lemma BlockRead(b: Bloque, fecha: string, s: nat, e: nat, existentes: set<string>)
    requires s < 6000 && e < 6000 && b == BlockAt(fecha, s, e, existentes)
    ensures ParseTime(b.horaInicio) == Some(s) && ParseTime(b.horaFin) == Some(e)
  {
    BlockTimes(fecha, s, e, existentes);
  }

  /** A generated block below 100 hours reads back as its two minute counts. */
  lemma BlockTimes(fecha: string, s: nat, e: nat, existentes: set<string>)
    requires s < 6000 && e < 6000
    ensures ParseTime(BlockAt(fecha, s, e, existentes).horaInicio) == Some(s)
    ensures ParseTime(BlockAt(fecha, s, e, existentes).horaFin) == Some(e)
  {
    StampCut(s);
    StampCut(e);
    ReadBack(s);
    ReadBack(e);
  }

  /* ---------- occupied blocks ---------- */

  /** A booking of the trainer, as the two lists of the server deliver it; a missing field
      is the empty string. */
  datatype Reserva = Reserva(fecha: string, horaInicio: string, estado: string, estadoGrupo: string)

  /** `reserva.estado || reserva.estado_grupo`. */
  function Status(r: Reserva): string {
    if r.estado != "" then r.estado else r.estadoGrupo
  }

  /** The booking fills the block `b` of day `fecha`: it has a date and a start time, it is
      not cancelled, its date is the day and its start cut to "HH:MM" is the block's. */
  predicate Fills(r: Reserva, fecha: string, b: Bloque) {
    && r.fecha != "" && r.horaInicio != ""
    && Status(r) != "cancelado"
    && r.fecha == fecha && Prefix(r.horaInicio, 5) == b.horaInicio
  }

  /** `reservas.some(...)`. */
  function AnyFills(reservas: seq<Reserva>, fecha: string, b: Bloque): (r: bool)
    ensures r <==> exists k :: 0 <= k < |reservas| && Fills(reservas[k], fecha, b)
    decreases |reservas|
  {
    if reservas == [] then false
    else Fills(reservas[0], fecha, b) || AnyFills(reservas[1..], fecha, b)
  }

  /** The blocks of day `fecha` after the bookings are loaded: a block some booking fills
      becomes occupied; nothing else changes. */
  function MarcarOcupados(bloques: seq<Bloque>, fecha: string, reservas: seq<Reserva>): (r: seq<Bloque>)
    ensures |r| == |bloques|
    ensures forall i :: 0 <= i < |r| ==>
              (r[i].ocupado <==> bloques[i].ocupado || exists k :: 0 <= k < |reservas| && Fills(reservas[k], fecha, bloques[i]))
    ensures forall i :: 0 <= i < |r| ==> r[i].(ocupado := bloques[i].ocupado) == bloques[i]
  {
    seq(|bloques|, i requires 0 <= i < |bloques| =>
      if AnyFills(reservas, fecha, bloques[i]) then bloques[i].(ocupado := true) else bloques[i])
  }

  /** `cargarReservasExistentes`: every day of the grid is marked against the traditional
      bookings followed by the group packs. */
  function CargarReservas(porDia: map<string, seq<Bloque>>, tradicionales: seq<Reserva>, grupales: seq<Reserva>): (m: map<string, seq<Bloque>>)
    ensures m.Keys == porDia.Keys
    ensures forall f :: f in m ==> m[f] == MarcarOcupados(porDia[f], f, tradicionales + grupales)
  {
    map f | f in porDia :: MarcarOcupados(porDia[f], f, tradicionales + grupales)
  }

  /** A freshly generated block (below 100 hours) is occupied after loading exactly when a
      booking that is not cancelled starts, on that day, at the block's "HH:MM". */
  lemma OccupiedIff(fecha: string, s: nat, e: nat, existentes: set<string>, reservas: seq<Reserva>)
    requires s < 6000
    ensures MarcarOcupados([BlockAt(fecha, s, e, existentes)], fecha, reservas)[0].ocupado <==>
              exists k :: 0 <= k < |reservas| &&
                reservas[k].fecha == fecha && fecha != "" && Status(reservas[k]) != "cancelado" &&
                reservas[k].horaInicio != "" && Prefix(reservas[k].horaInicio, 5) == FormatTime(s)
  {
    StampCut(s);
  }

  /* ---------- selecting ---------- */

  /** `toggleBloque`: a free block flips its selection; an occupied one is left alone. */
  function ToggleBloque(b: Bloque): (r: Bloque)
    ensures r.ocupado == b.ocupado && r.fecha == b.fecha
    ensures r.horaInicio == b.horaInicio && r.horaFin == b.horaFin
    ensures b.ocupado ==> r == b
    ensures !b.ocupado ==> r.seleccionado != b.seleccionado
  {
    if b.ocupado then b else b.(seleccionado := !b.seleccionado)
  }

  /** Toggling twice gives the block back. */
  lemma ToggleTwice(b: Bloque)
    ensures ToggleBloque(ToggleBloque(b)) == b
  {
  }

  /** Every free block of a day set to `v`; occupied blocks keep their selection. */
  function SetFree(bloques: seq<Bloque>, v: bool): (r: seq<Bloque>)
    ensures |r| == |bloques|
    ensures forall i :: 0 <= i < |r| ==> r[i].ocupado == bloques[i].ocupado
    ensures forall i :: 0 <= i < |r| ==> bloques[i].ocupado ==> r[i] == bloques[i]
    ensures forall i :: 0 <= i < |r| ==> !bloques[i].ocupado ==> r[i] == bloques[i].(seleccionado := v)
  {
    seq(|bloques|, i requires 0 <= i < |bloques| => if bloques[i].ocupado then bloques[i] else bloques[i].(seleccionado := v))
  }

  /** `seleccionarTodos` (`v` true) and `deseleccionarTodos` (`v` false) on the selected
      day. With no entry for that day the source throws (`forEach` of `undefined`) before
      changing anything: `None`. */
  function SetDay(porDia: map<string, seq<Bloque>>, dia: string, v: bool): (m: Option<map<string, seq<Bloque>>>)
    ensures m.None? <==> dia !in porDia
    ensures m.Some? ==> && m.value.Keys == porDia.Keys
                        && (forall f :: f in m.value && f != dia ==> m.value[f] == porDia[f])
                        && m.value[dia] == SetFree(porDia[dia], v)
  {
    if dia in porDia then Some(porDia[dia := SetFree(porDia[dia], v)]) else None
  }

  /** `every(b => b.seleccionado || b.ocupado)`. */
  function EveryChosen(bloques: seq<Bloque>): (r: bool)
    ensures r <==> forall i :: 0 <= i < |bloques| ==> bloques[i].seleccionado || bloques[i].ocupado
    decreases |bloques|
  {
    bloques == [] || ((bloques[0].seleccionado || bloques[0].ocupado) && EveryChosen(bloques[1..]))
  }

  /** `todosSeleccionados`: false when the day has no entry; otherwise every block is
      selected or occupied (an empty day counts as all selected). */
  function TodosSeleccionados(porDia: map<string, seq<Bloque>>, dia: string): (r: bool)
    ensures r <==> dia in porDia && forall i :: 0 <= i < |porDia[dia]| ==> porDia[dia][i].seleccionado || porDia[dia][i].ocupado
  {
    dia in porDia && EveryChosen(porDia[dia])
  }

  /** After "select all" the day is all selected; after "deselect all" it is all selected
      only if every block is occupied. */
  lemma SelectAllThenAllSelected(porDia: map<string, seq<Bloque>>, dia: string)
    ensures SetDay(porDia, dia, true).Some? ==> TodosSeleccionados(SetDay(porDia, dia, true).value, dia)
    ensures SetDay(porDia, dia, false).Some? ==>
              (TodosSeleccionados(SetDay(porDia, dia, false).value, dia) <==>
                 forall i :: 0 <= i < |porDia[dia]| ==> porDia[dia][i].ocupado)
  {
  }

  /* ---------- saving ---------- */

  /** One availability record sent to the server. */
  datatype Slot = Slot(profesorId: int, fechaInicio: string, fechaFin: string, clubId: int)

  /** The start and end of a block as stored: its "HH:MM" followed by ":00". */
  function Inicio(b: Bloque): string { Stamped(b.fecha, b.horaInicio + ":00") }
  function Fin(b: Bloque): string { Stamped(b.fecha, b.horaFin + ":00") }

  /** The key saving looks a block up by. */
  function SaveKey(b: Bloque): string { Inicio(b) + "-" + Fin(b) }

  /** The key of a stored record (`${fecha_inicio}-${fecha_fin}`). */
  function SlotKey(x: Slot): string { x.fechaInicio + "-" + x.fechaFin }

  function SlotOf(b: Bloque, profesorId: int, clubId: int): (x: Slot)
    ensures SlotKey(x) == SaveKey(b)
  {
    Slot(profesorId, Inicio(b), Fin(b), clubId)
  }

  /** The block is a change of kind `crear` (`wanted` true: selected, not stored) or of
      kind `eliminar` (`wanted` false: not selected, stored). */
  predicate Changed(b: Bloque, existentes: set<string>, wanted: bool) {
    b.seleccionado == wanted && (SaveKey(b) in existentes) != wanted
  }

  /** The records of the changed blocks of one kind, in block order. */
  function Changes(bloques: seq<Bloque>, existentes: set<string>, wanted: bool, profesorId: int, clubId: int): (r: seq<Slot>)
    ensures |r| <= |bloques|
    ensures forall x :: x in r ==> (SlotKey(x) in existentes) != wanted
    ensures forall x :: x in r <==>
              exists i :: 0 <= i < |bloques| && Changed(bloques[i], existentes, wanted) &&
                x == SlotOf(bloques[i], profesorId, clubId)
    decreases |bloques|
  {
    if bloques == [] then []
    else
      var rest := Changes(bloques[1..], existentes, wanted, profesorId, clubId);
      if Changed(bloques[0], existentes, wanted) then [SlotOf(bloques[0], profesorId, clubId)] + rest
      else rest
  }

  /** What saving does: nothing to save, or one sync call with both lists. */
  datatype SaveOutcome = NoChanges | Sync(crear: seq<Slot>, eliminar: seq<Slot>)

  /** `guardarDisponibilidad`. `bloques` is every block of every day, the days' lists
      concatenated as `Object.values(bloquesPorDia)` gives them; the map of days does not
      record that order, so the caller passes the flat list (see `SavingDayByDay`). */
  function Guardar(bloques: seq<Bloque>, existentes: set<string>, profesorId: int, clubId: int): (o: SaveOutcome)
    ensures o.Sync? ==> o.crear == Changes(bloques, existentes, true, profesorId, clubId)
    ensures o.Sync? ==> o.eliminar == Changes(bloques, existentes, false, profesorId, clubId)
    ensures o.Sync? ==> o.crear != [] || o.eliminar != []
    ensures o.Sync? ==> forall x, y :: x in o.crear && y in o.eliminar ==> x != y
    ensures o == NoChanges <==>
              forall i :: 0 <= i < |bloques| ==> (bloques[i].seleccionado <==> SaveKey(bloques[i]) in existentes)
  {
    var crear := Changes(bloques, existentes, true, profesorId, clubId);
    var eliminar := Changes(bloques, existentes, false, profesorId, clubId);
    if crear == [] && eliminar == [] then
      assert forall i :: 0 <= i < |bloques| ==> !Changed(bloques[i], existentes, true) && !Changed(bloques[i], existentes, false) by {
        forall i | 0 <= i < |bloques| ensures !Changed(bloques[i], existentes, true) && !Changed(bloques[i], existentes, false) {
          assert SlotOf(bloques[i], profesorId, clubId) !in crear + eliminar;
        }
      }
      NoChanges
    else
      if crear != [] then
        assert crear[0] in crear;
        Sync(crear, eliminar)
      else
        assert eliminar[0] in eliminar;
        Sync(crear, eliminar)
  }

  /** Saving all days at once lists, for each kind, the changes of the first days followed by
      those of the later ones. */
  lemma {:induction false} SavingDayByDay(a: seq<Bloque>, b: seq<Bloque>, existentes: set<string>, wanted: bool, profesorId: int, clubId: int)
    ensures Changes(a + b, existentes, wanted, profesorId, clubId) ==
              Changes(a, existentes, wanted, profesorId, clubId) + Changes(b, existentes, wanted, profesorId, clubId)
    decreases |a|
  {
    if a == [] {
      assert a + b == b;
    } else {
      assert (a + b)[0] == a[0];
      assert (a + b)[1..] == a[1..] + b;
      SavingDayByDay(a[1..], b, existentes, wanted, profesorId, clubId);
    }
  }

  /** The key saving computes for a generated block is the key generation looked it up by. */
  lemma GeneratedKey(fecha: string, s: nat, e: nat, existentes: set<string>)
    requires s < 6000 && e < 6000
    ensures SaveKey(BlockAt(fecha, s, e, existentes)) == GenKey(fecha, s, e)
  {
    StampCut(s);
    StampCut(e);
  }

  /** A day generated from the stored availability and saved without any change (the
      occupancy marks do not matter) sends nothing. */
  lemma UntouchedDayHasNoChanges(fecha: string, inicio: nat, fin: int, duracion: int, existentes: set<string>, profesorId: int, clubId: int)
    requires duracion > 0 && fin < 6000
    ensures Guardar(GenerarBloquesDia(fecha, inicio, fin, duracion, existentes), existentes, profesorId, clubId) == NoChanges
  {
    var r := GenerarBloquesDia(fecha, inicio, fin, duracion, existentes);
    var st := Starts(inicio, fin, duracion);
    forall i | 0 <= i < |r| ensures r[i].seleccionado <==> SaveKey(r[i]) in existentes {
      BlockOfDay(fecha, inicio, fin, duracion, existentes, i);
      GeneratedKey(fecha, st[i], st[i] + duracion, existentes);
    }
  }

  /** Toggling one free block of an untouched day makes that block the only change. */
  lemma OneToggleOneChange(bloques: seq<Bloque>, existentes: set<string>, j: nat, profesorId: int, clubId: int)
    requires j < |bloques| && !bloques[j].ocupado
    requires forall i :: 0 <= i < |bloques| ==> (bloques[i].seleccionado <==> SaveKey(bloques[i]) in existentes)
    ensures Guardar(bloques[j := ToggleBloque(bloques[j])], existentes, profesorId, clubId) ==
              if bloques[j].seleccionado then Sync([], [SlotOf(bloques[j], profesorId, clubId)])
              else Sync([SlotOf(bloques[j], profesorId, clubId)], [])
  {
    var t := bloques[j := ToggleBloque(bloques[j])];
    OnlyChange(t, existentes, j, true, profesorId, clubId);
    OnlyChange(t, existentes, j, false, profesorId, clubId);
  }

  lemma {:induction false} OnlyChange(bloques: seq<Bloque>, existentes: set<string>, j: int, wanted: bool, profesorId: int, clubId: int)
    requires forall i :: 0 <= i < |bloques| && i != j ==> !Changed(bloques[i], existentes, wanted)
    ensures Changes(bloques, existentes, wanted, profesorId, clubId) ==
              if 0 <= j < |bloques| && Changed(bloques[j], existentes, wanted) then [SlotOf(bloques[j], profesorId, clubId)] else []
    decreases |bloques|
  {
    if bloques != [] {
      OnlyChange(bloques[1..], existentes, j - 1, wanted, profesorId, clubId);
    }
  }
}
