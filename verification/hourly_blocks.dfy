/** The bookable hours of a trainer, shown to a player booking a class and to the trainer
    booking a student (both pages share `generarBloquesHorarios`): every stored availability
    window is walked hour by hour, hours in the past or running past the window's end are
    skipped, an hour already shown under the same key is shown once, and the hours are
    grouped by day, the days sorted.

    Instants are absolute minute counts. The date an instant is filed under
    (`toISOString().split('T')[0]`) is an input function `dateOf`, and its time of day
    (`toTimeString().slice(0, 5)`) is the minute of the day rendered as "HH:MM". */
module HourlyBlocks {
  import opened Wrappers
  import opened Clock
  import Lists
  import Sorting

  const Hour: int := 60
  const Day: int := 1440

  /** An availability window as the server sends it: two instants and whether it is booked. */
  datatype Disponibilidad = Disponibilidad(inicio: int, fin: int, ocupado: bool)

  /** One bookable hour. */
  datatype Horario = Horario(fecha: string, inicio: int, fin: int, ocupado: bool)

  /** The state the walk builds: the hours of each day, the days in order of first
      appearance, and the keys already shown. */
  datatype Grid = Grid(porDia: map<string, seq<Horario>>, dias: seq<string>, seen: set<string>)

  /** `toTimeString().slice(0, 5)` of an instant. */
  function HoraDe(t: int): string {
    FormatTime(t % Day)
  }

  /** `${fecha} ${horaInicio}-${horaFin}`. */
  function KeyOf(h: Horario): string {
    h.fecha + " " + HoraDe(h.inicio) + "-" + HoraDe(h.fin)
  }

  /** Showing one hour (`key` is `KeyOf`): skipped when its key was shown already; otherwise its day is
      created (and listed) if new and the hour is appended to it. */
  function Add(g: Grid, h: Horario, key: Horario -> string): Grid {
    if key(h) in g.seen then g
    else if h.fecha in g.porDia then
      Grid(g.porDia[h.fecha := g.porDia[h.fecha] + [h]], g.dias, g.seen + {key(h)})
    else
      Grid(g.porDia[h.fecha := [h]], g.dias + [h.fecha], g.seen + {key(h)})
  }

  /** The `while (inicio < fin)` loop over one window from instant `t`: an hour is shown
      when it starts after `ahora` and ends by the window's end; the walk then moves one
      hour on. */
  function Walk(w: Disponibilidad, t: int, ahora: int, dateOf: int -> string, key: Horario -> string, g: Grid): Grid
    decreases w.fin - t
  {
    if t < w.fin then
      var g' := if t > ahora && t + Hour <= w.fin then Add(g, Horario(dateOf(t), t, t + Hour, w.ocupado), key) else g;
      Walk(w, t + Hour, ahora, dateOf, key, g')
    else g
  }

  /** `disponibilidades.forEach(...)`. */
  function WalkAll(ws: seq<Disponibilidad>, ahora: int, dateOf: int -> string, key: Horario -> string, g: Grid): Grid
    decreases |ws|
  {
    if ws == [] then g else WalkAll(ws[1..], ahora, dateOf, key, Walk(ws[0], ws[0].inicio, ahora, dateOf, key, g))
  }

  /** The page state the generation leaves behind. */
  datatype Page = Page(porDia: map<string, seq<Horario>>, dias: seq<string>, diaSeleccionado: string)

  const Empty: Grid := Grid(map[], [], {})

  /** `generarBloquesHorarios`: a `null` answer leaves an empty grid (the selected day is
      kept); otherwise the walk over all windows, the days sorted and the first one
      selected. */
  function Generar(disponibilidades: Option<seq<Disponibilidad>>, ahora: int, dateOf: int -> string, diaSeleccionado: string): (p: Page)
    ensures disponibilidades.None? ==> p == Page(map[], [], diaSeleccionado)
    ensures forall i, j :: 0 <= i < j < |p.dias| ==> Text.LexLe(p.dias[i], p.dias[j])
    ensures |p.dias| > 0 ==> p.diaSeleccionado == p.dias[0]
    ensures p.dias == [] ==> p.diaSeleccionado == diaSeleccionado
  {
    match disponibilidades
    case None => Page(map[], [], diaSeleccionado)
    case Some(ws) =>
      var g := WalkAll(ws, ahora, dateOf, KeyOf, Empty);
      var dias := Sorting.SortByStr(g.dias, (d: string) => d);
      Page(g.porDia, dias, if |dias| > 0 then dias[0] else diaSeleccionado)
  }

  /* ---------- what the grid holds ---------- */

  /** An hour the walk may show: one hour long, after `ahora`, on the hour grid of a window
      it lies in, carrying that window's booked flag. */
  ghost predicate Emittable(h: Horario, ahora: int, ws: seq<Disponibilidad>) {
    && h.fin == h.inicio + Hour && h.inicio > ahora
    && exists k :: 0 <= k < |ws| && InWindow(h, ws[k])
  }

  predicate InWindow(h: Horario, w: Disponibilidad) {
    w.inicio <= h.inicio && h.fin <= w.fin && (h.inicio - w.inicio) % Hour == 0 && h.ocupado == w.ocupado
  }

  /** The invariant of the walk, for the key function `key`: the listed days are exactly
      the grid's days, none twice; every hour is filed under its own date, is one the walk
      may show and has its key recorded; no day shows a key twice; and every recorded key
      is shown. */
  ghost predicate Valid(g: Grid, ahora: int, ws: seq<Disponibilidad>, key: Horario -> string) {
    && (forall f :: f in g.porDia <==> f in g.dias)
    && Lists.NoDup(g.dias)
    && (forall f, i :: f in g.porDia && 0 <= i < |g.porDia[f]| ==>
          g.porDia[f][i].fecha == f && key(g.porDia[f][i]) in g.seen && Emittable(g.porDia[f][i], ahora, ws))
    && (forall f, i, j :: f in g.porDia && 0 <= i < j < |g.porDia[f]| ==>
          key(g.porDia[f][i]) != key(g.porDia[f][j]))
    && (forall k :: k in g.seen ==> Shown(g, k, key))
  }

  /** Some hour of the grid has key `k`. */
  ghost predicate Shown(g: Grid, k: string, key: Horario -> string) {
    exists f, i :: f in g.porDia && 0 <= i < |g.porDia[f]| && key(g.porDia[f][i]) == k
  }

  lemma AddValid(g: Grid, h: Horario, ahora: int, ws: seq<Disponibilidad>, key: Horario -> string)
    requires Valid(g, ahora, ws, key) && Emittable(h, ahora, ws)
    ensures Valid(Add(g, h, key), ahora, ws, key)
  {
    if key(h) !in g.seen {
      AddDays(g, h, ahora, ws, key);
      AddHours(g, h, ahora, ws, key);
      AddShown(g, h, ahora, ws, key);
    }
  }

  /** A new key leaves the listed days matching the grid's days, none twice. */
  lemma AddDays(g: Grid, h: Horario, ahora: int, ws: seq<Disponibilidad>, key: Horario -> string)
    requires Valid(g, ahora, ws, key) && key(h) !in g.seen
    ensures forall f :: f in Add(g, h, key).porDia <==> f in Add(g, h, key).dias
    ensures Lists.NoDup(Add(g, h, key).dias)
  {
    if h.fecha !in g.porDia {
      assert h.fecha !in g.dias;
    }
  }

  /** A new key keeps every hour filed, recorded and showable, and no key twice in a day. */
  lemma AddHours(g: Grid, h: Horario, ahora: int, ws: seq<Disponibilidad>, key: Horario -> string)
    requires Valid(g, ahora, ws, key) && key(h) !in g.seen && Emittable(h, ahora, ws)
    ensures var g' := Add(g, h, key);
      forall f, i :: f in g'.porDia && 0 <= i < |g'.porDia[f]| ==>
        g'.porDia[f][i].fecha == f && key(g'.porDia[f][i]) in g'.seen && Emittable(g'.porDia[f][i], ahora, ws)
    ensures var g' := Add(g, h, key);
      forall f, i, j :: f in g'.porDia && 0 <= i < j < |g'.porDia[f]| ==> key(g'.porDia[f][i]) != key(g'.porDia[f][j])
  {
    var f := h.fecha;
    var day := if f in g.porDia then g.porDia[f] else [];
    assert Add(g, h, key).porDia[f] == day + [h];
  }

  /** A new key keeps every recorded key shown. */
  lemma AddShown(g: Grid, h: Horario, ahora: int, ws: seq<Disponibilidad>, key: Horario -> string)
    requires Valid(g, ahora, ws, key) && key(h) !in g.seen
    ensures forall k :: k in Add(g, h, key).seen ==> Shown(Add(g, h, key), k, key)
  {
    var g' := Add(g, h, key);
    var f := h.fecha;
    var day := if f in g.porDia then g.porDia[f] else [];
    assert g'.porDia[f] == day + [h];
    forall k | k in g'.seen ensures Shown(g', k, key) {
      if k == key(h) {
        assert g'.porDia[f][|day|] == h;
      } else {
        var f0, i0 :| f0 in g.porDia && 0 <= i0 < |g.porDia[f0]| && key(g.porDia[f0][i0]) == k;
        assert g'.porDia[f0][i0] == g.porDia[f0][i0];
      }
    }
  }

  lemma {:induction false} WalkValid(w: Disponibilidad, t: int, ahora: int, dateOf: int -> string, key: Horario -> string, g: Grid, ws: seq<Disponibilidad>)
    requires w in ws && w.inicio <= t && (t - w.inicio) % Hour == 0
    requires Valid(g, ahora, ws, key)
    ensures Valid(Walk(w, t, ahora, dateOf, key, g), ahora, ws, key)
    decreases w.fin - t
  {
    if t < w.fin {
      var g' := g;
      if t > ahora && t + Hour <= w.fin {
        var h := Horario(dateOf(t), t, t + Hour, w.ocupado);
        assert InWindow(h, w);
        AddValid(g, h, ahora, ws, key);
        g' := Add(g, h, key);
      }
      WalkValid(w, t + Hour, ahora, dateOf, key, g', ws);
    }
  }

  lemma {:induction false} WalkAllValid(ws: seq<Disponibilidad>, ahora: int, dateOf: int -> string, key: Horario -> string, g: Grid, all: seq<Disponibilidad>)
    requires forall k :: 0 <= k < |ws| ==> ws[k] in all
    requires Valid(g, ahora, all, key)
    ensures Valid(WalkAll(ws, ahora, dateOf, key, g), ahora, all, key)
    decreases |ws|
  {
    if ws != [] {
      WalkValid(ws[0], ws[0].inicio, ahora, dateOf, key, g, all);
      WalkAllValid(ws[1..], ahora, dateOf, key, Walk(ws[0], ws[0].inicio, ahora, dateOf, key, g), all);
    }
  }

  /* ---------- every bookable hour is shown ---------- */

  /** The hour starting at instant `x` of window `w`. */
  function Candidate(w: Disponibilidad, x: int, dateOf: int -> string): Horario {
    Horario(dateOf(x), x, x + Hour, w.ocupado)
  }

  /** Walking from `t`, every later hour of the window's grid that starts after `ahora`
      and ends by the window's end gets its key recorded. */
  lemma {:induction false} WalkRecords(w: Disponibilidad, t: int, ahora: int, dateOf: int -> string, key: Horario -> string, g: Grid, x: int)
    requires t <= x && (x - t) % Hour == 0 && x > ahora && x + Hour <= w.fin
    ensures key(Candidate(w, x, dateOf)) in Walk(w, t, ahora, dateOf, key, g).seen
    decreases w.fin - t
  {
    var g' := if t > ahora && t + Hour <= w.fin then Add(g, Horario(dateOf(t), t, t + Hour, w.ocupado), key) else g;
    if x == t {
      WalkGrows(w, t + Hour, ahora, dateOf, key, g');
    } else {
      WalkRecords(w, t + Hour, ahora, dateOf, key, g', x);
    }
  }

  lemma {:induction false} WalkGrows(w: Disponibilidad, t: int, ahora: int, dateOf: int -> string, key: Horario -> string, g: Grid)
    ensures g.seen <= Walk(w, t, ahora, dateOf, key, g).seen
    decreases w.fin - t
  {
    if t < w.fin {
      var g' := if t > ahora && t + Hour <= w.fin then Add(g, Horario(dateOf(t), t, t + Hour, w.ocupado), key) else g;
      WalkGrows(w, t + Hour, ahora, dateOf, key, g');
    }
  }

  lemma {:induction false} WalkAllGrows(ws: seq<Disponibilidad>, ahora: int, dateOf: int -> string, key: Horario -> string, g: Grid)
    ensures g.seen <= WalkAll(ws, ahora, dateOf, key, g).seen
    decreases |ws|
  {
    if ws != [] {
      WalkGrows(ws[0], ws[0].inicio, ahora, dateOf, key, g);
      WalkAllGrows(ws[1..], ahora, dateOf, key, Walk(ws[0], ws[0].inicio, ahora, dateOf, key, g));
    }
  }

  lemma {:induction false} WalkAllRecords(ws: seq<Disponibilidad>, ahora: int, dateOf: int -> string, key: Horario -> string, g: Grid, k: int, x: int)
    requires 0 <= k < |ws| && ws[k].inicio <= x && (x - ws[k].inicio) % Hour == 0 && x > ahora && x + Hour <= ws[k].fin
    ensures key(Candidate(ws[k], x, dateOf)) in WalkAll(ws, ahora, dateOf, key, g).seen
    decreases |ws|
  {
    var g' := Walk(ws[0], ws[0].inicio, ahora, dateOf, key, g);
    if k == 0 {
      WalkRecords(ws[0], ws[0].inicio, ahora, dateOf, key, g, x);
      WalkAllGrows(ws[1..], ahora, dateOf, key, g');
    } else {
      WalkAllRecords(ws[1..], ahora, dateOf, key, g', k - 1, x);
    }
  }

  /* ---------- the page ---------- */

  /** The hour starting at instant `x` is a bookable hour of window `w`. */
  predicate Bookable(w: Disponibilidad, x: int, ahora: int) {
    w.inicio <= x && (x - w.inicio) % Hour == 0 && x > ahora && x + Hour <= w.fin
  }

  /** What the page shows after generation: the listed days are exactly the grid's days,
      none twice; every hour is filed under its date, is one hour long, starts after
      `ahora`, lies on the hour grid of a window and carries its booked flag; no day shows
      the same (date, start, end) key twice; and every bookable hour of every window is
      shown under its key. */
  lemma GenerarShows(ws: seq<Disponibilidad>, ahora: int, dateOf: int -> string, diaSeleccionado: string)
    ensures var p := Generar(Some(ws), ahora, dateOf, diaSeleccionado);
      && (forall f :: f in p.porDia <==> f in p.dias)
      && Lists.NoDup(p.dias)
      && (forall f, i :: f in p.porDia && 0 <= i < |p.porDia[f]| ==>
            && p.porDia[f][i].fecha == f
            && p.porDia[f][i].fin == p.porDia[f][i].inicio + Hour && p.porDia[f][i].inicio > ahora
            && exists k :: 0 <= k < |ws| && InWindow(p.porDia[f][i], ws[k]))
      && (forall f, i, j :: f in p.porDia && 0 <= i < j < |p.porDia[f]| ==>
            KeyOf(p.porDia[f][i]) != KeyOf(p.porDia[f][j]))
      && (forall k, x :: 0 <= k < |ws| && Bookable(ws[k], x, ahora) ==>
            exists f, i :: f in p.porDia && 0 <= i < |p.porDia[f]| && KeyOf(p.porDia[f][i]) == KeyOf(Candidate(ws[k], x, dateOf)))
  {
    var g := WalkAll(ws, ahora, dateOf, KeyOf, Empty);
    WalkAllValid(ws, ahora, dateOf, KeyOf, Empty, ws);
    var dias := Sorting.SortByStr(g.dias, (d: string) => d);
    Lists.NoDupPermutation(g.dias, dias);
    forall f ensures f in g.porDia <==> f in dias {
      assert f in dias <==> f in multiset(dias);
      assert f in g.dias <==> f in multiset(g.dias);
    }
    forall k, x | 0 <= k < |ws| && Bookable(ws[k], x, ahora)
      ensures Shown(g, KeyOf(Candidate(ws[k], x, dateOf)), KeyOf)
    {
      WalkAllRecords(ws, ahora, dateOf, KeyOf, Empty, k, x);
    }
  }
}
