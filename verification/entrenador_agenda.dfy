/** The trainer's ten-day agenda: the classes the server reports are normalised (photos of
    the enrolled players, occupied places, capacity, duration), weekly group packs become
    templates, and each day shows its dated classes plus the templates of its weekday whose
    start is not already taken, ordered by start time. */
module EntrenadorAgenda {
  import opened Wrappers
  import opened Text
  import Clock
  import Lists
  import Sorting
  import Uri

  /* ---------- photos of the enrolled players ---------- */

  const ApiHost: string := "https://api.padelmanager.cl/"
  const AvatarBase: string := "https://ui-avatars.com/api/?name="
  const AvatarColours: string := "&background=ccff00&color=000"
  const DefaultImage: string := "imagen_defecto"

  /** A stored photo worth showing: longer than five characters and not the default image. */
  predicate UsablePhoto(foto: Option<string>) {
    TruthyStr(foto) && |foto.value| > 5 && !Contains(foto.value, DefaultImage)
  }

  /** A generated avatar showing the player's name. */
  function Avatar(nombre: string): string {
    AvatarBase + Uri.Encode(nombre) + AvatarColours
  }

  /** The path of a stored photo without its leading '/'. */
  function CleanPath(foto: string): (r: string)
    ensures foto == r || foto == "/" + r
  {
    if StartsWith(foto, "/") then foto[1..] else foto
  }

  /** The photo shown for an enrolled player: a usable absolute link is kept, a usable
      relative path is served from the API host, anything else becomes the avatar. */
  function NormalizeFoto(foto: Option<string>, nombre: string): (r: string)
    ensures StartsWith(r, "http")
    ensures UsablePhoto(foto) && StartsWith(foto.value, "http") ==> r == foto.value
    ensures UsablePhoto(foto) && !StartsWith(foto.value, "http") ==>
              r == ApiHost + CleanPath(foto.value) && EndsWith(r, CleanPath(foto.value))
    ensures !UsablePhoto(foto) ==> r == Avatar(nombre)
  {
    if UsablePhoto(foto) then
      if StartsWith(foto.value, "http") then foto.value else ApiHost + CleanPath(foto.value)
    else Avatar(nombre)
  }

  /** Normalising a normalised photo changes nothing: every result is a usable absolute
      link or the very avatar it would be replaced by. */
  lemma NormalizeIdempotent(foto: Option<string>, nombre: string)
    ensures NormalizeFoto(Some(NormalizeFoto(foto, nombre)), nombre) == NormalizeFoto(foto, nombre)
  {
    if UsablePhoto(foto) && !StartsWith(foto.value, "http") {
      var c := CleanPath(foto.value);
      if Contains(c, DefaultImage) {
        var i :| 0 <= i <= |c| - |DefaultImage| && OccursAt(c, DefaultImage, i);
        if foto.value != c {
          assert foto.value[i + 1..i + 1 + |DefaultImage|] == c[i..i + |DefaultImage|];
          assert OccursAt(foto.value, DefaultImage, i + 1);
        }
      }
      HostAddsNoDefault(c);
    }
  }

  /** The default-image marker cannot appear across or inside the API host prefix. */
  lemma HostAddsNoDefault(c: string)
    requires !Contains(c, DefaultImage)
    ensures !Contains(ApiHost + c, DefaultImage)
  {
    assert ApiHost[|ApiHost| - 1] == '/' && DefaultImage[6] == '_';
    NoOccurrenceAcross(ApiHost, c, DefaultImage, '/', '_', 6);
  }

  /** A pattern that lacks the last character of `a` and has a character `a` lacks
      occurs in `a + c` only if it occurs in `c`. */
  lemma NoOccurrenceAcross(a: string, c: string, p: string, sep: char, mark: char, m: nat)
    requires |a| > 0 && a[|a| - 1] == sep && sep !in p
    requires m < |p| && p[m] == mark && mark !in a
    requires !Contains(c, p)
    ensures !Contains(a + c, p)
  {
    var s := a + c;
    forall i | 0 <= i <= |s| - |p| ensures !OccursAt(s, p, i) {
      if i >= |a| {
        assert s[i..i + |p|] == c[i - |a|..i - |a| + |p|];
        assert !OccursAt(c, p, i - |a|);
      } else if i + m < |a| {
        assert s[i..i + |p|][m] == a[i + m];
      } else {
        var k := |a| - 1 - i;
        assert 0 <= k < |p|;
        assert s[|a| - 1] == sep;
        assert s[i..i + |p|][k] == sep;
      }
    }
  }

  /** A player enrolled in a class. */
  datatype Inscrito = Inscrito(nombre: string, foto: Option<string>)

  /** `(r.inscritos || []).map(...)`: the same players, each with the photo to show. */
  function ProcessInscritos(ins: Option<seq<Inscrito>>): (r: seq<Inscrito>)
    ensures |r| == |ins.GetOr([])|
    ensures forall i :: 0 <= i < |r| ==>
              && r[i].nombre == ins.value[i].nombre
              && r[i].foto == Some(NormalizeFoto(ins.value[i].foto, ins.value[i].nombre))
              && StartsWith(r[i].foto.value, "http")
  {
    var xs := ins.GetOr([]);
    seq(|xs|, i requires 0 <= i < |xs| => xs[i].(foto := Some(NormalizeFoto(xs[i].foto, xs[i].nombre))))
  }

  /* ---------- normalising the classes ---------- */

  /** The taken places of a class: a field the answer leaves out (`undefined`), one it sends
      as `null`, or a count. */
  datatype Cupos = Undefined | NullCupos | Cupos(n: int)

  /** A class as the server sends it (dated reservation or weekly group pack). Missing
      numbers are `None`; `diaSemana` is `Number(dia_semana)`, `None` when that is `NaN`. */
  datatype Clase = Clase(
    id: Option<int>,
    packId: Option<int>,
    reservaId: Option<int>,
    tipo: string,
    fecha: Option<string>,
    diaSemana: Option<int>,
    horaInicio: Option<string>,
    horaFin: Option<string>,
    estado: Option<string>,
    estadoGrupo: Option<string>,
    status: Option<string>,
    inscritos: Option<seq<Inscrito>>,
    cuposOcupados: Cupos,
    capacidadMaxima: Option<int>,
    capacidad: Option<int>,
    duracionCalculada: Option<int>,
    duracionOriginal: Option<int>,
    duracionDinamica: Option<int>)

  const Template: string := "grupal_template"

  /** The class types that hold a group. */
  predicate IsGrupal(tipo: string) {
    tipo == "grupal" || tipo == "pack_grupal" || tipo == Template
  }

  /** `a || d` for a number that may be missing, 0 or `NaN`. */
  function OrElse(a: Option<int>, d: int): (r: int)
    ensures TruthyInt(a) ==> r == a.value
    ensures !TruthyInt(a) ==> r == d
  {
    if TruthyInt(a) then a.value else d
  }

  /** `calculateDuration`: 0 when either time is missing or empty, otherwise the end's
      minutes minus the start's, `NaN` (`None`) when either does not read as "H:M". */
  function CalculateDuration(start: Option<string>, end: Option<string>): (d: Option<int>)
    ensures !TruthyStr(start) || !TruthyStr(end) ==> d == Some(0)
    ensures TruthyStr(start) && TruthyStr(end) ==>
              (d.Some? <==> Clock.ParseTime(start.value).Some? && Clock.ParseTime(end.value).Some?)
  {
    if !TruthyStr(start) || !TruthyStr(end) then Some(0)
    else
      match (Clock.ParseTime(start.value), Clock.ParseTime(end.value))
      case (Some(s), Some(e)) => Some(e - s)
      case _ => None
  }

  /** The duration of two rendered times is their difference in minutes. */
  lemma DurationOfRendered(s: nat, e: nat, sfx1: string, sfx2: string)
    requires sfx1 == "" || sfx1[0] == ':'
    requires sfx2 == "" || sfx2[0] == ':'
    ensures CalculateDuration(Some(Clock.FormatTime(s) + sfx1), Some(Clock.FormatTime(e) + sfx2)) == Some(e - s)
  {
    Clock.ParseFormatTime(s, sfx1);
    Clock.ParseFormatTime(e, sfx2);
    DurationOfReadable(Clock.FormatTime(s) + sfx1, Clock.FormatTime(e) + sfx2, s, e);
  }

  /** Two times that read as minute counts last their difference. */
  lemma DurationOfReadable(a: string, b: string, s: int, e: int)
    requires Clock.ParseTime(a) == Some(s) && Clock.ParseTime(b) == Some(e)
    ensures CalculateDuration(Some(a), Some(b)) == Some(e - s)
  {
    assert Clock.ParseTime("") == None;
  }

  /** A dated reservation as the agenda keeps it. */
  function MapReserva(r: Clase): (m: Clase)
    ensures m.fecha == r.fecha && m.tipo == r.tipo && m.diaSemana == r.diaSemana && m.horaInicio == r.horaInicio
    ensures m.inscritos == Some(ProcessInscritos(r.inscritos))
    ensures r.cuposOcupados != Undefined ==> m.cuposOcupados == r.cuposOcupados
    ensures r.cuposOcupados == Undefined ==> m.cuposOcupados == Cupos(if IsGrupal(r.tipo) then |m.inscritos.value| else 1)
    ensures m.capacidadMaxima == Some(OrElse(r.capacidadMaxima, OrElse(r.capacidad, 4))) && TruthyInt(m.capacidadMaxima)
    ensures TruthyInt(m.duracionCalculada)
    ensures TruthyInt(r.duracionCalculada) ==> m.duracionCalculada == r.duracionCalculada
    ensures !TruthyInt(r.duracionCalculada) && TruthyInt(CalculateDuration(r.horaInicio, r.horaFin)) ==>
              m.duracionCalculada == CalculateDuration(r.horaInicio, r.horaFin)
  {
    var ins := ProcessInscritos(r.inscritos);
    var dur := CalculateDuration(r.horaInicio, r.horaFin);
    r.(inscritos := Some(ins),
       cuposOcupados := if r.cuposOcupados != Undefined then r.cuposOcupados else Cupos(if IsGrupal(r.tipo) then |ins| else 1),
       capacidadMaxima := Some(OrElse(r.capacidadMaxima, OrElse(r.capacidad, 4))),
       duracionCalculada := Some(OrElse(r.duracionCalculada, OrElse(dur, OrElse(r.duracionOriginal, 60)))))
  }

  /** A weekly group pack as the agenda keeps it: an undated template, in the state of its
      group, whose reservation id is the pack's id (or, failing that, its pack id), and
      whose duration is taken from its times first. */
  function MapPack(p: Clase): (m: Clase)
    ensures m.fecha == None && m.tipo == Template
    ensures m.estado == p.estadoGrupo && m.estadoGrupo == p.estadoGrupo
    ensures m.reservaId == OrInt(p.id, p.packId)
    ensures m.diaSemana == p.diaSemana && m.horaInicio == p.horaInicio
    ensures m.cuposOcupados == p.cuposOcupados && m.capacidadMaxima == p.capacidadMaxima
    ensures m.inscritos == Some(ProcessInscritos(p.inscritos))
    ensures TruthyInt(m.duracionCalculada)
    ensures TruthyInt(CalculateDuration(p.horaInicio, p.horaFin)) ==>
              m.duracionCalculada == CalculateDuration(p.horaInicio, p.horaFin)
  {
    var dur := CalculateDuration(p.horaInicio, p.horaFin);
    p.(reservaId := OrInt(p.id, p.packId),
       fecha := None,
       tipo := Template,
       estado := p.estadoGrupo,
       inscritos := Some(ProcessInscritos(p.inscritos)),
       duracionCalculada := Some(OrElse(dur, OrElse(p.duracionCalculada, OrElse(p.duracionDinamica, 60)))))
  }

  /** Every class of the answer, dated reservations first: a field that is not a list
      (`None`) contributes nothing. */
  function Todas(tradicionales: Option<seq<Clase>>, packs: Option<seq<Clase>>): (r: seq<Clase>)
    ensures |r| == |tradicionales.GetOr([])| + |packs.GetOr([])|
    ensures forall i :: 0 <= i < |tradicionales.GetOr([])| ==> r[i] == MapReserva(tradicionales.value[i])
    ensures forall j :: 0 <= j < |packs.GetOr([])| ==> r[|tradicionales.GetOr([])| + j] == MapPack(packs.value[j])
  {
    var t := tradicionales.GetOr([]);
    var p := packs.GetOr([]);
    seq(|t|, i requires 0 <= i < |t| => MapReserva(t[i])) + seq(|p|, j requires 0 <= j < |p| => MapPack(p[j]))
  }

  /** `getEstadoText`: a group shows its group state, anything else its status, then its
      state; 'activo' when there is none. */
  function EstadoText(c: Clase): (r: string)
    ensures r != ""
    ensures IsGrupal(c.tipo) ==> r == OrStr(c.estadoGrupo, Some("activo")).value
    ensures !IsGrupal(c.tipo) ==> r == OrStr(c.status, OrStr(c.estado, Some("activo"))).value
  {
    if IsGrupal(c.tipo) then OrStr(c.estadoGrupo, Some("activo")).value
    else OrStr(c.status, OrStr(c.estado, Some("activo"))).value
  }

  /** A pack's status text is its group's state, whatever status the pack carries. */
  lemma PackShowsGroupState(p: Clase)
    ensures EstadoText(MapPack(p)) == (if TruthyStr(p.estadoGrupo) then p.estadoGrupo.value else "activo")
  {
  }

  /* ---------- the days ---------- */

  /** One day of the agenda: its label, its date, its JavaScript weekday (0 = Sunday) and
      its classes. */
  datatype Dia = Dia(nombre: string, fecha: string, diaNumero: int, data: seq<Clase>)

  const NombresDias: seq<string> := ["Dom", "Lun", "Mar", "Mié", "Jue", "Vie", "Sáb"]
  const DiasAgenda: nat := 10

  /** `generarFechas`: ten days from today, today labelled 'Hoy' and the others by their
      weekday; `hoy` is today's JavaScript weekday and `fechaOf(i)` the local date `i` days
      from today. */
  function GenerarFechas(hoy: int, fechaOf: nat -> string): (r: seq<Dia>)
    requires 0 <= hoy <= 6
    ensures |r| == DiasAgenda
    ensures r[0].nombre == "Hoy" && r[0].diaNumero == hoy
    ensures forall i :: 0 <= i < |r| ==> r[i].fecha == fechaOf(i) && r[i].data == [] && 0 <= r[i].diaNumero <= 6
    ensures forall i :: 0 < i < |r| ==> r[i].nombre == NombresDias[r[i].diaNumero]
    ensures forall i :: 0 <= i < |r| - 1 ==> r[i + 1].diaNumero == (r[i].diaNumero + 1) % 7
  {
    WeekdaysFollow(hoy, fechaOf);
    seq(DiasAgenda, i requires 0 <= i < DiasAgenda => DiaAt(hoy, fechaOf, i))
  }

  /** The day `i` days from today, with no classes yet. */
  function DiaAt(hoy: int, fechaOf: nat -> string, i: nat): (d: Dia)
    requires 0 <= hoy <= 6
    ensures d.fecha == fechaOf(i) && d.data == [] && d.diaNumero == (hoy + i) % 7
    ensures d.nombre == (if i == 0 then "Hoy" else NombresDias[d.diaNumero])
  {
    Dia(if i == 0 then "Hoy" else NombresDias[(hoy + i) % 7], fechaOf(i), (hoy + i) % 7, [])
  }

  /** The weekday after day `i` is the next one, Saturday followed by Sunday. */
  lemma WeekdaysFollow(hoy: int, fechaOf: nat -> string)
    requires 0 <= hoy <= 6
    ensures forall i: nat :: DiaAt(hoy, fechaOf, i + 1).diaNumero == (DiaAt(hoy, fechaOf, i).diaNumero + 1) % 7
  {
    forall i: nat ensures DiaAt(hoy, fechaOf, i + 1).diaNumero == (DiaAt(hoy, fechaOf, i).diaNumero + 1) % 7 {
      var q := (hoy + i) / 7;
      assert hoy + i == 7 * q + (hoy + i) % 7;
    }
  }

  /** `agendaActual`: the classes of the first day with the selected date, none if no day
      has it. */
  function AgendaActual(dias: seq<Dia>, seleccionado: string): (r: seq<Clase>)
    ensures (forall i :: 0 <= i < |dias| ==> dias[i].fecha != seleccionado) ==> r == []
    ensures forall i :: (0 <= i < |dias| && dias[i].fecha == seleccionado &&
              (forall j :: 0 <= j < i ==> dias[j].fecha != seleccionado)) ==> r == dias[i].data
  {
    var k := Lists.FindIndex(dias, (d: Dia) => d.fecha == seleccionado);
    match k
    case None => []
    case Some(i) => dias[i].data
  }

  /* ---------- one day's classes ---------- */

  /** A class dated on `fecha`. */
  predicate IsDirect(c: Clase, fecha: string) {
    c.fecha == Some(fecha)
  }

  /** A weekly template for the database weekday `weekday`. */
  predicate IsTemplateFor(c: Clase, weekday: int) {
    c.tipo == Template && c.diaSemana == Some(weekday)
  }

  function HoraInicio(c: Clase): Option<string> {
    c.horaInicio
  }

  /** The sort key `(a.hora_inicio || '')`. */
  function StartKey(c: Clase): string {
    if TruthyStr(c.horaInicio) then c.horaInicio.value else ""
  }

  /** A class shown on a day: dated on it, or a template of its weekday whose start no
      class dated on it has. */
  ghost predicate OnDay(todas: seq<Clase>, fecha: string, weekday: int, c: Clase) {
    || IsDirect(c, fecha)
    || (IsTemplateFor(c, weekday) && forall k :: 0 <= k < |todas| && IsDirect(todas[k], fecha) ==> todas[k].horaInicio != c.horaInicio)
  }

  /** The classes dated `fecha`, in answer order. */
  function Direct(todas: seq<Clase>, fecha: string): (r: seq<Clase>)
    ensures forall c :: c in r <==> c in todas && IsDirect(c, fecha)
  {
    Lists.Filter(todas, (c: Clase) => IsDirect(c, fecha))
  }

  /** The templates of `weekday` whose start no class dated `fecha` has, in answer order. */
  function FreeTemplates(todas: seq<Clase>, fecha: string, weekday: int): (r: seq<Clase>)
    ensures forall c :: c in r <==>
              && c in todas && IsTemplateFor(c, weekday)
              && c.horaInicio !in Lists.Keys(Direct(todas, fecha), HoraInicio)
  {
    var starts := Lists.Keys(Direct(todas, fecha), HoraInicio);
    Lists.Filter(todas, (c: Clase) => IsTemplateFor(c, weekday) && c.horaInicio !in starts)
  }

  /** A day's classes, comparing the templates' weekday with `weekday`: the dated ones,
      then the templates whose start is free, sorted by start time. */
  function Merge(todas: seq<Clase>, fecha: string, weekday: int): (r: seq<Clase>)
    ensures forall i, j :: 0 <= i < j < |r| ==> LexLe(StartKey(r[i]), StartKey(r[j]))
    ensures forall c :: c in r <==> c in todas && OnDay(todas, fecha, weekday, c)
    ensures multiset(r) == multiset(Direct(todas, fecha)) + multiset(FreeTemplates(todas, fecha, weekday))
  {
    var direct := Direct(todas, fecha);
    var templates := FreeTemplates(todas, fecha, weekday);
    MergeMembers(todas, fecha, weekday);
    var r := Sorting.SortByStr(direct + templates, StartKey);
    Lists.SameMembers(direct + templates, r);
    r
  }

  /** The dated classes and the free templates are exactly the classes shown on the day. */
  lemma MergeMembers(todas: seq<Clase>, fecha: string, weekday: int)
    ensures forall c :: c in Direct(todas, fecha) + FreeTemplates(todas, fecha, weekday) <==>
              c in todas && OnDay(todas, fecha, weekday, c)
  {
    var direct := Direct(todas, fecha);
    var starts := Lists.Keys(direct, HoraInicio);
    forall c | c in todas && IsTemplateFor(c, weekday)
      ensures c.horaInicio !in starts <==> forall k :: 0 <= k < |todas| && IsDirect(todas[k], fecha) ==> todas[k].horaInicio != c.horaInicio
    {
      if c.horaInicio in starts {
        var m :| 0 <= m < |starts| && starts[m] == c.horaInicio;
        assert direct[m] in todas;
      }
    }
  }

  /** No template of a day starts when one of its dated classes does. */
  lemma NoTemplateClash(todas: seq<Clase>, fecha: string, weekday: int, a: Clase, b: Clase)
    requires a in Merge(todas, fecha, weekday) && b in Merge(todas, fecha, weekday)
    requires IsDirect(a, fecha) && !IsDirect(b, fecha)
    ensures a.horaInicio != b.horaInicio
  {
    var k :| 0 <= k < |todas| && todas[k] == a;
  }

  /** A day's classes as the agenda computes them, comparing the templates' weekday with
      the JavaScript weekday of the day. */
  function DayDataAsWritten(todas: seq<Clase>, d: Dia): seq<Clase> {
    Merge(todas, d.fecha, d.diaNumero)
  }

  /** A day's classes with the weekday read in the database convention (0 = Monday), as the
      trainer's home page reads it. */
  function DayData(todas: seq<Clase>, d: Dia): (r: seq<Clase>)
    requires 0 <= d.diaNumero <= 6
    ensures forall c :: c in r <==> c in todas && OnDay(todas, d.fecha, Clock.JsDayToDbDay(d.diaNumero), c)
  {
    Merge(todas, d.fecha, Clock.JsDayToDbDay(d.diaNumero))
  }

  /** A pack's template is never a dated class: it shows on a day exactly when the day's
      database weekday is the pack's and no class dated that day starts when it does. */
  lemma PackOnDay(todas: seq<Clase>, d: Dia, p: Clase)
    requires 0 <= d.diaNumero <= 6 && MapPack(p) in todas
    ensures MapPack(p) in DayData(todas, d) <==>
              && p.diaSemana == Some(Clock.JsDayToDbDay(d.diaNumero))
              && forall k :: 0 <= k < |todas| && IsDirect(todas[k], d.fecha) ==> todas[k].horaInicio != p.horaInicio
  {
  }

  /** `loadAgenda`: every day gets its classes out of the same answer; the days
      themselves do not change. */
  function LoadAgenda(dias: seq<Dia>, tradicionales: Option<seq<Clase>>, packs: Option<seq<Clase>>): (r: seq<Dia>)
    requires forall i :: 0 <= i < |dias| ==> 0 <= dias[i].diaNumero <= 6
    ensures |r| == |dias|
    ensures forall i :: 0 <= i < |r| ==>
              r[i] == dias[i].(data := DayData(Todas(tradicionales, packs), dias[i]))
  {
    var todas := Todas(tradicionales, packs);
    seq(|dias|, i requires 0 <= i < |dias| => dias[i].(data := DayData(todas, dias[i])))
  }

  /** A dated reservation shows on its own day of the agenda, and on no other. */
  lemma ReservaOnItsDay(dias: seq<Dia>, tradicionales: seq<Clase>, packs: Option<seq<Clase>>, k: nat, i: nat)
    requires forall j :: 0 <= j < |dias| ==> 0 <= dias[j].diaNumero <= 6
    requires k < |tradicionales| && i < |dias|
    requires tradicionales[k].tipo != Template
    ensures MapReserva(tradicionales[k]) in LoadAgenda(dias, Some(tradicionales), packs)[i].data <==>
              tradicionales[k].fecha == Some(dias[i].fecha)
  {
    var todas := Todas(Some(tradicionales), packs);
    assert todas[k] == MapReserva(tradicionales[k]);
  }
}
