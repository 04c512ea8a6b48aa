/** The player's skills page: the trainers who evaluated the player, the trainer shown,
    and the evaluations behind the progress line and the skills radar of that trainer. */
module MisHabilidades {
  import opened Wrappers
  import Lists
  import Sorting

  /** An evaluation; `scores` lists the names of the scored strokes when the evaluation
      carries scores. The line value is the evaluation's overall average. */
  datatype Evaluacion = Evaluacion(entrenadorId: Option<int>, entrenador: Option<string>, emailEntrenador: Option<string>,
                                   fecha: string, promedio: real, scores: Option<seq<string>>)

  /** An entry of the trainer selector. */
  datatype Trainer = Trainer(id: int, nombre: string, email: Option<string>)

  /** `e.entrenador_id || 0`: an evaluation without a trainer belongs to trainer 0. */
  function TrainerKey(e: Evaluacion): (k: int)
    ensures TruthyInt(e.entrenadorId) ==> k == e.entrenadorId.value
    ensures !TruthyInt(e.entrenadorId) ==> k == 0
  {
    OrInt(e.entrenadorId, Some(0)).value
  }

  /** The name shown for a trainer: the evaluation's trainer name, else 'General' for
      trainer 0 and 'Entrenador Desconocido' for any other. */
  function TrainerName(e: Evaluacion): (n: string)
    ensures TruthyStr(e.entrenador) ==> n == e.entrenador.value
    ensures !TruthyStr(e.entrenador) ==> n == (if TrainerKey(e) == 0 then "General" else "Entrenador Desconocido")
  {
    OrStr(e.entrenador, Some(if TrainerKey(e) == 0 then "General" else "Entrenador Desconocido")).value
  }

  function ToTrainer(e: Evaluacion): Trainer {
    Trainer(TrainerKey(e), TrainerName(e), e.emailEntrenador)
  }

  /** The trainers of `loadEvaluaciones`: one per distinct trainer key, in order of first
      evaluation (see `TrainerFromFirstEvaluation`). */
  function Trainers(evals: seq<Evaluacion>): (r: seq<Trainer>)
    ensures forall i, j :: 0 <= i < j < |r| ==> r[i].id != r[j].id
    ensures forall e :: e in evals ==> exists i :: 0 <= i < |r| && r[i].id == TrainerKey(e)
  {
    var d := Lists.DedupBy(evals, TrainerKey);
    var r := Lists.Map(d, ToTrainer);
    forall e | e in evals ensures exists i :: 0 <= i < |r| && r[i].id == TrainerKey(e) {
      var j :| 0 <= j < |evals| && evals[j] == e;
      assert TrainerKey(evals[j]) in Lists.Keys(d, TrainerKey);
      var i :| 0 <= i < |d| && Lists.Keys(d, TrainerKey)[i] == TrainerKey(evals[j]);
      assert r[i].id == TrainerKey(e);
    }
    r
  }

  /** Each trainer entry is read off the first evaluation with its key. */
  lemma TrainerFromFirstEvaluation(evals: seq<Evaluacion>, i: nat)
    requires i < |Trainers(evals)|
    ensures exists k :: && 0 <= k < |evals| && Trainers(evals)[i] == ToTrainer(evals[k])
                        && forall m :: 0 <= m < k ==> TrainerKey(evals[m]) != TrainerKey(evals[k])
  {
    var d := Lists.DedupBy(evals, TrainerKey);
    assert Lists.FirstIn(evals, TrainerKey, d[i]);
    var k :| 0 <= k < |evals| && evals[k] == d[i] && Lists.FirstOfKey(evals, TrainerKey, k);
  }

  /** The entries come in the order of their trainers' first evaluations. */
  lemma TrainersInEvaluationOrder(evals: seq<Evaluacion>, i: nat, j: nat)
    requires i < j < |Trainers(evals)|
    ensures exists a, b :: && 0 <= a < b < |evals|
                           && Trainers(evals)[i] == ToTrainer(evals[a]) && Trainers(evals)[j] == ToTrainer(evals[b])
                           && Lists.FirstOfKey(evals, TrainerKey, a) && Lists.FirstOfKey(evals, TrainerKey, b)
  {
    var d := Lists.DedupBy(evals, TrainerKey);
    Lists.DedupInOrder(evals, TrainerKey);
    assert Lists.FirstsInOrder(evals, TrainerKey, d[i], d[j]);
    var a, b :| && 0 <= a < b < |evals| && evals[a] == d[i] && evals[b] == d[j]
                && Lists.FirstOfKey(evals, TrainerKey, a) && Lists.FirstOfKey(evals, TrainerKey, b);
    assert Trainers(evals)[i] == ToTrainer(evals[a]);
  }

  /** Without an earlier choice the trainer shown is the one of the first evaluation. */
  lemma FirstEvaluationsTrainerShown(evals: seq<Evaluacion>, selected: Option<int>)
    requires evals != [] && !TruthyInt(selected)
    ensures Trainers(evals) != [] && Trainers(evals)[0] == ToTrainer(evals[0])
    ensures InitialTrainer(selected, Trainers(evals)) == TrainerKey(evals[0])
  {
    Lists.DedupHead(evals, TrainerKey);
  }

  /** `true` when some trainer has the id. */
  predicate HasTrainer(trainers: seq<Trainer>, id: int) {
    exists i :: 0 <= i < |trainers| && trainers[i].id == id
  }

  /** The trainer shown after loading: the previous choice when it is still listed (and
      truthy), otherwise the first trainer. */
  function InitialTrainer(selected: Option<int>, trainers: seq<Trainer>): (id: int)
    requires |trainers| > 0
    ensures TruthyInt(selected) && HasTrainer(trainers, selected.value) ==> id == selected.value
    ensures !(TruthyInt(selected) && HasTrainer(trainers, selected.value)) ==> id == trainers[0].id
    ensures HasTrainer(trainers, id)
  {
    if TruthyInt(selected) && HasTrainer(trainers, selected.value) then selected.value else trainers[0].id
  }

  /* ---------- one trainer's data ---------- */

  /** What the charts are drawn from. */
  datatype Charts = Charts(hasData: bool, lineFechas: seq<string>, lineData: seq<real>, radarLabels: seq<string>)

  /** The moment of an evaluation; `timeOf` is `new Date(fecha).getTime()`. */
  function TimeKey(e: Evaluacion, timeOf: string -> int): int {
    timeOf(e.fecha)
  }

  predicate OfTrainer(e: Evaluacion, trainerId: int) {
    TrainerKey(e) == trainerId
  }

  /** The evaluations of one trainer, oldest first. */
  function TrainerEvaluations(evals: seq<Evaluacion>, trainerId: int, timeOf: string -> int): (r: seq<Evaluacion>)
    ensures multiset(r) == multiset(Lists.Filter(evals, e => OfTrainer(e, trainerId)))
    ensures forall e :: e in r <==> e in evals && OfTrainer(e, trainerId)
    ensures forall i, j :: 0 <= i < j < |r| ==> TimeKey(r[i], timeOf) <= TimeKey(r[j], timeOf)
  {
    var f := Lists.Filter(evals, e => OfTrainer(e, trainerId));
    var r := Sorting.SortByInt(f, e => TimeKey(e, timeOf));
    Lists.SameMembers(f, r);
    r
  }

  /** The charts drawn from a trainer's evaluations `ts`, oldest first: one line point per
      evaluation, and the radar of the last one when it has scores; with none, there is
      no data and the line is left as it was. */
  function Drawn(c: Charts, ts: seq<Evaluacion>): (d: Charts)
    ensures ts == [] ==> d == c.(hasData := false)
    ensures ts != [] ==> && |d.lineData| == |ts| && |d.lineFechas| == |ts|
                         && (forall i :: 0 <= i < |ts| ==> d.lineData[i] == ts[i].promedio && d.lineFechas[i] == ts[i].fecha)
    ensures ts != [] && ts[|ts| - 1].scores.Some? ==> d.hasData && d.radarLabels == ts[|ts| - 1].scores.value
    ensures ts != [] && ts[|ts| - 1].scores.None? ==> d.hasData == c.hasData && d.radarLabels == c.radarLabels
  {
    if ts == [] then c.(hasData := false)
    else
      var line := c.(lineFechas := Lists.Map(ts, (e: Evaluacion) => e.fecha),
                     lineData := Lists.Map(ts, (e: Evaluacion) => e.promedio));
      match ts[|ts| - 1].scores
      case Some(keys) => line.(hasData := true, radarLabels := keys)
      case None => line
  }

  /** `processDataForTrainer`: the charts of the trainer's evaluations in date order (see
      `Drawn`). */
  function ProcessDataForTrainer(c: Charts, evals: seq<Evaluacion>, trainerId: int, timeOf: string -> int): (d: Charts)
    ensures var ts := TrainerEvaluations(evals, trainerId, timeOf);
            && (ts == [] ==> d == c.(hasData := false))
            && (ts != [] ==> |d.lineData| == |ts| && forall i :: 0 <= i < |ts| ==> d.lineData[i] == ts[i].promedio)
            && (ts != [] && ts[|ts| - 1].scores.Some? ==> d.hasData && d.radarLabels == ts[|ts| - 1].scores.value)
  {
    Drawn(c, TrainerEvaluations(evals, trainerId, timeOf))
  }

  /** The radar shows the trainer's latest evaluation: no evaluation of theirs is dated
      later. */
  lemma RadarIsLatest(evals: seq<Evaluacion>, trainerId: int, timeOf: string -> int, e: Evaluacion)
    requires e in evals && TrainerKey(e) == trainerId
    ensures var ts := TrainerEvaluations(evals, trainerId, timeOf);
            ts != [] && TimeKey(e, timeOf) <= TimeKey(ts[|ts| - 1], timeOf)
  {
    var ts := TrainerEvaluations(evals, trainerId, timeOf);
    assert e in ts;
    var k :| 0 <= k < |ts| && ts[k] == e;
    if k < |ts| - 1 {
      assert TimeKey(ts[k], timeOf) <= TimeKey(ts[|ts| - 1], timeOf);
    }
  }

  /* ---------- loading ---------- */

  datatype Habilidades = Habilidades(trainers: seq<Trainer>, selected: Option<int>, charts: Charts)

  /** `loadEvaluaciones`: the trainers of the evaluations, and the data of the trainer shown;
      without trainers there is no data. */
  function Load(h: Habilidades, evals: seq<Evaluacion>, timeOf: string -> int): (r: Habilidades)
    ensures r.trainers == Trainers(evals)
    ensures evals == [] ==> !r.charts.hasData && r.selected == h.selected
    ensures evals != [] ==> && r.selected.Some? && HasTrainer(r.trainers, r.selected.value)
                            && r.selected.value == InitialTrainer(h.selected, r.trainers)
                            && r.charts == ProcessDataForTrainer(h.charts, evals, r.selected.value, timeOf)
  {
    var ts := Trainers(evals);
    if evals != [] then
      assert evals[0] in evals;
      assert HasTrainer(ts, TrainerKey(evals[0]));
      var id := InitialTrainer(h.selected, ts);
      Habilidades(ts, Some(id), ProcessDataForTrainer(h.charts, evals, id, timeOf))
    else
      Habilidades(ts, h.selected, h.charts.(hasData := false))
  }

  /** Reloading keeps the trainer shown while they still have evaluations. */
  lemma ReloadKeepsTrainer(h: Habilidades, evals: seq<Evaluacion>, timeOf: string -> int, e: Evaluacion)
    requires h.selected.Some? && h.selected.value != 0 && e in evals && TrainerKey(e) == h.selected.value
    ensures Load(h, evals, timeOf).selected == h.selected
  {
    assert HasTrainer(Trainers(evals), h.selected.value);
  }
}
