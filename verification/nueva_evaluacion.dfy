/** A trainer's evaluation of a student: four marks for each of ten strokes, the open or
    closed panel of each stroke, and what is sent when the evaluation is saved. */
module NuevaEvaluacion {
  import opened Wrappers

  /** The strokes, in the order the form lists them. */
  const Golpes: seq<string> := ["Derecha", "Reves", "Voleas", "Bandeja", "Vibora",
                                "Remate", "Salida de Pared", "Globo", "Saque", "Resto"]

  /** The four marks of a stroke. */
  datatype Puntaje = Puntaje(tecnica: int, control: int, direccion: int, decision: int)

  const Inicial: Puntaje := Puntaje(5, 5, 5, 5)

  /** There are ten strokes, all different. */
  lemma TenStrokes()
    ensures |Golpes| == 10
    ensures forall i, j :: 0 <= i < j < |Golpes| ==> Golpes[i] != Golpes[j]
  {
  }

  /** The form after `ngOnInit`: every stroke has the middle mark 5 in each of the four
      aspects. */
  function InitScores(): (m: map<string, Puntaje>)
    ensures m.Keys == set g | g in Golpes
    ensures forall g :: g in m ==> m[g] == Inicial
  {
    map g | g in Golpes :: Inicial
  }

  /** The panels after `ngOnInit`: one per stroke, only the first one open. */
  function InitAccordions(): (m: map<string, bool>)
    ensures m.Keys == set g | g in Golpes
    ensures m[Golpes[0]]
    ensures forall i :: 1 <= i < |Golpes| ==> !m[Golpes[i]]
  {
    TenStrokes();
    map g | g in Golpes :: g == Golpes[0]
  }

  /** `toggleAccordion`: the panel flips; a stroke without a panel (`undefined`) gets an open
      one. No other panel changes. */
  function ToggleAccordion(m: map<string, bool>, golpe: string): (n: map<string, bool>)
    ensures n.Keys == m.Keys + {golpe}
    ensures golpe in m ==> n[golpe] == !m[golpe]
    ensures golpe !in m ==> n[golpe]
    ensures forall g :: g in m && g != golpe ==> n[g] == m[g]
  {
    m[golpe := !(golpe in m && m[golpe])]
  }

  /** Toggling a panel twice leaves every panel as it was. */
  lemma ToggleTwice(m: map<string, bool>, golpe: string)
    requires golpe in m
    ensures ToggleAccordion(ToggleAccordion(m, golpe), golpe) == m
  {
    var n := ToggleAccordion(ToggleAccordion(m, golpe), golpe);
    assert n.Keys == m.Keys;
  }

  /** What `guardarEvaluacion` sends. */
  datatype Payload = Payload(jugadorId: int, entrenadorId: int, scores: map<string, Puntaje>, comentarios: string)

  /** `guardarEvaluacion`, with the confirmation dialog answered by `confirmed`: the
      student, the trainer, the marks and the comments, exactly as the form holds them. */
  function Guardar(jugadorId: int, entrenadorId: int, scores: map<string, Puntaje>, comentarios: string,
                   confirmed: bool): (p: Option<Payload>)
    ensures p.Some? <==> confirmed
    ensures p.Some? ==> && p.value.jugadorId == jugadorId && p.value.entrenadorId == entrenadorId
                        && p.value.scores == scores && p.value.comentarios == comentarios
  {
    if confirmed then Some(Payload(jugadorId, entrenadorId, scores, comentarios)) else None
  }

  /** An evaluation saved untouched gives every stroke the marks 5, 5, 5, 5. */
  lemma UntouchedSendsFives(jugadorId: int, entrenadorId: int)
    ensures var p := Guardar(jugadorId, entrenadorId, InitScores(), "", true);
            && p.Some? && |p.value.scores.Keys| == 10
            && forall g :: g in p.value.scores ==> p.value.scores[g] == Inicial
  {
    TenStrokes();
    DistinctSetSize(Golpes);
  }

  /** The set of a list without repetitions has one element per entry. */
  lemma {:induction false} DistinctSetSize(xs: seq<string>)
    requires forall i, j :: 0 <= i < j < |xs| ==> xs[i] != xs[j]
    ensures |set g | g in xs| == |xs|
    decreases |xs|
  {
    if xs != [] {
      DistinctSetSize(xs[1..]);
      assert (set g | g in xs) == {xs[0]} + (set g | g in xs[1..]);
      assert xs[0] !in xs[1..];
    }
  }
}
