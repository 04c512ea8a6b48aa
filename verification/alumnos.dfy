/** A trainer's students: the list as the server aggregates it, the name search, and the
    way to a student's evaluation form. */
module Alumnos {
  import opened Wrappers
  import opened Text
  import Lists

  /** A student as the server sends it; `sesionesPagadas` is the text of a sum. */
  datatype AlumnoRaw = AlumnoRaw(jugadorId: Option<int>, jugadorNombre: string, sesionesPagadas: string,
                                 sesionesReservadas: Option<int>, sesionesPendientes: Option<int>,
                                 packNombres: Option<string>)

  /** A student as the page shows it: the server's fields, plus the paid sessions as a
      number (`None` for `NaN`), the remaining sessions and the pack names. */
  datatype Alumno = Alumno(raw: AlumnoRaw, sesionesPagadas: Option<int>, sesionesReservadas: Option<int>,
                           sesionesRestantes: Option<int>, packNombre: Option<string>)

  function ToAlumno(a: AlumnoRaw): Alumno {
    Alumno(a, NumberOf(a.sesionesPagadas), a.sesionesReservadas, a.sesionesPendientes, a.packNombres)
  }

  datatype Pagina = Pagina(alumnos: seq<Alumno>, filtrados: seq<Alumno>, searchTerm: string)

  /** `loadAlumnos`: each student of the answer (none for a missing answer), with the
      remaining sessions taken from the pending ones and the pack name from the pack
      names; the filtered list is the whole list. */
  function Load(p: Pagina, res: Option<seq<AlumnoRaw>>): (q: Pagina)
    ensures |q.alumnos| == |res.GetOr([])|
    ensures forall i :: 0 <= i < |q.alumnos| ==>
              && q.alumnos[i].raw == res.GetOr([])[i]
              && q.alumnos[i].sesionesRestantes == res.GetOr([])[i].sesionesPendientes
              && q.alumnos[i].packNombre == res.GetOr([])[i].packNombres
              && q.alumnos[i].sesionesReservadas == res.GetOr([])[i].sesionesReservadas
              && q.alumnos[i].sesionesPagadas == NumberOf(res.GetOr([])[i].sesionesPagadas)
    ensures q.filtrados == q.alumnos && q.searchTerm == p.searchTerm
  {
    var all := Lists.Map(res.GetOr([]), ToAlumno);
    p.(alumnos := all, filtrados := all)
  }

  predicate NameMatches(a: Alumno, term: string) {
    ContainsCI(a.raw.jugadorNombre, term)
  }

  /** `filtrarAlumnos`: an empty search shows every student; otherwise the students whose
      name contains the search, ignoring case, in order. */
  function Filtrar(p: Pagina): (q: Pagina)
    ensures q.alumnos == p.alumnos && q.searchTerm == p.searchTerm
    ensures p.searchTerm == "" ==> q.filtrados == p.alumnos
    ensures forall a :: a in q.filtrados <==> a in p.alumnos && NameMatches(a, p.searchTerm)
    ensures Lists.Subseq(q.filtrados, p.alumnos)
  {
    Lists.FilterIsSubseq(p.alumnos, a => NameMatches(a, p.searchTerm));
    if p.searchTerm == "" then
      EveryNameMatchesEmpty(p.alumnos);
      Lists.FilterAll(p.alumnos, a => NameMatches(a, p.searchTerm));
      p.(filtrados := p.alumnos)
    else p.(filtrados := Lists.Filter(p.alumnos, a => NameMatches(a, p.searchTerm)))
  }

  lemma EveryNameMatchesEmpty(alumnos: seq<Alumno>)
    ensures forall a :: a in alumnos ==> NameMatches(a, "")
  {
    forall a | a in alumnos ensures NameMatches(a, "") {
      EmptyContained(Lower(a.raw.jugadorNombre));
    }
  }

  /** The shortcut for an empty search changes nothing: the filtered list is always the
      plain filter by name. */
  lemma FiltrarIsFilter(p: Pagina)
    ensures Filtrar(p).filtrados == Lists.Filter(p.alumnos, a => NameMatches(a, p.searchTerm))
  {
    if p.searchTerm == "" {
      EveryNameMatchesEmpty(p.alumnos);
      Lists.FilterAll(p.alumnos, a => NameMatches(a, p.searchTerm));
    }
  }

  /** Right after loading, filtering with an empty search shows what loading showed. */
  lemma LoadThenEmptySearch(p: Pagina, res: Option<seq<AlumnoRaw>>)
    requires p.searchTerm == ""
    ensures Filtrar(Load(p, res)) == Load(p, res)
  {
  }

  /** `irAEvaluar`: the evaluation form of the student's player id; no navigation without
      one. */
  function IrAEvaluar(a: Alumno): (target: Option<int>)
    ensures target.Some? <==> TruthyInt(a.raw.jugadorId)
    ensures target.Some? ==> target.value == a.raw.jugadorId.value
  {
    if TruthyInt(a.raw.jugadorId) then a.raw.jugadorId else None
  }

  /** `ngOnInit`: a page without a (non-zero) user id goes to the login page. */
  function CanOpen(userId: Option<int>): (ok: bool)
    ensures ok <==> userId.Some? && userId.value != 0
  {
    TruthyInt(userId)
  }
}
