/** The player's calendar: the reservations split into coming and past ones, each list
    ordered by date and time, shown eight to a page; and the choice of the id a
    cancellation is sent with. */
module JugadorCalendario {
  import opened Wrappers
  import Lists
  import Sorting

  /* ---------- the reservations ---------- */

  /** An individual reservation or a group enrolment of the player. */
  datatype Reserva = Reserva(id: Option<int>, reservaId: Option<int>, inscripcionId: Option<int>,
                             fecha: Option<string>, horaInicio: Option<string>)

  /** The server's answer: a bare list, or the individual reservations and the group
      enrolments as two (possibly missing) lists. */
  datatype Respuesta =
    | Lista(reservas: seq<Reserva>)
    | Partes(individuales: Option<seq<Reserva>>, grupales: Option<seq<Reserva>>)

  /** `allReservas`: the bare list, or the individual reservations followed by the group
      enrolments. */
  function Todas(res: Respuesta): (r: seq<Reserva>)
    ensures res.Lista? ==> r == res.reservas
    ensures res.Partes? ==> forall x :: x in r <==> x in res.individuales.GetOr([]) || x in res.grupales.GetOr([])
    ensures res.Partes? ==> |r| == |res.individuales.GetOr([])| + |res.grupales.GetOr([])|
  {
    match res
    case Lista(rs) => rs
    case Partes(ind, gr) => ind.GetOr([]) + gr.GetOr([])
  }

  /** `(r.fecha || '') + 'T' + (r.hora_inicio || '00:00')`, the text given to `new Date`. */
  function DateText(r: Reserva): string {
    (if TruthyStr(r.fecha) then r.fecha.value else "") + "T"
      + (if TruthyStr(r.horaInicio) then r.horaInicio.value else "00:00")
  }

  /** The instant a reservation stands for; `at` is `new Date(text).getTime()`, with `None`
      for an invalid date. */
  function Instant(r: Reserva, at: string -> Option<int>): Option<int> {
    at(DateText(r))
  }

  /** `rDate >= today`: a comparison with an invalid date is false. */
  predicate Upcoming(r: Reserva, at: string -> Option<int>, today: int) {
    Instant(r, at).Some? && Instant(r, at).value >= today
  }

  /** `rDate < today`. */
  predicate Past(r: Reserva, at: string -> Option<int>, today: int) {
    Instant(r, at).Some? && Instant(r, at).value < today
  }

  /** The instant as the sort comparator subtracts it; only dated reservations are sorted,
      and for them this is their instant. */
  function SortKey(r: Reserva, at: string -> Option<int>): int {
    Instant(r, at).GetOr(0)
  }

  /** `reservasFuturas`: the reservations from `today` (midnight) on, earliest first. */
  function Futuras(all: seq<Reserva>, at: string -> Option<int>, today: int): (r: seq<Reserva>)
    ensures multiset(r) == multiset(Lists.Filter(all, x => Upcoming(x, at, today)))
    ensures forall x :: x in r <==> x in all && Upcoming(x, at, today)
    ensures forall i :: 0 <= i < |r| ==> Upcoming(r[i], at, today)
    ensures forall i, j :: 0 <= i < j < |r| ==> SortKey(r[i], at) <= SortKey(r[j], at)
  {
    var f := Lists.Filter(all, x => Upcoming(x, at, today));
    var r := Sorting.SortByInt(f, x => SortKey(x, at));
    Lists.SameMembers(f, r);
    r
  }

  /** `reservasPasadas`: the reservations before `today`, latest first. */
  function Pasadas(all: seq<Reserva>, at: string -> Option<int>, today: int): (r: seq<Reserva>)
    ensures multiset(r) == multiset(Lists.Filter(all, x => Past(x, at, today)))
    ensures forall x :: x in r <==> x in all && Past(x, at, today)
    ensures forall i :: 0 <= i < |r| ==> Past(r[i], at, today)
    ensures forall i, j :: 0 <= i < j < |r| ==> SortKey(r[j], at) <= SortKey(r[i], at)
  {
    var f := Lists.Filter(all, x => Past(x, at, today));
    var r := Sorting.SortByIntDesc(f, x => SortKey(x, at));
    Lists.SameMembers(f, r);
    r
  }

  /** Every reservation with a valid date is in exactly one of the two lists, as many
      times as it is in the answer; one whose date does not read is in neither. */
  lemma EachReservationListedOnce(all: seq<Reserva>, at: string -> Option<int>, today: int)
    ensures multiset(Futuras(all, at, today)) + multiset(Pasadas(all, at, today))
            + multiset(Lists.Filter(all, x => Instant(x, at).None?)) == multiset(all)
  {
    var up := x => Upcoming(x, at, today);
    var notUp := x => !Upcoming(x, at, today);
    var past := x => Past(x, at, today);
    var notPast := x => !Past(x, at, today);
    var undated := x => Instant(x, at).None?;
    var rest := Lists.Filter(all, notUp);
    Lists.FilterSplit(all, up, notUp);
    Lists.FilterSplit(rest, past, notPast);
    Lists.FilterFilter(all, notUp, past, past);
    Lists.FilterFilter(all, notUp, notPast, undated);
  }

  /* ---------- pages ---------- */

  datatype Vista = Activas | Historial

  const ItemsPerPage: nat := 8

  /** The page's state: the list shown, the current page (from 1) and the two lists. */
  datatype Calendario = Calendario(vista: Vista, page: int, futuras: seq<Reserva>, pasadas: seq<Reserva>)

  /** The list of the current view. */
  function Shown(c: Calendario): seq<Reserva> {
    if c.vista == Activas then c.futuras else c.pasadas
  }

  /** `loadReservas`: the two lists are replaced; the view and the page are kept. */
  function Load(c: Calendario, res: Respuesta, at: string -> Option<int>, today: int): (d: Calendario)
    ensures d.vista == c.vista && d.page == c.page
    ensures d.futuras == Futuras(Todas(res), at, today) && d.pasadas == Pasadas(Todas(res), at, today)
  {
    c.(futuras := Futuras(Todas(res), at, today), pasadas := Pasadas(Todas(res), at, today))
  }

  /** `cambiarVista`: the other list, from its first page. */
  function CambiarVista(c: Calendario, v: Vista): (d: Calendario)
    ensures Shown(d) == if v == Activas then c.futuras else c.pasadas
    ensures d.page == 1 && d.futuras == c.futuras && d.pasadas == c.pasadas
  {
    c.(vista := v, page := 1)
  }

  /** `paginatedReservas`: from page 1 on, at most eight reservations, those at positions
      `(page - 1) * 8 ...` of the list shown. */
  function Paginated(c: Calendario): (r: seq<Reserva>)
    ensures c.page >= 1 ==> |r| <= ItemsPerPage
    ensures c.page >= 1 ==>
              (|r| == if (c.page - 1) * ItemsPerPage >= |Shown(c)| then 0
                      else if ItemsPerPage <= |Shown(c)| - (c.page - 1) * ItemsPerPage then ItemsPerPage
                      else |Shown(c)| - (c.page - 1) * ItemsPerPage)
    ensures c.page >= 1 ==> forall i :: 0 <= i < |r| ==>
              (c.page - 1) * ItemsPerPage + i < |Shown(c)| && r[i] == Shown(c)[(c.page - 1) * ItemsPerPage + i]
  {
    var r := Lists.Page(Shown(c), c.page, ItemsPerPage);
    if c.page >= 1 then Lists.PageContents(Shown(c), c.page, ItemsPerPage); r else r
  }

  /** `totalPages`: `Math.ceil(n / 8)` for the list shown — the fewest pages of eight that
      hold it. */
  function TotalPages(c: Calendario): (n: nat)
    ensures n * ItemsPerPage >= |Shown(c)|
    ensures n == 0 || (n - 1) * ItemsPerPage < |Shown(c)|
  {
    Lists.PageCount(|Shown(c)|, ItemsPerPage)
  }

  /** `nextPage`: one page on, unless this is the last page. */
  function NextPage(c: Calendario): (d: Calendario)
    ensures d.page == c.page + 1 <==> c.page < TotalPages(c)
    ensures d.page == c.page <==> c.page >= TotalPages(c)
    ensures d.vista == c.vista && d.futuras == c.futuras && d.pasadas == c.pasadas
  {
    if c.page < TotalPages(c) then c.(page := c.page + 1) else c
  }

  /** `prevPage`: one page back, unless this is the first page. */
  function PrevPage(c: Calendario): (d: Calendario)
    ensures d.page == c.page - 1 <==> c.page > 1
    ensures d.page == c.page <==> c.page <= 1
    ensures d.vista == c.vista && d.futuras == c.futuras && d.pasadas == c.pasadas
  {
    if c.page > 1 then c.(page := c.page - 1) else c
  }

  /** The current page is a real one: page 1, or a page within the list. */
  predicate InRange(c: Calendario) {
    c.page == 1 || 1 <= c.page <= TotalPages(c)
  }

  /** Paging and switching the view keep the page in range. */
  lemma PagingKeepsRange(c: Calendario, v: Vista)
    requires InRange(c)
    ensures InRange(NextPage(c)) && InRange(PrevPage(c)) && InRange(CambiarVista(c, v))
  {
  }

  /** A page in range shows something whenever the list shown is not empty. */
  lemma PageInRangeNotEmpty(c: Calendario)
    requires InRange(c) && |Shown(c)| > 0
    ensures |Paginated(c)| > 0
  {
    var n := TotalPages(c);
    assert (c.page - 1) * ItemsPerPage <= (n - 1) * ItemsPerPage;
    assert (c.page - 1) * ItemsPerPage < |Shown(c)|;
  }

  /** Going one page on and one back returns to the same page. */
  lemma NextThenPrev(c: Calendario)
    requires 1 <= c.page < TotalPages(c)
    ensures PrevPage(NextPage(c)) == c
  {
  }

  /* ---------- cancelling ---------- */

  /** `reserva.id || reserva.reserva_id || reserva.inscripcion_id`, `None` when all are
      falsy. */
  function CancelId(r: Reserva): (id: Option<int>)
    ensures id.Some? <==> TruthyInt(r.id) || TruthyInt(r.reservaId) || TruthyInt(r.inscripcionId)
    ensures id.Some? ==> id.value != 0
    ensures TruthyInt(r.id) ==> id == r.id
    ensures !TruthyInt(r.id) && TruthyInt(r.reservaId) ==> id == r.reservaId
    ensures !TruthyInt(r.id) && !TruthyInt(r.reservaId) ==> id == (if TruthyInt(r.inscripcionId) then r.inscripcionId else None)
  {
    var v := OrInt(OrInt(r.id, r.reservaId), r.inscripcionId);
    if TruthyInt(v) then v else None
  }

  datatype Cancelacion =
    | NoId                       // error: the reservation cannot be identified
    | Kept                       // the confirmation was declined (or no user)
    | Cancel(id: int, userId: int)

  /** `cancelarReserva` after the confirmation dialog answers `confirmed`. */
  function Cancelar(r: Reserva, confirmed: bool, userId: Option<int>): (o: Cancelacion)
    ensures o == NoId <==> CancelId(r).None?
    ensures o.Cancel? <==> CancelId(r).Some? && confirmed && TruthyInt(userId)
    ensures o.Cancel? ==> Some(o.id) == CancelId(r) && Some(o.userId) == userId
  {
    match CancelId(r)
    case None => NoId
    case Some(id) => if confirmed && TruthyInt(userId) then Cancel(id, userId.value) else Kept
  }
}
