/** The pack counters of the player's home page (and of the landing page, which reads
    them the same way): where in the answer the counters are found, and how each one is
    read. */
module HomeStats {
  import opened Wrappers
  import opened Text

  /** A JSON value of the answer. Arrays and fractions are not needed here. */
  datatype Json = JNull | JBool(b: bool) | JNum(n: int) | JStr(s: string) | JObj(fields: map<string, Json>)

  /** `v.k`: the field of an object, `undefined` (`None`) for a missing field or a value
      that is not an object. */
  function Get(v: Json, k: string): Option<Json> {
    if v.JObj? && k in v.fields then Some(v.fields[k]) else None
  }

  /** JavaScript truthiness; `undefined` is `None`. */
  predicate Truthy(v: Option<Json>) {
    match v
    case None => false
    case Some(JNull) => false
    case Some(JBool(b)) => b
    case Some(JNum(n)) => n != 0
    case Some(JStr(s)) => s != ""
    case Some(JObj(_)) => true
  }

  /** `res && res.estadisticas && res.estadisticas.packs`. */
  predicate HasNested(res: Json) {
    Truthy(Some(res)) && Truthy(Get(res, "estadisticas")) && Truthy(Get(Get(res, "estadisticas").value, "packs"))
  }

  /** Where the counters are read from: `estadisticas.packs` when truthy, else `packs` when
      truthy, else the answer itself when it has a `pagada` or `reservada` field; `None`
      when the shape is not recognised. */
  function PacksOf(res: Json): (p: Option<Json>)
    ensures HasNested(res) ==> p == Get(Get(res, "estadisticas").value, "packs")
    ensures !HasNested(res) && Truthy(Get(res, "packs")) ==> p == Get(res, "packs")
    ensures (!HasNested(res) && !Truthy(Get(res, "packs")) && (Get(res, "pagada").Some? || Get(res, "reservada").Some?))
              ==> p == Some(res)
    ensures p.None? <==> !Truthy(Get(Get(res, "estadisticas").GetOr(JNull), "packs")) && !Truthy(Get(res, "packs"))
                         && Get(res, "pagada").None? && Get(res, "reservada").None?
    ensures p.Some? ==> Truthy(p)
  {
    if HasNested(res) then
      Get(Get(res, "estadisticas").value, "packs")
    else if Truthy(Some(res)) && Truthy(Get(res, "packs")) then Get(res, "packs")
    else if Truthy(Some(res)) && (Get(res, "pagada").Some? || Get(res, "reservada").Some?) then Some(res)
    else None
  }

  /** `parseInt(v)`: a number is itself, a string its leading digits, anything else `NaN`
      (`None`). */
  function ParseInt(v: Option<Json>): Option<int> {
    match v
    case Some(JNum(n)) => Some(n)
    case Some(JStr(s)) => ParseIntPrefix(s)
    case _ => None
  }

  /** `parseInt(packs[plural] || packs[singular]) || 0`: the plural field when truthy, else
      the singular one; a value that does not read as a number counts 0. */
  function Counter(packs: Json, plural: string, singular: string): (c: int)
    ensures Truthy(Get(packs, plural)) ==> c == ParseInt(Get(packs, plural)).GetOr(0)
    ensures !Truthy(Get(packs, plural)) ==> c == ParseInt(Get(packs, singular)).GetOr(0)
  {
    var v := if Truthy(Get(packs, plural)) then Get(packs, plural) else Get(packs, singular);
    ParseInt(v).GetOr(0)
  }

  datatype Stats = Stats(pagadas: int, reservadas: int, disponibles: int)

  /** The counters after the answer `res`: read from the recognised place, or left as they
      were when the shape is not recognised. */
  function LoadStats(s: Stats, res: Json): (t: Stats)
    ensures PacksOf(res).None? ==> t == s
    ensures PacksOf(res).Some? ==> && t.pagadas == Counter(PacksOf(res).value, "pagadas", "pagada")
                                   && t.reservadas == Counter(PacksOf(res).value, "reservadas", "reservada")
                                   && t.disponibles == Counter(PacksOf(res).value, "disponibles", "disponible")
  {
    match PacksOf(res)
    case None => s
    case Some(p) =>
      Stats(Counter(p, "pagadas", "pagada"), Counter(p, "reservadas", "reservada"), Counter(p, "disponibles", "disponible"))
  }

  /** A flat answer with counts written as digits shows those counts; a missing count is 0. */
  lemma FlatAnswerCounts(s: Stats, pagada: nat, reservada: nat)
    ensures var res := JObj(map["pagada" := JNum(pagada), "reservada" := JStr(Decimal(reservada))]);
            LoadStats(s, res) == Stats(pagada, reservada, 0)
  {
    var res := JObj(map["pagada" := JNum(pagada), "reservada" := JStr(Decimal(reservada))]);
    FlatAnswerIsRead(res.fields);
    ParsesDecimal(reservada);
  }

  /** An answer with a `pagada` field and neither `estadisticas` nor `packs` is read as it
      is. */
  lemma FlatAnswerIsRead(res: map<string, Json>)
    requires "pagada" in res && "estadisticas" !in res && "packs" !in res
    ensures PacksOf(JObj(res)) == Some(JObj(res))
  {
    assert Get(JObj(res), "pagada").Some?;
  }

  /** The decimal text of a count reads back as the count. */
  lemma ParsesDecimal(n: nat)
    ensures ParseInt(Some(JStr(Decimal(n)))) == Some(n)
  {
    DecimalDigits(n);
    DigitsValueOfDecimal(n);
    assert IsDigit(Decimal(n)[0]);
    assert DigitRun(Decimal(n)) == |Decimal(n)| by {
      AllDigitsRun(Decimal(n));
    }
    assert Decimal(n)[..|Decimal(n)|] == Decimal(n);
  }

  /** On a string of digits the digit run is the whole string. */
  lemma {:induction false} AllDigitsRun(s: string)
    requires AllDigits(s)
    ensures DigitRun(s) == |s|
    decreases |s|
  {
    if s != [] {
      assert AllDigits(s[1..]) by {
        forall i | 0 <= i < |s[1..]| ensures IsDigit(s[1..][i]) {
          assert s[1..][i] == s[i + 1];
        }
      }
      AllDigitsRun(s[1..]);
    }
  }

  /** An answer nested under `estadisticas.packs` wins over a `packs` next to it. */
  lemma NestedWins(res: map<string, Json>, nested: map<string, Json>, flat: Json)
    requires "estadisticas" in res && res["estadisticas"] == JObj(map["packs" := JObj(nested)])
    ensures PacksOf(JObj(res)) == Some(JObj(nested))
  {
    assert Get(Get(JObj(res), "estadisticas").value, "packs") == Some(JObj(nested));
  }

  /** An answer of an unknown shape leaves every counter as it was. */
  lemma UnknownShapeKeepsCounters(s: Stats, res: map<string, Json>)
    requires "estadisticas" !in res && "packs" !in res && "pagada" !in res && "reservada" !in res
    ensures LoadStats(s, JObj(res)) == s
  {
  }

  /** The player's home page opens only with a (non-zero) user id; otherwise it goes to the
      login page before loading anything. */
  function CanOpen(userId: Option<int>): (ok: bool)
    ensures ok <==> userId.Some? && userId.value != 0
  {
    TruthyInt(userId)
  }
}
