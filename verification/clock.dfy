/** Time-of-day arithmetic: the "HH:MM" strings of the source and the minute counts
    they stand for. Minutes are counted from midnight; nothing wraps at 24 hours,
    exactly as the source's string arithmetic does not. */
module Clock {
  import opened Wrappers
  import opened Text

  /** `const [h, m] = s.split(':').map(Number); h * 60 + m`, with `NaN` as `None`: a string
      without ':' has no minutes field, and any fields after the second (the seconds of
      "HH:MM:SS") are ignored. */
  function ParseTime(s: string): Option<int> {
    var f := Split(s, ':');
    if |f| < 2 then None else Minutes(NumberOf(f[0]), NumberOf(f[1]))
  }

  /** `h * 60 + m`, where `NaN` in either operand makes the result `NaN`. */
  function Minutes(h: Option<int>, m: Option<int>): Option<int> {
    if h.Some? && m.Some? then Some(h.value * 60 + m.value) else None
  }

  /** `const [h, m] = s.split(':'); parseInt(h) * 60 + parseInt(m)`, with `NaN` as `None`. */
  function ParseTimeLoose(s: string): Option<int> {
    var f := Split(s, ':');
    if |f| < 2 then None else Minutes(ParseIntPrefix(f[0]), ParseIntPrefix(f[1]))
  }

  /** JavaScript's `%`: the remainder takes the sign of the dividend. */
  function JsRem(t: int, d: int): (r: int)
    requires d > 0
  {
    if t >= 0 then t % d else -((-t) % d)
  }

  /** `${Math.floor(t / 60).toString().padStart(2, '0')}:${(t % 60).toString().padStart(2, '0')}`,
      the source's rendering of a minute count as "HH:MM". */
  function FormatTime(t: int): string {
    PadStart(IntToString(t / 60), 2) + ":" + PadStart(IntToString(JsRem(t, 60)), 2)
  }

  /** A two-digit (or wider) field produced by `padStart(2, '0')` on a decimal. */
  lemma PaddedDigits(n: nat)
    ensures AllDigits(PadStart(Decimal(n), 2))
    ensures DigitsValue(PadStart(Decimal(n), 2)) == n
    ensures PadStart(Decimal(n), 2) != ""
  {
    var d := Decimal(n);
    DigitsValueOfDecimal(n);
    if |d| == 1 {
      DigitsValueLeadingZero(d);
      assert PadStart("0" + d, 2) == "0" + d;
    }
  }

  /** Reading back a formatted minute count, followed by nothing or by further
      ':'-separated fields, gives the minute count back. */
  lemma ParseFormatTime(t: nat, suffix: string)
    requires suffix == "" || suffix[0] == ':'
    ensures ParseTime(FormatTime(t) + suffix) == Some(t)
    ensures ParseTimeLoose(FormatTime(t) + suffix) == Some(t)
  {
    var hs := PadStart(Decimal(t / 60), 2);
    var ms := PadStart(Decimal(t % 60), 2);
    PaddedDigits(t / 60);
    PaddedDigits(t % 60);
    assert FormatTime(t) == hs + ":" + ms;
    ParseDigitFields(hs, ms, suffix);
  }

  /** A formatted minute count reads back as itself, with either reading of the fields. */
  lemma ReadBack(t: nat)
    ensures ParseTime(FormatTime(t)) == Some(t)
    ensures ParseTimeLoose(FormatTime(t)) == Some(t)
  {
    ParseFormatTime(t, "");
    assert FormatTime(t) + "" == FormatTime(t);
  }

  /** A string that is a formatted minute count reads back as that count. */
  lemma ReadsAs(x: string, t: nat)
    requires x == FormatTime(t)
    ensures ParseTime(x) == Some(t) && ParseTimeLoose(x) == Some(t)
  {
    ReadBack(t);
  }

  /** Two digit fields separated by ':' read back as hours and minutes. */
  lemma ParseDigitFields(hs: string, ms: string, suffix: string)
    requires AllDigits(hs) && hs != "" && AllDigits(ms) && ms != ""
    requires suffix == "" || suffix[0] == ':'
    ensures ParseTime(hs + ":" + ms + suffix) == Some(DigitsValue(hs) * 60 + DigitsValue(ms))
    ensures ParseTimeLoose(hs + ":" + ms + suffix) == Some(DigitsValue(hs) * 60 + DigitsValue(ms))
  {
    FieldsOfDigits(hs, ms, suffix);
    ParseFields(hs + ":" + ms + suffix, hs, ms);
  }

  lemma ParseFields(s: string, hs: string, ms: string)
    requires AllDigits(hs) && hs != "" && AllDigits(ms) && ms != ""
    requires |Split(s, ':')| >= 2 && Split(s, ':')[0] == hs && Split(s, ':')[1] == ms
    ensures ParseTime(s) == Some(DigitsValue(hs) * 60 + DigitsValue(ms))
    ensures ParseTimeLoose(s) == Some(DigitsValue(hs) * 60 + DigitsValue(ms))
  {
    LooseOnDigits(hs);
    LooseOnDigits(ms);
  }

  lemma FieldsOfDigits(hs: string, ms: string, suffix: string)
    requires AllDigits(hs) && AllDigits(ms)
    requires suffix == "" || suffix[0] == ':'
    ensures |Split(hs + ":" + ms + suffix, ':')| >= 2
    ensures Split(hs + ":" + ms + suffix, ':')[0] == hs
    ensures Split(hs + ":" + ms + suffix, ':')[1] == ms
  {
    var s := hs + ":" + ms + suffix;
    assert s == hs + (":" + ms + suffix);
    SplitAfterDigits(hs, ":" + ms + suffix);
    assert (":" + ms + suffix)[1..] == ms + suffix;
    if suffix == "" {
      assert ms + suffix == ms;
      SplitOfDigits(ms);
    } else {
      SplitAfterDigits(ms, suffix);
    }
  }

  /** A run of digits contains no ':', so it is a single field. */
  lemma {:induction false} SplitOfDigits(d: string)
    requires AllDigits(d)
    ensures Split(d, ':') == [d]
    decreases |d|
  {
    if |d| > 0 {
      SplitOfDigits(d[1..]);
      assert d == [d[0]] + d[1..];
    }
  }

  /** A run of digits followed by ':' is the first field, and the fields after it are
      those of the text after the ':'. */
  lemma {:induction false} SplitAfterDigits(d: string, tail: string)
    requires AllDigits(d)
    requires |tail| > 0 && tail[0] == ':'
    ensures Split(d + tail, ':') == [d] + Split(tail[1..], ':')
    decreases |d|
  {
    if |d| == 0 {
      assert d + tail == tail;
    } else {
      assert (d + tail)[1..] == d[1..] + tail;
      SplitAfterDigits(d[1..], tail);
      assert d == [d[0]] + d[1..];
    }
  }

  /** On a non-empty digit string `parseInt` and `Number` agree. */
  lemma LooseOnDigits(s: string)
    requires AllDigits(s) && s != ""
    ensures ParseIntPrefix(s) == NumberOf(s)
  {
    var k := DigitRun(s);
    assert k == |s|;
    assert s[..k] == s;
  }

  /** Below 100 hours the rendering is exactly five characters, so `substring(0, 5)`
      leaves it unchanged. */
  lemma FormatTimeWidth(t: nat)
    requires t < 6000
    ensures |FormatTime(t)| == 5
  {
    FormatTimeShape(t);
  }

  /** Mapping a JavaScript weekday (0 = Sunday) to the database convention
      (0 = Monday ... 6 = Sunday). */
  function JsDayToDbDay(d: int): (r: int)
    requires 0 <= d <= 6
    ensures 0 <= r <= 6
    ensures (r + 1) % 7 == d
  {
    if d - 1 < 0 then 6 else d - 1
  }

  /** A JavaScript number that may be `NaN` rendered as "HH:MM": `NaN` gives "NaN:NaN". */
  function FormatMaybe(t: Option<int>): string {
    match t
    case Some(v) => FormatTime(v)
    case None => "NaN:NaN"
  }

  /* ---------- "HH:MM" strings order like the times they stand for ---------- */

  lemma Pad2Shape(n: nat)
    requires n < 100
    ensures PadStart(Decimal(n), 2) == [DigitChar(n / 10), DigitChar(n % 10)]
  {
    if n >= 10 {
      assert Decimal(n) == Decimal(n / 10) + [DigitChar(n % 10)];
    }
  }

  /** The five characters of a time below 100 hours. */
  lemma FormatTimeShape(t: nat)
    requires t < 6000
    ensures FormatTime(t) == [DigitChar(t / 60 / 10), DigitChar(t / 60 % 10), ':',
                              DigitChar(t % 60 / 10), DigitChar(t % 60 % 10)]
  {
    Pad2Shape(t / 60);
    Pad2Shape(t % 60);
  }

  /** Lexicographic order on five-character strings, spelled out. */
  lemma LexFive(a: string, b: string)
    requires |a| == 5 && |b| == 5
    ensures LexLe(a, b) <==>
      (a[0] < b[0] || (a[0] == b[0] &&
      (a[1] < b[1] || (a[1] == b[1] &&
      (a[2] < b[2] || (a[2] == b[2] &&
      (a[3] < b[3] || (a[3] == b[3] && a[4] <= b[4]))))))))
  {
    LexStep(a, b);
    LexStep(a[1..], b[1..]);
    assert a[1..][1..] == a[2..] && b[1..][1..] == b[2..];
    LexStep(a[2..], b[2..]);
    assert a[2..][1..] == a[3..] && b[2..][1..] == b[3..];
    LexStep(a[3..], b[3..]);
    assert a[3..][1..] == a[4..] && b[3..][1..] == b[4..];
    LexStep(a[4..], b[4..]);
    assert a[4..][1..] == [] && b[4..][1..] == [];
  }

  lemma LexStep(a: string, b: string)
    requires |a| > 0 && |b| > 0
    ensures LexLe(a, b) <==> a[0] < b[0] || (a[0] == b[0] && LexLe(a[1..], b[1..]))
  {
  }

  lemma DigitCharOrder(x: nat, y: nat)
    requires x < 10 && y < 10
    ensures DigitChar(x) < DigitChar(y) <==> x < y
    ensures DigitChar(x) == DigitChar(y) <==> x == y
  {
  }

  /** Below 100 hours, comparing two rendered times as strings (what `<` and
      `localeCompare` do with them) agrees with comparing the minute counts. */
  lemma FormatTimeOrder(t1: nat, t2: nat)
    requires t1 < 6000 && t2 < 6000
    ensures LexLe(FormatTime(t1), FormatTime(t2)) <==> t1 <= t2
  {
    FormatTimeShape(t1);
    FormatTimeShape(t2);
    LexFive(FormatTime(t1), FormatTime(t2));
    var a0, a1, a3, a4 := t1 / 60 / 10, t1 / 60 % 10, t1 % 60 / 10, t1 % 60 % 10;
    var b0, b1, b3, b4 := t2 / 60 / 10, t2 / 60 % 10, t2 % 60 / 10, t2 % 60 % 10;
    DigitCharOrder(a0, b0);
    DigitCharOrder(a1, b1);
    DigitCharOrder(a3, b3);
    DigitCharOrder(a4, b4);
    assert t1 == 600 * a0 + 60 * a1 + 10 * a3 + a4 && a3 < 6;
    assert t2 == 600 * b0 + 60 * b1 + 10 * b3 + b4 && b3 < 6;
  }
}
