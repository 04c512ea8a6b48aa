/** The header-stripping script: two regular-expression substitutions that delete the
    page's top header block, and the decision to rewrite a file. The directory walk, the
    reads, the writes and the printing are left to the caller; what remains is the text
    transform and the per-file decision. */
module RemoveHeaders {
  import opened Wrappers
  import opened Text
  import Lists

  const Marker: string := "<!-- Top Header -->"
  const Open: string := "<header class=\"top-header\">"
  const Close: string := "</header>"

  /** Python's `\s` in a `str` pattern: the characters for which `str.isspace()` holds. */
  predicate PySpace(c: char) {
    || '\t' <= c <= '\r' || '\U{001C}' <= c <= '\U{001F}' || c == ' '
    || c == '\U{0085}' || c == '\U{00A0}' || c == '\U{1680}' || '\U{2000}' <= c <= '\U{200A}'
    || c == '\U{2028}' || c == '\U{2029}' || c == '\U{202F}' || c == '\U{205F}' || c == '\U{3000}'
  }

  /** Length of the whitespace run `\s*` takes at the start of `s` (all of it: `\s*` is
      greedy, and giving characters back never helps since every literal that follows
      starts with '<'). */
  function SpaceRun(s: string): (n: nat)
    ensures n <= |s|
    decreases |s|
  {
    if |s| == 0 || !PySpace(s[0]) then 0 else 1 + SpaceRun(s[1..])
  }

  /** Length of a match of `<header class="top-header">.*?</header>` (with `re.DOTALL`) at the
      start of `s`, for the opening tag `open` and the closing tag `close`: the opening tag,
      then everything up to the FIRST closing tag after it. */
  function MatchHeader(s: string, open: string, close: string): (r: Option<nat>)
    ensures r.Some? ==> StartsWith(s, open) && |open| + |close| <= r.value <= |s|
  {
    if !StartsWith(s, open) then None
    else
      match Find(s[|open|..], close)
      case None => None
      case Some(k) => Some(|open| + k + |close|)
  }

  /** A pattern of the script: optional leading whitespace, for the marker pattern the
      marker comment and more whitespace, then the header block between `open` and the
      first `close`. */
  datatype Pattern =
    | WithMarker(mark: string, open: string, close: string)
    | Plain(open: string, close: string)

  /** `\s*<!-- Top Header -->\s*<header class="top-header">.*?</header>` */
  const MarkerPattern: Pattern := WithMarker(Marker, Open, Close)
  /** `\s*<header class="top-header">.*?</header>` */
  const PlainPattern: Pattern := Plain(Open, Close)

  /** The literals behind the whitespace runs begin with '<', which is not whitespace: this
      is what makes the greedy `\s*` take the whole run. */
  predicate TagsAfterSpace(p: Pattern) {
    && |p.open| > 0 && p.open[0] == '<'
    && (p.WithMarker? ==> |p.mark| > 0 && p.mark[0] == '<')
  }

  /** Length of a match of the plain pattern at the start of `s`: the whitespace run, then
      the header block. */
  function MatchPlain(s: string, open: string, close: string): (r: Option<nat>)
    ensures r.Some? ==> |open| + |close| <= r.value <= |s|
  {
    var w := SpaceRun(s);
    match MatchHeader(s[w..], open, close)
    case None => None
    case Some(n) => Some(w + n)
  }

  /** Length of a match of the marker pattern at the start of `s`: the whitespace run, the
      marker comment `mark`, then what the plain pattern matches. */
  function MatchMarked(s: string, mark: string, open: string, close: string): (r: Option<nat>)
    ensures r.Some? ==> |open| + |close| <= r.value <= |s|
  {
    var w := SpaceRun(s);
    if !StartsWith(s[w..], mark) then None
    else
      var m := w + |mark|;
      match MatchPlain(s[m..], open, close)
      case None => None
      case Some(n) => Some(m + n)
  }

  /** Length of the match of pattern `p` at the start of `s`, or `None`. */
  function MatchAt(p: Pattern, s: string): (r: Option<nat>)
    ensures r.Some? ==> |p.open| <= r.value <= |s|
  {
    match p
    case Plain(open, close) => MatchPlain(s, open, close)
    case WithMarker(mark, open, close) => MatchMarked(s, mark, open, close)
  }

  /** `pattern.sub('', s)`: scanning left to right, each leftmost match is deleted and
      the scan resumes after it; where nothing matches, one character is kept. */
  function Sub(p: Pattern, s: string): (r: string)
    ensures |r| <= |s|
    decreases |s|
  {
    if s == [] then []
    else match MatchAt(p, s)
      case Some(n) => if n == 0 then [s[0]] + Sub(p, s[1..]) else Sub(p, s[n..])
      case None => [s[0]] + Sub(p, s[1..])
  }

  /** The script's transform: the marker pattern over the whole text, then the plain
      pattern over what is left. */
  function RemoveHeaders(s: string): (r: string)
    ensures |r| <= |s|
  {
    Sub(PlainPattern, Sub(MarkerPattern, s))
  }

  /* ---------- what a match needs ---------- */

  /** Every match contains the pattern's opening tag. */
  lemma MatchNeedsOpen(p: Pattern, s: string)
    requires MatchAt(p, s).Some?
    ensures Contains(s, p.open)
  {
    var start := OpenOfMatch(p, s);
    OccursContained(s, p.open, start);
  }

  lemma OccursContained(s: string, t: string, i: int)
    requires OccursAt(s, t, i)
    ensures Contains(s, t)
  {
  }

  /** Where in `s` the opening tag of a match stands. */
  lemma OpenOfMatch(p: Pattern, s: string) returns (start: nat)
    requires MatchAt(p, s).Some?
    ensures OccursAt(s, p.open, start)
  {
    match p
    case Plain(open, close) =>
      start := PlainOpen(s, open, close);
    case WithMarker(mark, open, close) =>
      start := MarkedOpen(s, mark, open, close);
  }

  /** A plain match has the opening tag right after its whitespace run. */
  lemma PlainOpen(s: string, open: string, close: string) returns (w: nat)
    requires MatchPlain(s, open, close).Some?
    ensures OccursAt(s, open, w)
  {
    w := SpaceRun(s);
    assert StartsWith(s[w..], open);
    assert s[w..w + |open|] == s[w..][..|open|];
  }

  /** A marker match has the opening tag behind the marker and the whitespace after it. */
  lemma MarkedOpen(s: string, mark: string, open: string, close: string) returns (start: nat)
    requires MatchMarked(s, mark, open, close).Some?
    ensures OccursAt(s, open, start)
  {
    var m := MarkedRest(s, mark, open, close);
    var j := PlainOpen(s[m..], open, close);
    start := m + j;
    OccursInSuffix(s, m, open, j);
  }

  /** Behind the marker of a marker match the plain pattern matches. */
  lemma MarkedRest(s: string, mark: string, open: string, close: string) returns (m: nat)
    requires MatchMarked(s, mark, open, close).Some?
    ensures m <= |s| && MatchPlain(s[m..], open, close).Some?
  {
    m := SpaceRun(s) + |mark|;
  }

  /** An occurrence in a suffix is an occurrence in the whole text. */
  lemma OccursInSuffix(s: string, m: nat, t: string, j: nat)
    requires m <= |s| && OccursAt(s[m..], t, j)
    ensures OccursAt(s, t, m + j)
  {
    assert s[m + j..m + j + |t|] == s[m..][j..j + |t|];
  }

  lemma NoOpenInTail(s: string, t: string)
    requires |s| > 0 && !Contains(s, t)
    ensures !Contains(s[1..], t)
  {
    forall j | 0 <= j ensures !OccursAt(s[1..], t, j) {
      OccursShift(s, t, j + 1);
    }
  }

  /** Text without the opening tag is left exactly as it was. */
  lemma {:induction false} SubUnchanged(p: Pattern, s: string)
    requires !Contains(s, p.open)
    ensures Sub(p, s) == s
    decreases |s|
  {
    if s != [] {
      if MatchAt(p, s).Some? {
        MatchNeedsOpen(p, s);
      }
      NoOpenInTail(s, p.open);
      SubUnchanged(p, s[1..]);
      assert [s[0]] + s[1..] == s;
    }
  }

  lemma RemoveHeadersUnchanged(s: string)
    requires !Contains(s, Open)
    ensures RemoveHeaders(s) == s
  {
    SubUnchanged(MarkerPattern, s);
    SubUnchanged(PlainPattern, s);
  }

  /** A substitution only deletes characters: the output is a subsequence of the input. */
  lemma {:induction false} SubDeletesOnly(p: Pattern, s: string)
    ensures Lists.Subseq(Sub(p, s), s)
    decreases |s|
  {
    if s != [] {
      var r := MatchAt(p, s);
      if r.Some? && r.value > 0 {
        SubAfterMatch(p, s, r.value);
        SubDeletesOnly(p, s[r.value..]);
        Lists.SubseqOfSuffix(Sub(p, s[r.value..]), s, r.value);
      } else {
        SubKeepsFirst(p, s);
        SubDeletesOnly(p, s[1..]);
        Lists.SubseqKeepHead(Sub(p, s[1..]), s);
      }
    }
  }

  /** Where nothing of positive length matches, the first character is kept. */
  lemma SubKeepsFirst(p: Pattern, s: string)
    requires s != [] && !(MatchAt(p, s).Some? && MatchAt(p, s).value > 0)
    ensures Sub(p, s) == [s[0]] + Sub(p, s[1..])
  {
  }

  /* ---------- what exactly is removed ---------- */

  /** `ws` is all whitespace and `t` starts with '<': the run taken by `\s*` is exactly `ws`. */
  lemma {:induction false} SpaceRunBeforeTag(ws: string, t: string)
    requires forall i :: 0 <= i < |ws| ==> PySpace(ws[i])
    requires |t| > 0 && t[0] == '<'
    ensures SpaceRun(ws + t) == |ws|
    decreases |ws|
  {
    if ws == [] {
      assert ws + t == t;
    } else {
      assert (ws + t)[1..] == ws[1..] + t;
      SpaceRunBeforeTag(ws[1..], t);
    }
  }

  /** The closing tag ends the first time it occurs after the opening tag. */
  lemma HeaderMatch(open: string, close: string, body: string, rest: string)
    requires forall i :: 0 <= i < |body| ==> !OccursAt(body + close, close, i)
    ensures MatchHeader(open + (body + close + rest), open, close) == Some(|open| + |body| + |close|)
  {
    var bc := body + close;
    var u := bc + rest;
    var s := open + u;
    assert s[..|open|] == open;
    assert s[|open|..] == u;
    assert u[|body|..|body| + |close|] == bc[|body|..] == close;
    assert OccursAt(u, close, |body|);
    forall i | 0 <= i < |body| ensures !OccursAt(u, close, i) {
      assert u[i..i + |close|] == bc[i..i + |close|];
      assert !OccursAt(bc, close, i);
    }
    assert Contains(u, close);
    FindFirst(u, close);
    var r := Find(u, close);
    assert r == Some(|body|);
  }

  /** Whitespace, then a header block: the plain pattern matches up to the end of the block. */
  lemma PlainMatch(ws: string, open: string, close: string, body: string, rest: string)
    requires forall i :: 0 <= i < |ws| ==> PySpace(ws[i])
    requires |open| > 0 && open[0] == '<'
    requires forall i :: 0 <= i < |body| ==> !OccursAt(body + close, close, i)
    ensures MatchPlain(ws + open + body + close + rest, open, close)
              == Some(|ws + open + body + close|)
  {
    var h := open + (body + close + rest);
    var s := ws + h;
    assert s == ws + open + body + close + rest;
    SpaceRunBeforeTag(ws, h);
    assert s[|ws|..] == h;
    HeaderMatch(open, close, body, rest);
  }

  /** Whitespace, the marker, then text the plain pattern matches: the marker pattern
      matches all of that. */
  lemma MarkedMatch(ws: string, mark: string, u: string, open: string, close: string, n: nat)
    requires forall i :: 0 <= i < |ws| ==> PySpace(ws[i])
    requires |mark| > 0 && mark[0] == '<'
    requires MatchPlain(u, open, close) == Some(n)
    ensures MatchMarked(ws + mark + u, mark, open, close) == Some(|ws + mark| + n)
  {
    var s := ws + mark + u;
    assert SpaceRun(s) == |ws| by {
      assert s == ws + (mark + u);
      SpaceRunBeforeTag(ws, mark + u);
    }
    assert StartsWith(s[|ws|..], mark) by {
      assert s[|ws|..][..|mark|] == mark;
    }
    assert s[|ws| + |mark|..] == u;
  }

  /** After a match the scan resumes behind it. */
  lemma SubResumes(p: Pattern, pre: string, rest: string)
    requires |pre| > 0 && MatchAt(p, pre + rest) == Some(|pre|)
    ensures Sub(p, pre + rest) == Sub(p, rest)
  {
    assert (pre + rest)[|pre|..] == rest;
  }

  /** The plain pattern deletes the whole whitespace run before the opening tag, the tag
      and everything up to the first closing tag; the scan resumes after it. */
  lemma PlainRemovesSpan(p: Pattern, ws: string, body: string, rest: string)
    requires p.Plain? && TagsAfterSpace(p)
    requires forall i :: 0 <= i < |ws| ==> PySpace(ws[i])
    requires forall i :: 0 <= i < |body| ==> !OccursAt(body + p.close, p.close, i)
    ensures MatchAt(p, ws + p.open + body + p.close + rest) == Some(|ws + p.open + body + p.close|)
    ensures Sub(p, ws + p.open + body + p.close + rest) == Sub(p, rest)
  {
    PlainMatch(ws, p.open, p.close, body, rest);
    SubResumes(p, ws + p.open + body + p.close, rest);
  }

  /** The marker pattern deletes the whitespace before the marker, the marker, the
      whitespace after it, the opening tag and everything up to the first closing tag. */
  lemma MarkerRemovesSpan(p: Pattern, ws: string, ws2: string, body: string, rest: string)
    requires p.WithMarker? && TagsAfterSpace(p)
    requires forall i :: 0 <= i < |ws| ==> PySpace(ws[i])
    requires forall i :: 0 <= i < |ws2| ==> PySpace(ws2[i])
    requires forall i :: 0 <= i < |body| ==> !OccursAt(body + p.close, p.close, i)
    ensures MatchAt(p, ws + p.mark + (ws2 + p.open + body + p.close + rest))
              == Some(|ws + p.mark| + |ws2 + p.open + body + p.close|)
    ensures Sub(p, ws + p.mark + (ws2 + p.open + body + p.close + rest)) == Sub(p, rest)
  {
    MarkedBlock(p, ws, ws2, body, rest);
    SubResumesPair(p, ws + p.mark, ws2 + p.open + body + p.close, rest);
  }

  /** Whitespace, the marker, whitespace, then a header block: the marker pattern matches
      up to the end of the block. */
  lemma MarkedBlock(p: Pattern, ws: string, ws2: string, body: string, rest: string)
    requires p.WithMarker? && TagsAfterSpace(p)
    requires forall i :: 0 <= i < |ws| ==> PySpace(ws[i])
    requires forall i :: 0 <= i < |ws2| ==> PySpace(ws2[i])
    requires forall i :: 0 <= i < |body| ==> !OccursAt(body + p.close, p.close, i)
    ensures MatchAt(p, ws + p.mark + (ws2 + p.open + body + p.close + rest))
              == Some(|ws + p.mark| + |ws2 + p.open + body + p.close|)
  {
    PlainMatch(ws2, p.open, p.close, body, rest);
    MarkedFromPlain(p, ws, ws2 + p.open + body + p.close + rest, |ws2 + p.open + body + p.close|);
  }

  /** Whitespace and the marker in front of a plain match make a marker match. */
  lemma MarkedFromPlain(p: Pattern, ws: string, u: string, n: nat)
    requires p.WithMarker? && TagsAfterSpace(p)
    requires forall i :: 0 <= i < |ws| ==> PySpace(ws[i])
    requires MatchPlain(u, p.open, p.close) == Some(n)
    ensures MatchAt(p, ws + p.mark + u) == Some(|ws + p.mark| + n)
  {
    MarkedMatch(ws, p.mark, u, p.open, p.close, n);
  }

  /** After a match of `a` and `b` the scan resumes behind them. */
  lemma SubResumesPair(p: Pattern, a: string, b: string, rest: string)
    requires |a| + |b| > 0 && MatchAt(p, a + (b + rest)) == Some(|a| + |b|)
    ensures Sub(p, a + (b + rest)) == Sub(p, rest)
  {
    var s, n := a + (b + rest), |a| + |b|;
    assert s[n..] == rest;
    SubAfterMatch(p, s, n);
  }

  /** A match of length `n > 0` at the front is deleted and the scan goes on behind it. */
  lemma SubAfterMatch(p: Pattern, s: string, n: nat)
    requires n > 0 && MatchAt(p, s) == Some(n)
    ensures Sub(p, s) == Sub(p, s[n..])
  {
  }

  /** Both patterns of the script have literals that start with '<'. */
  lemma ScriptPatternsTagged()
    ensures TagsAfterSpace(MarkerPattern) && TagsAfterSpace(PlainPattern)
  {
  }

  /* ---------- the per-file decision ---------- */

  /** What the script does with one file of the walk. */
  datatype FileAction =
    | NotHtml                                 // the name does not end in ".html"
    | Unchanged                               // no header found: the file is left alone
    | Rewrite(content: string, notice: string) // the new text, and the line printed

  /** The loop body for a file `name` found at `path` with text `content`. */
  function ProcessFile(name: string, path: string, content: string): (r: FileAction)
    ensures r.NotHtml? <==> !EndsWith(name, ".html")
    ensures r.Rewrite? ==> r.content == RemoveHeaders(content) && r.content != content
    ensures r.Rewrite? ==> r.notice == "Removed header from " + path
    ensures EndsWith(name, ".html") && RemoveHeaders(content) != content ==> r.Rewrite?
  {
    if !EndsWith(name, ".html") then NotHtml
    else
      var updated := RemoveHeaders(content);
      if updated != content then Rewrite(updated, "Removed header from " + path) else Unchanged
  }

  /** A file without the opening tag is never rewritten. */
  lemma HeaderlessFileKept(name: string, path: string, content: string)
    requires !Contains(content, Open)
    ensures !ProcessFile(name, path, content).Rewrite?
  {
    RemoveHeadersUnchanged(content);
  }
}
