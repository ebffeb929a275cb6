/** The code-block pattern of `parseMinguCodeBlock` (src/messageParser.ts),
    the regular expression /```myst\s*\n([\s\S]*?)```/ applied with
    `String.prototype.match`: the leftmost opener wins, `\s*` is greedy and
    the capture is lazy. `IsMatch` lists every way the pattern can match;
    `Preferred` is the one a backtracking engine reports; `FindBlock` computes
    it by a direct scan. */
module Fence {
  import opened Wrappers
  import opened JsString

  const Opener: string := "```myst"
  const Closer: string := "```"

  /** No backtick anywhere in `s`, so no fence can start inside it. */
  predicate NoBacktick(s: string) {
    forall i :: 0 <= i < |s| ==> s[i] != '`'
  }

  lemma NoBacktickConcat(a: string, b: string)
    requires NoBacktick(a) && NoBacktick(b)
    ensures NoBacktick(a + b)
  {
    forall i | 0 <= i < |a + b| ensures (a + b)[i] != '`' {
      if i >= |a| { assert (a + b)[i] == b[i - |a|]; }
    }
  }

  predicate OpenerAt(s: string, p: int) {
    0 <= p && p + |Opener| <= |s| && s[p..p + |Opener|] == Opener
  }

  predicate CloserAt(s: string, e: int) {
    0 <= e && e + |Closer| <= |s| && s[e..e + |Closer|] == Closer
  }

  predicate SpaceBetween(s: string, a: int, b: int)
    requires 0 <= a <= b <= |s|
  {
    forall j :: a <= j < b ==> IsSpace(s[j])
  }

  /** The pattern matches `s` with the opener at `p`, `\s*\n` covering
      `[p + 7, c)` and the capture `[c, e)` followed by the closing fence. */
  ghost predicate IsMatch(s: string, p: int, c: int, e: int) {
    && OpenerAt(s, p)
    && p + |Opener| < c <= e <= |s|
    && s[c - 1] == '\n'
    && SpaceBetween(s, p + |Opener|, c - 1)
    && CloserAt(s, e)
  }

  /** The match reported: leftmost opener, then the longest `\s*` (largest
      `c`), then the shortest capture (smallest `e`). */
  ghost predicate Preferred(s: string, p: int, c: int, e: int) {
    && IsMatch(s, p, c, e)
    && forall p', c', e' :: IsMatch(s, p', c', e') ==>
         p < p' || (p == p' && (c' < c || (c' == c && e <= e')))
  }

  /** The capture never contains the closing fence: the lazy `*?` stops at the
      first one. */
  lemma PreferredCaptureHasNoCloser(s: string, p: nat, c: nat, e: nat, j: nat)
    requires Preferred(s, p, c, e)
    requires c <= j < e
    ensures !CloserAt(s, j)
  {
    ShorterCapture(s, p, c, e, j);
  }

  /** Any closing fence inside a capture would end a shorter match. */
  lemma ShorterCapture(s: string, p: int, c: int, e: int, j: int)
    requires IsMatch(s, p, c, e)
    requires c <= j < e
    ensures CloserAt(s, j) ==> IsMatch(s, p, c, j)
  {
  }

  /** The reported match is unique. */
  lemma PreferredUnique(s: string, p: int, c: int, e: int, p': int, c': int, e': int)
    requires Preferred(s, p, c, e) && Preferred(s, p', c', e')
    ensures p == p' && c == c' && e == e'
  {
  }

  lemma CloserIsBacktick(s: string, e: nat)
    requires CloserAt(s, e)
    ensures s[e] == '`'
  {
    assert s[e..e + |Closer|][0] == s[e];
  }

  /** First index at or after `q` that is not white space (or `|s|`). */
  function SpaceEnd(s: string, q: nat): (w: nat)
    requires q <= |s|
    ensures q <= w <= |s|
    ensures SpaceBetween(s, q, w)
    ensures w < |s| ==> !IsSpace(s[w])
    decreases |s| - q
  {
    if q == |s| || !IsSpace(s[q]) then q else SpaceEnd(s, q + 1)
  }

  /** The last line feed in `[q, w)`, if any. */
  function LastNewline(s: string, q: nat, w: nat): (n: Option<nat>)
    requires q <= w <= |s|
    ensures n.Some? ==> q <= n.value < w && s[n.value] == '\n'
    ensures n.Some? ==> forall j :: n.value < j < w ==> s[j] != '\n'
    ensures n.None? ==> forall j :: q <= j < w ==> s[j] != '\n'
    decreases w - q
  {
    if w == q then None
    else if s[w - 1] == '\n' then Some(w - 1)
    else LastNewline(s, q, w - 1)
  }

  /** The first closing fence at or after `i`. */
  function FindCloser(s: string, i: nat): (e: Option<nat>)
    requires i <= |s|
    ensures e.Some? ==> i <= e.value <= |s| && CloserAt(s, e.value)
    ensures e.Some? ==> forall j :: i <= j < e.value ==> !CloserAt(s, j)
    ensures e.None? ==> forall j :: i <= j ==> !CloserAt(s, j)
    decreases |s| - i
  {
    if i + |Closer| > |s| then None
    else if s[i..i + |Closer|] == Closer then Some(i)
    else FindCloser(s, i + 1)
  }

  /** The pattern tried with its opener at `p`: the capture bounds `(c, e)`
      the engine settles on there, or `None` when no match starts at `p`. */
  function MatchAt(s: string, p: nat): (m: Option<(nat, nat)>)
    requires p <= |s|
    ensures m.Some? ==> IsMatch(s, p, m.value.0, m.value.1)
    ensures m.Some? ==> forall c', e' :: IsMatch(s, p, c', e') ==>
      c' < m.value.0 || (c' == m.value.0 && m.value.1 <= e')
    ensures m.None? ==> forall c', e' :: !IsMatch(s, p, c', e')
  {
    if !OpenerAt(s, p) then None
    else
      var q := p + |Opener|;
      var w := SpaceEnd(s, q);
      match LastNewline(s, q, w)
      case None =>
        NoNewlineNoMatch(s, p, w);
        None
      case Some(n) =>
        GreedyNewline(s, p, w, n);
        match FindCloser(s, n + 1)
        case None =>
          NoCloserNoMatch(s, p, w, n);
          None
        case Some(e) => Some((n + 1, e))
  }

  /** Any match at `p` ends its `\s*\n` inside the white-space run `[q, w)`. */
  lemma NewlineInsideRun(s: string, p: nat, w: nat, c: nat, e: nat)
    requires OpenerAt(s, p) && w == SpaceEnd(s, p + |Opener|)
    requires IsMatch(s, p, c, e)
    ensures c - 1 < w
  {
  }

  lemma NoNewlineNoMatch(s: string, p: nat, w: nat)
    requires OpenerAt(s, p) && w == SpaceEnd(s, p + |Opener|)
    requires LastNewline(s, p + |Opener|, w).None?
    ensures forall c', e' :: !IsMatch(s, p, c', e')
  {
    forall c', e' | IsMatch(s, p, c', e') ensures false {
      NewlineInsideRun(s, p, w, c', e');
    }
  }

  lemma GreedyNewline(s: string, p: nat, w: nat, n: nat)
    requires OpenerAt(s, p) && w == SpaceEnd(s, p + |Opener|)
    requires LastNewline(s, p + |Opener|, w) == Some(n)
    ensures forall c', e' :: IsMatch(s, p, c', e') ==> c' <= n + 1
  {
    forall c', e' | IsMatch(s, p, c', e') ensures c' <= n + 1 {
      NewlineInsideRun(s, p, w, c', e');
    }
  }

  lemma NoCloserNoMatch(s: string, p: nat, w: nat, n: nat)
    requires OpenerAt(s, p) && w == SpaceEnd(s, p + |Opener|)
    requires LastNewline(s, p + |Opener|, w) == Some(n)
    requires FindCloser(s, n + 1).None?
    ensures forall c', e' :: !IsMatch(s, p, c', e')
  {
    GreedyNewline(s, p, w, n);
    forall c', e' | IsMatch(s, p, c', e') ensures false {
      if e' <= n {
        CloserIsBacktick(s, e');
      }
    }
  }

  /** The leftmost opener at or after `p` at which the pattern matches. */
  function FindFrom(s: string, p: nat): (m: Option<(nat, nat, nat)>)
    requires p <= |s|
    ensures m.Some? ==> p <= m.value.0 && IsMatch(s, m.value.0, m.value.1, m.value.2)
    ensures m.Some? ==> forall p', c', e' :: IsMatch(s, p', c', e') && p <= p' ==>
      m.value.0 < p' || (m.value.0 == p' && (c' < m.value.1 || (c' == m.value.1 && m.value.2 <= e')))
    ensures m.None? ==> forall p', c', e' :: p <= p' ==> !IsMatch(s, p', c', e')
    decreases |s| - p
  {
    match MatchAt(s, p)
    case Some((c, e)) => Some((p, c, e))
    case None =>
      if p == |s| then None else FindFrom(s, p + 1)
  }

  /** The bounds `(p, c, e)` of the match `String.prototype.match` reports,
      or `None` when the pattern does not match `s` at all. */
  function FindBlock(s: string): (m: Option<(nat, nat, nat)>)
    ensures m.Some? ==> Preferred(s, m.value.0, m.value.1, m.value.2)
    ensures m.None? ==> forall p, c, e :: !IsMatch(s, p, c, e)
  {
    FindFrom(s, 0)
  }

  /** The capture group of the reported match. */
  function Capture(s: string): (r: Option<string>)
    ensures r.Some? <==> exists p, c, e :: IsMatch(s, p, c, e)
    ensures r.Some? ==> exists p, c, e :: Preferred(s, p, c, e) && r.value == s[c..e]
  {
    match FindBlock(s)
    case None => None
    case Some((p, c, e)) => Some(s[c..e])
  }

  /** Wrapping backtick-free content `x` in an opener line and a closing
      fence, after any backtick-free text, gives back exactly `x`: the
      extraction inverts the block format, provided `x` does not start with
      white space (which the greedy `\s*` would swallow). */
  lemma CaptureOfWrapped(pre: string, x: string)
    requires NoBacktick(pre) && NoBacktick(x)
    requires |x| > 0 ==> !IsSpace(x[0])
    ensures Capture(pre + Opener + "\n" + x + Closer) == Some(x)
  {
    var s := pre + Opener + "\n" + x + Closer;
    var p, c, e := |pre|, |pre| + |Opener| + 1, |pre| + |Opener| + 1 + |x|;
    assert s[p..p + |Opener|] == Opener;
    assert s[e..e + |Closer|] == Closer;
    assert s[c..e] == x;
    assert s[c - 1] == '\n';
    assert IsMatch(s, p, c, e);
    forall p', c', e' | IsMatch(s, p', c', e')
      ensures p < p' || (p == p' && (c' < c || (c' == c && e <= e')))
    {
      WrappedMatchIsLater(pre, x, p', c', e');
    }
    assert Preferred(s, p, c, e);
    var m := FindBlock(s);
    PreferredUnique(s, p, c, e, m.value.0, m.value.1, m.value.2);
  }

  lemma WrappedMatchIsLater(pre: string, x: string, p': int, c': int, e': int)
    requires NoBacktick(pre) && NoBacktick(x)
    requires |x| > 0 ==> !IsSpace(x[0])
    requires IsMatch(pre + Opener + "\n" + x + Closer, p', c', e')
    ensures var p, c, e := |pre|, |pre| + |Opener| + 1, |pre| + |Opener| + 1 + |x|;
      p < p' || (p == p' && (c' < c || (c' == c && e <= e')))
  {
    var s := pre + Opener + "\n" + x + Closer;
    var p, c, e := |pre|, |pre| + |Opener| + 1, |pre| + |Opener| + 1 + |x|;
    assert s[p'..p' + |Opener|][0] == s[p'];
    assert forall i :: 0 <= i < |pre| ==> s[i] == pre[i];
    assert forall i :: c <= i < e ==> s[i] == x[i - c];
    assert s[c] == if |x| > 0 then x[0] else '`';
    if c' == c && p' == p {
      CloserIsBacktick(s, e');
    }
  }
}
