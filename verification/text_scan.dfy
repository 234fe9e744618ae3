/** Text helpers shared by both front-ends of the match engine: the whitespace
    scanner `scan_charNeAll`, the JavaScript string operations the matchers
    use (`substr`, `indexOf`, `trim`) restated over `seq<char>`, the literal
    "first alternative that fits" test, and the lookahead test `peekNext`. */
module TextScan {

  datatype Option<T> = None | Some(value: T)

  /** A match target: one string, or a list of alternatives tried in order. */
  datatype TextArg = One(s: string) | Many(items: seq<string>)

  function Alternatives(t: TextArg): seq<string>
  {
    match t
    case One(s) => [s]
    case Many(items) => items
  }

  /** The character class ' \t\n' used by every whitespace skip. */
  predicate IsWs(c: char)
  {
    c == ' ' || c == '\t' || c == '\n'
  }

  /** `scan_charNeAll(text, ix, ' \t\n')`, with its not-found answer -1 replaced
      by `|text|` as every caller does: the first offset at or after `ix` that
      does not hold whitespace, or the end of the text. */
  function SkipWs(text: string, ix: nat): (r: nat)
    ensures ix <= |text| ==> ix <= r <= |text|
    ensures ix > |text| ==> r == |text|
    ensures forall k :: ix <= k < r ==> IsWs(text[k])
    ensures r < |text| ==> !IsWs(text[r])
    decreases |text| - ix
  {
    if ix >= |text| then |text|
    else if IsWs(text[ix]) then SkipWs(text, ix + 1)
    else ix
  }

  /** The explicit loop of `zeroMoreWhitespace` / `oneMoreWhitespace`: advance
      while the character at the cursor is whitespace. Unlike the scanner, it
      stays put when the cursor is already past the end. Inside the text the
      two agree. */
  function WsRun(text: string, ix: nat): (r: nat)
    ensures ix <= r
    ensures ix > |text| ==> r == ix
    ensures ix <= |text| ==> r == SkipWs(text, ix)
    decreases |text| - ix
  {
    if ix < |text| && IsWs(text[ix]) then WsRun(text, ix + 1) else ix
  }

  /** JavaScript `text.substr(bx, lx)`: both ends are clamped to the text. */
  function Substr(text: string, bx: nat, lx: nat): (r: string)
    ensures bx + lx <= |text| ==> r == text[bx..bx + lx]
    ensures |r| <= lx
  {
    var b := if bx < |text| then bx else |text|;
    var e := if bx + lx < |text| then bx + lx else |text|;
    text[b..e]
  }

  /** `pat` occurs literally at offset `p`. This is exactly the source's test
      `remLx >= pat.length && text.substr(p, pat.length) == pat`. */
  predicate OccursAt(text: string, pat: string, p: nat)
  {
    p + |pat| <= |text| && text[p..p + |pat|] == pat
  }

  /** The index of the first alternative, in declared order, that occurs at
      `at` (the loops of `tm_actual`, `matchText` and `peekNext`). */
  function FirstFit(text: string, at: nat, alts: seq<string>): (r: Option<nat>)
    ensures r.Some? ==> r.value < |alts| && OccursAt(text, alts[r.value], at)
    ensures r.Some? ==> forall k :: 0 <= k < r.value ==> !OccursAt(text, alts[k], at)
    ensures r.None? ==> forall k :: 0 <= k < |alts| ==> !OccursAt(text, alts[k], at)
    decreases |alts|
  {
    if |alts| == 0 then None
    else if OccursAt(text, alts[0], at) then Some(0)
    else
      match FirstFit(text, at, alts[1..])
      case None => None
      case Some(k) => Some(k + 1)
  }

  /** `peekNext(text, ix, match)`: after skipping whitespace from `ix`, does
      one of the alternatives occur there? It reads the text and never moves
      any cursor. */
  function PeekNext(text: string, ix: nat, target: TextArg): (r: bool)
    ensures r <==> exists k :: 0 <= k < |Alternatives(target)|
                               && OccursAt(text, Alternatives(target)[k], SkipWs(text, ix))
  {
    FirstFit(text, SkipWs(text, ix), Alternatives(target)).Some?
  }

  /** The lookahead veto of `processMatchTrue`: a tentative match ending at
      `e` is rejected when a required `peekNextText` is absent after
      whitespace, or a forbidden `peekNextNotText` is present. An empty string
      stands for an option that was not given. */
  predicate LookaheadVetoes(text: string, e: nat, peekNextText: string, peekNextNotText: string)
  {
    || (peekNextText != "" && !PeekNext(text, e, One(peekNextText)))
    || (peekNextNotText != "" && PeekNext(text, e, One(peekNextNotText)))
  }

  /** JavaScript `indexOf(pat, from)` for `from` inside the text: the first
      occurrence of `pat` at or after `from`. */
  function IndexOf(text: string, pat: string, from: nat): (r: Option<nat>)
    ensures r.Some? ==> from <= r.value && OccursAt(text, pat, r.value)
    ensures r.Some? ==> forall q :: from <= q < r.value ==> !OccursAt(text, pat, q)
    ensures r.None? ==> forall q :: from <= q ==> !OccursAt(text, pat, q)
    decreases |text| - from
  {
    if from + |pat| > |text| then None
    else if OccursAt(text, pat, from) then Some(from)
    else IndexOf(text, pat, from + 1)
  }

  /** The whitespace `trim()` removes, restricted to space, tab, newline and
      carriage return. */
  predicate IsTrimWs(c: char)
  {
    c == ' ' || c == '\t' || c == '\n' || c == '\r'
  }

  predicate AllTrimWs(s: string)
  {
    forall k :: 0 <= k < |s| ==> IsTrimWs(s[k])
  }

  /** The first offset at or after `i` that is not whitespace, or `|s|`. */
  function WsFrom(s: string, i: nat): (n: nat)
    requires i <= |s|
    ensures i <= n <= |s|
    ensures forall k :: i <= k < n ==> IsTrimWs(s[k])
    ensures n < |s| ==> !IsTrimWs(s[n])
    decreases |s| - i
  {
    if i < |s| && IsTrimWs(s[i]) then WsFrom(s, i + 1) else i
  }

  /** The offset where the whitespace run that ends at `j` begins, not
      looking below `lo`. */
  function WsUntil(s: string, lo: nat, j: nat): (n: nat)
    requires lo <= j <= |s|
    ensures lo <= n <= j
    ensures forall k :: n <= k < j ==> IsTrimWs(s[k])
    ensures n > lo ==> !IsTrimWs(s[n - 1])
    decreases j
  {
    if j > lo && IsTrimWs(s[j - 1]) then WsUntil(s, lo, j - 1) else j
  }

  /** JavaScript `trim()`: the slice left after removing leading and trailing
      whitespace. */
  function Trim(s: string): (r: string)
    ensures |r| <= |s|
    ensures r == [] || (!IsTrimWs(r[0]) && !IsTrimWs(r[|r| - 1]))
    ensures exists i :: 0 <= i <= |s| - |r| && r == s[i..i + |r|]
                        && AllTrimWs(s[..i]) && AllTrimWs(s[i + |r|..])
  {
    var i := WsFrom(s, 0);
    var e := WsUntil(s, i, |s|);
    assert AllTrimWs(s[..i]) && AllTrimWs(s[e..]);
    s[i..e]
  }

  /** A string that neither starts nor ends with whitespace is its own
      trim. */
  lemma TrimUntouched(s: string)
    requires s == [] || (!IsTrimWs(s[0]) && !IsTrimWs(s[|s| - 1]))
    ensures Trim(s) == s
  {
    assert WsFrom(s, 0) == 0;
    assert WsUntil(s, 0, |s|) == |s|;
  }

  /** Trimming twice is trimming once. */
  lemma TrimIdempotent(s: string)
    ensures Trim(Trim(s)) == Trim(s)
  {
    TrimUntouched(Trim(s));
  }

  /** A one-character pattern occurs exactly where that character stands. */
  lemma NewlineAt(text: string, k: nat)
    ensures OccursAt(text, "\n", k) <==> k < |text| && text[k] == '\n'
  {
    if k < |text| {
      assert text[k..k + 1] == [text[k]];
    }
  }
}
