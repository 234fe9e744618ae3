/** The regular-expression side of the matchers.

    `regex_exec(text, ix, pattern)` is a library call: it searches `text` from
    offset `ix` for the leftmost match of `pattern` and answers where that
    match begins relative to `ix` (`matchOx`) and how long it is (`matchLx`).
    Here an executor bound to its pattern is a plain function value `Exec`,
    which callers supply; `Sound` is the contract it is trusted to meet.

    The two patterns the engine itself builds, identifier and literal, are
    given concretely: identifier is `[A-Za-z_]` followed by `rxp.zeroMoreWord`,
    taken to be `\w*`; literal is a digit run, a single-quoted string or a
    double-quoted string, with the quoted forms taken to be `'[^']*'` and
    `"[^"]*"`. */
module Regex {
  import opened TextScan

  /** The part of `regex_exec`'s answer the matchers read. The match begins
      at `ix + ox`, which is the source's `matchBx`. */
  datatype Search = NoMatch | Found(ox: nat, lx: nat)

  /** `regex_exec(·, ·, pattern)` for one fixed pattern. */
  type Exec = (string, nat) -> Search

  /** A match reported from an offset inside the text lies inside the text. */
  ghost predicate Sound(exec: Exec)
  {
    forall text: string, ix: nat ::
      ix <= |text| && exec(text, ix).Found? ==> ix + exec(text, ix).ox + exec(text, ix).lx <= |text|
  }

  predicate IsIdentStart(c: char)
  {
    ('A' <= c <= 'Z') || ('a' <= c <= 'z') || c == '_'
  }

  predicate IsDigit(c: char)
  {
    '0' <= c <= '9'
  }

  /** `\w` */
  predicate IsWordChar(c: char)
  {
    IsIdentStart(c) || IsDigit(c)
  }

  datatype CharClass = WordChars | Digits

  predicate InClass(cls: CharClass, c: char)
  {
    match cls
    case WordChars => IsWordChar(c)
    case Digits => IsDigit(c)
  }

  /** Length of the greedy run of `cls` characters starting at `ix`. */
  function ClassRun(text: string, ix: nat, cls: CharClass): (r: nat)
    ensures ix >= |text| ==> r == 0
    ensures ix < |text| ==> ix + r <= |text|
    ensures forall k :: ix <= k < ix + r ==> InClass(cls, text[k])
    ensures ix + r < |text| ==> !InClass(cls, text[ix + r])
    decreases |text| - ix
  {
    if ix < |text| && InClass(cls, text[ix]) then 1 + ClassRun(text, ix + 1, cls) else 0
  }

  predicate IsQuote(c: char)
  {
    c == '\'' || c == '"'
  }

  /** A literal begins at `p`: a digit, or a quote that is closed by an
      equal quote later in the text. */
  predicate LiteralStartsAt(text: string, p: nat)
  {
    p < |text| && (IsDigit(text[p]) || (IsQuote(text[p]) && exists q :: p < q < |text| && text[q] == text[p]))
  }

  /** A literal of length `n` begins at `p`: the whole run of digits that
      starts there, or a quote together with everything up to and including
      the next equal quote. */
  predicate LiteralAt(text: string, p: nat, n: nat)
  {
    && 0 < n && p + n <= |text|
    && if IsDigit(text[p]) then
         && (forall k :: p <= k < p + n ==> IsDigit(text[k]))
         && (p + n == |text| || !IsDigit(text[p + n]))
       else
         && IsQuote(text[p]) && 2 <= n && text[p + n - 1] == text[p]
         && (forall k :: p < k < p + n - 1 ==> text[k] != text[p])
  }

  datatype Pattern = IdentifierPattern | LiteralPattern

  /** The length of the match of `pat` that begins exactly at `p`, if any. */
  function MatchAt(pat: Pattern, text: string, p: nat): (r: Option<nat>)
    ensures r.Some? ==> 0 < r.value && p + r.value <= |text|
    ensures pat == IdentifierPattern ==> (r.Some? <==> p < |text| && IsIdentStart(text[p]))
  {
    if p >= |text| then None
    else
      match pat
      case IdentifierPattern =>
        if IsIdentStart(text[p]) then Some(1 + ClassRun(text, p + 1, WordChars)) else None
      case LiteralPattern =>
        if IsDigit(text[p]) then Some(ClassRun(text, p, Digits))
        else if text[p] == '\'' || text[p] == '"' then
          match IndexOf(text, [text[p]], p + 1)
          case Some(close) => Some(close + 1 - p)
          case None => None
        else None
  }

  /** Leftmost search from `q` onwards, reporting offsets relative to `ix`. */
  function Scan(pat: Pattern, text: string, ix: nat, q: nat): (r: Search)
    requires ix <= q
    ensures r.Found? ==> q <= ix + r.ox && MatchAt(pat, text, ix + r.ox) == Some(r.lx)
    ensures r.Found? ==> forall p :: q <= p < ix + r.ox ==> MatchAt(pat, text, p).None?
    ensures r.NoMatch? ==> forall p :: q <= p ==> MatchAt(pat, text, p).None?
    decreases |text| - q
  {
    if q >= |text| then NoMatch
    else
      match MatchAt(pat, text, q)
      case Some(lx) => Found(q - ix, lx)
      case None => Scan(pat, text, ix, q + 1)
  }

  /** `regex_exec(text, ix, pattern)` for one of the engine's own patterns:
      the leftmost match at or after `ix`. It begins at the search start
      exactly when the pattern matches there. */
  function Execute(pat: Pattern, text: string, ix: nat): (r: Search)
    ensures (r.Found? && r.ox == 0) <==> MatchAt(pat, text, ix).Some?
    ensures r.Found? && r.ox == 0 ==> MatchAt(pat, text, ix) == Some(r.lx)
    ensures r.Found? ==> ix + r.ox + r.lx <= |text|
  {
    Scan(pat, text, ix, ix)
  }

  function IdentifierExec(text: string, ix: nat): Search
  {
    Execute(IdentifierPattern, text, ix)
  }

  function LiteralExec(text: string, ix: nat): Search
  {
    Execute(LiteralPattern, text, ix)
  }

  /** Both built-in executors meet the contract trusted of `regex_exec`. */
  lemma BuiltInExecutorsAreSound()
    ensures Sound(IdentifierExec) && Sound(LiteralExec)
  {
  }

  /** An identifier is accepted at `ix` exactly when a letter or underscore
      stands there, and then it extends over the whole following run of word
      characters. */
  lemma IdentifierAnchoredAtStart(text: string, ix: nat)
    ensures var r := IdentifierExec(text, ix);
            (r.Found? && r.ox == 0) <==> (ix < |text| && IsIdentStart(text[ix]))
    ensures var r := IdentifierExec(text, ix);
            r.Found? && r.ox == 0 ==>
              && (forall k :: ix <= k < ix + r.lx ==> IsWordChar(text[k]))
              && (ix + r.lx == |text| || !IsWordChar(text[ix + r.lx]))
    ensures ix < |text| && IsIdentStart(text[ix]) ==>
              IdentifierExec(text, ix) == Found(0, 1 + ClassRun(text, ix + 1, WordChars))
  {
    var r := IdentifierExec(text, ix);
    if r.Found? && r.ox == 0 {
      assert MatchAt(IdentifierPattern, text, ix) == Some(r.lx);
      var run := ClassRun(text, ix + 1, WordChars);
      assert r.lx == 1 + run;
      forall k | ix <= k < ix + r.lx
        ensures IsWordChar(text[k])
      {
        if k > ix {
          assert InClass(WordChars, text[k]);
        }
      }
      if ix + r.lx < |text| {
        assert !InClass(WordChars, text[ix + 1 + run]);
      }
    }
  }

  /** The literal pattern matches at `p` exactly when a literal begins
      there, and the length it reports is the one literal length at `p`. */
  lemma LiteralMatchAt(text: string, p: nat)
    ensures MatchAt(LiteralPattern, text, p).Some? <==> LiteralStartsAt(text, p)
    ensures forall n: nat :: LiteralAt(text, p, n) <==> MatchAt(LiteralPattern, text, p) == Some(n)
  {
    if p < |text| {
      var c := text[p];
      if IsDigit(c) {
        var run := ClassRun(text, p, Digits);
        forall n | LiteralAt(text, p, n)
          ensures n == run
        {
        }
        forall k | p <= k < p + run
          ensures IsDigit(text[k])
        {
          assert InClass(Digits, text[k]);
        }
      } else if IsQuote(c) {
        forall q | p < q < |text|
          ensures OccursAt(text, [c], q) <==> text[q] == c
        {
          assert text[q..q + 1] == [text[q]];
        }
      }
    }
  }

  /** A literal is accepted at `ix` exactly when one begins there, and the
      accepted length is that literal's: the whole digit run, or up to and
      including the closing quote. */
  lemma LiteralAnchoredAtStart(text: string, ix: nat)
    ensures var r := LiteralExec(text, ix);
            (r.Found? && r.ox == 0) <==> LiteralStartsAt(text, ix)
    ensures var r := LiteralExec(text, ix);
            forall n: nat :: LiteralAt(text, ix, n) <==> (r.Found? && r.ox == 0 && r.lx == n)
  {
    LiteralMatchAt(text, ix);
  }
}
