/** The fluent front-end: a `MatchCapture` object is a frame holding the text,
    a cursor, the verdict flags and a capture object; every method gates
    itself through `instructionSetup`, which works with instruction sequence
    numbers, and returns the object so calls chain.

    Capture groups (`captureBegin` … `captureEnd`) open a child object whose
    `parent` field points back. Here the chain of parents is an explicit
    stack: a `Cursor` is the frame the next call acts on together with the
    frames of the enclosing groups, innermost last. */
module MatchCapture {
  import opened TextScan
  import opened Regex
  import opened Capture

  /** `MatchCapture_options`, restricted to the fields the modelled methods
      read. Absent strings are empty and absent flags false. */
  datatype Options = Options(
    captureName: string,
    doCapture: bool,
    zeroMoreWhitespace: bool,
    peekNextText: string,
    peekNextNotText: string,
    peek: bool,
    zeroMatchOk: bool,
    zeroMatchBreak: bool,
    skipSetup: bool,
    captureMatchTextProperty: string,
    captureObject: Option<CaptureObject>,
    matchFail: bool)

  const NoOptions := Options("", false, false, "", "", false, false, false, false, "", None, false)

  /** The fields of one `MatchCapture` object. */
  datatype Frame = Frame(
    text: string,
    index: nat,
    isMatch: bool,
    matchFail: bool,
    start: nat,
    instructSeqn: int,
    skipSeqn: int,
    orSeqn: int,
    bypassAll: bool,
    breakOut: bool,
    captureName: string,
    doCapture: bool,
    captureObject: CaptureObject,
    errmsg: string)

  /** The frame calls act on, and the frames of the open capture groups
      around it, innermost last. */
  datatype Cursor = Cursor(top: Frame, parents: seq<Frame>)

  /** `new MatchCapture(text, index, options)` for a frame with no parent:
      a passing verdict, the match starting at `index`, no instruction run. */
  function NewFrame(text: string, index: nat): (f: Frame)
    ensures f.isMatch && !f.matchFail && !f.bypassAll && !f.breakOut
    ensures f.start == f.index == index && f.captureObject == EmptyObject
    ensures f.skipSeqn < f.instructSeqn && f.orSeqn < f.instructSeqn
  {
    Frame(text, index, true, false, index, 0, -1, -1, false, false, "", false, EmptyObject, "")
  }

  function Start(text: string, index: nat): Cursor
  {
    Cursor(NewFrame(text, index), [])
  }

  /** Only the sequence counters and the failure flag may differ. */
  predicate SameButGate(f: Frame, g: Frame)
  {
    g == f.(instructSeqn := g.instructSeqn, matchFail := g.matchFail)
  }

  /** A call on a frame changes at most its gate bookkeeping, verdict,
      cursor and captures. */
  predicate Moves(f: Frame, r: Frame)
  {
    r == f.(instructSeqn := r.instructSeqn, skipSeqn := r.skipSeqn, orSeqn := r.orSeqn,
            matchFail := r.matchFail, isMatch := r.isMatch, index := r.index,
            captureObject := r.captureObject)
  }

  /** The frame ignores every instruction until its group ends. */
  predicate Blocked(f: Frame)
  {
    f.bypassAll || f.breakOut
  }

  /** `instructionSetup(options)`: counts the instruction and answers whether
      to skip it. First match wins: a blocked frame skips; a failed frame
      skips; the sequence number an `or` marked is skipped; right after an
      `or` the instruction runs exactly when the verdict is false; otherwise
      a false verdict becomes the sticky failure, except for an `or`. */
  function Setup(f: Frame, isOr: bool, noIncSeqn: bool): (r: (bool, Frame))
    ensures SameButGate(f, r.1)
    ensures r.1.instructSeqn == (if noIncSeqn then f.instructSeqn else f.instructSeqn + 1)
    ensures var seqn := r.1.instructSeqn;
            var priorOr := f.orSeqn == f.instructSeqn;
            && (r.0 <==> Blocked(f) || f.matchFail || seqn == f.skipSeqn || (priorOr && f.isMatch) || (!priorOr && !f.isMatch && !isOr))
            && (r.1.matchFail <==> f.matchFail || (!Blocked(f) && seqn != f.skipSeqn && !priorOr && !f.isMatch && !isOr))
  {
    var priorOr := f.orSeqn == f.instructSeqn;
    var g := if noIncSeqn then f else f.(instructSeqn := f.instructSeqn + 1);
    if Blocked(g) then (true, g)
    else if g.matchFail then (true, g)
    else if g.instructSeqn == g.skipSeqn then (true, g)
    else if priorOr then (g.isMatch, g)
    else if !g.isMatch && !isOr then (true, g.(matchFail := true))
    else (false, g)
  }

  /** The gate as every modelled method other than `or` uses it. */
  function Gate(f: Frame): (bool, Frame)
  {
    Setup(f, false, false)
  }

  /** `or()`: gates itself as an `or` (its skip answer is ignored), records
      its sequence number and, when the verdict so far is true, marks the
      next sequence number to be skipped. */
  function Or(f: Frame): (r: Frame)
    ensures Moves(f, r)
    ensures r.index == f.index && r.isMatch == f.isMatch && r.captureObject == f.captureObject
    ensures r.matchFail == f.matchFail
    ensures r.instructSeqn == f.instructSeqn + 1 && r.orSeqn == r.instructSeqn
    ensures r.skipSeqn == (if f.isMatch then r.instructSeqn + 1 else f.skipSeqn)
  {
    var (_, g) := Setup(f, true, false);
    var g1 := g.(orSeqn := g.instructSeqn);
    if g1.isMatch then g1.(skipSeqn := g1.instructSeqn + 1) else g1
  }

  /** `match_processMatchFalse(options)` */
  function ProcessMatchFalse(f: Frame, o: Options): (r: Frame)
    ensures r.index == f.index && r.captureObject == f.captureObject
    ensures r.isMatch == (o.zeroMatchOk && f.isMatch)
    ensures r == f.(isMatch := r.isMatch)
  {
    if o.zeroMatchOk then f else f.(isMatch := false)
  }

  /** The item `match_processMatchTrue` stores for a match of `lx` characters
      at `bx`. */
  function MatchItem(f: Frame, o: Options, bx: nat, lx: nat): CaptureItem
  {
    CaptureItem(bx, lx, o.captureName, Trim(Substr(f.text, bx, lx)), None)
  }

  /** `match_processMatchTrue(options, bx, lx)`: a lookahead veto turns the
      tentative match into a failed one; otherwise the verdict is true, the
      cursor moves to the end of the match unless `peek`, and the trimmed
      text is stored when a capture name or `doCapture` is given. */
  function ProcessMatchTrue(f: Frame, o: Options, bx: nat, lx: nat): (r: Frame)
    ensures LookaheadVetoes(f.text, bx + lx, o.peekNextText, o.peekNextNotText) ==>
              r == ProcessMatchFalse(f, o)
    ensures !LookaheadVetoes(f.text, bx + lx, o.peekNextText, o.peekNextNotText) ==>
              && r.isMatch
              && r.index == (if o.peek then f.index else bx + lx)
              && (o.captureName != "" || o.doCapture ==>
                    r.captureObject == StoreCapture(f.captureObject, MatchItem(f, o, bx, lx), o.doCapture))
              && (o.captureName == "" && !o.doCapture ==> r.captureObject == f.captureObject)
    ensures r == f.(isMatch := r.isMatch, index := r.index, captureObject := r.captureObject)
  {
    if LookaheadVetoes(f.text, bx + lx, o.peekNextText, o.peekNextNotText) then ProcessMatchFalse(f, o)
    else
      var g := f.(isMatch := true, index := if o.peek then f.index else bx + lx);
      if o.captureName != "" || o.doCapture then
        g.(captureObject := StoreCapture(f.captureObject, MatchItem(f, o, bx, lx), o.doCapture))
      else g
  }

  /** The offset matching starts from: the cursor, or the first
      non-whitespace offset after it. */
  function StartAt(f: Frame, o: Options): (ix: nat)
    ensures f.index <= |f.text| ==> f.index <= ix <= |f.text|
  {
    if o.zeroMoreWhitespace then SkipWs(f.text, f.index) else f.index
  }

  /** The attempt of `matchText` once the gate has let it through. A list
      matches its first entry, in declared order, that occurs at the start
      offset. A single text fails outright, even under `zeroMatchOk`, when it
      is longer than what remains; the empty text always matches. */
  function TextAttempt(g: Frame, target: TextArg, o: Options): (r: Frame)
    ensures Moves(g, r)
    ensures r == g.(isMatch := r.isMatch, index := r.index, captureObject := r.captureObject)
    ensures target.Many? ==>
              var first := FirstFit(g.text, StartAt(g, o), target.items);
              && (first.Some? ==> r == ProcessMatchTrue(g, o, StartAt(g, o), |target.items[first.value]|))
              && (first.None? ==> r == ProcessMatchFalse(g, o))
    ensures target.One? ==>
              var ix := StartAt(g, o);
              && (|g.text| - ix < |target.s| ==> r == g.(isMatch := false))
              && (OccursAt(g.text, target.s, ix) ==> r == ProcessMatchTrue(g, o, ix, |target.s|))
              && (|g.text| - ix >= |target.s| && !OccursAt(g.text, target.s, ix) ==> r == ProcessMatchFalse(g, o))
  {
    var ix := StartAt(g, o);
    match target
    case Many(items) =>
      (match FirstFit(g.text, ix, items)
       case Some(k) => ProcessMatchTrue(g, o, ix, |items[k]|)
       case None => ProcessMatchFalse(g, o))
    case One(x) =>
      if |g.text| - ix < |x| then g.(isMatch := false)
      else if OccursAt(g.text, x, ix) then ProcessMatchTrue(g, o, ix, |x|)
      else ProcessMatchFalse(g, o)
  }

  /** `matchText(matchText, options)` */
  function MatchText(f: Frame, target: TextArg, o: Options): (r: Frame)
    ensures Moves(f, r)
    ensures var (skip, g) := Gate(f);
            && (skip ==> r == g)
            && (!skip ==> r == TextAttempt(g, target, o))
  {
    var (skip, g) := Gate(f);
    if skip then g else TextAttempt(g, target, o)
  }

  /** The attempt of `matchRegExp` once the gate has let it through: with no
      input left after the start offset the verdict is false even under
      `zeroMatchOk`; otherwise only a match that begins at the start offset
      counts. */
  function RegExpAttempt(g: Frame, exec: Exec, o: Options): (r: Frame)
    ensures Moves(g, r)
    ensures r == g.(isMatch := r.isMatch, index := r.index, captureObject := r.captureObject)
    ensures var ix := StartAt(g, o);
            && (|g.text| <= ix ==> r == g.(isMatch := false))
            && (ix < |g.text| && exec(g.text, ix).Found? && exec(g.text, ix).ox == 0 ==>
                  r == ProcessMatchTrue(g, o, ix, exec(g.text, ix).lx))
            && (ix < |g.text| && !(exec(g.text, ix).Found? && exec(g.text, ix).ox == 0) ==>
                  r == ProcessMatchFalse(g, o))
  {
    var ix := StartAt(g, o);
    if |g.text| - ix <= 0 then g.(isMatch := false)
    else
      match exec(g.text, ix)
      case Found(ox, lx) => if ox == 0 then ProcessMatchTrue(g, o, ix, lx) else ProcessMatchFalse(g, o)
      case NoMatch => ProcessMatchFalse(g, o)
  }

  /** `matchRegExp(regexp, options)` with `exec` the executor of the pattern.
      With `skipSetup` the gate is not consulted at all. */
  function MatchRegExp(f: Frame, exec: Exec, o: Options): (r: Frame)
    ensures Moves(f, r)
    ensures o.skipSetup ==> r == RegExpAttempt(f, exec, o)
    ensures !o.skipSetup ==>
              var (skip, g) := Gate(f);
              && (skip ==> r == g)
              && (!skip ==> r == RegExpAttempt(g, exec, o))
  {
    if o.skipSetup then RegExpAttempt(f, exec, o)
    else
      var (skip, g) := Gate(f);
      if skip then g else RegExpAttempt(g, exec, o)
  }

  /** The length a pattern match at `ix` accepts, if any: the executor must
      find a match that begins exactly there. */
  function RegExpFit(text: string, ix: nat, exec: Exec): Option<nat>
  {
    if ix < |text| && exec(text, ix).Found? && exec(text, ix).ox == 0 then Some(exec(text, ix).lx) else None
  }

  /** A pattern attempt is the acceptance of the fitting length, an outright
      failure at the end of the input, or a failure under the options. */
  lemma RegExpAttemptByFit(g: Frame, exec: Exec, o: Options)
    ensures var ix := StartAt(g, o);
            var lx := RegExpFit(g.text, ix, exec);
            && (lx.Some? ==> RegExpAttempt(g, exec, o) == ProcessMatchTrue(g, o, ix, lx.value))
            && (lx.None? && |g.text| <= ix ==> RegExpAttempt(g, exec, o) == g.(isMatch := false))
            && (lx.None? && ix < |g.text| ==> RegExpAttempt(g, exec, o) == ProcessMatchFalse(g, o))
  {
  }

  /** The options `identifier` and `literal` hand to `matchRegExp`: the
      caller's, with the gate turned off because they have gated already. */
  function Ungated(o: Options): (u: Options)
    ensures u.skipSetup
  {
    o.(skipSetup := true)
  }

  /** `identifier(options)`: gates itself, then runs `[A-Za-z_]\w*` through
      `matchRegExp` with the gate turned off. */
  function Identifier(f: Frame, o: Options): (r: Frame)
    ensures Moves(f, r)
    ensures var (skip, g) := Gate(f);
            && (skip ==> r == g)
            && (!skip ==> r == RegExpAttempt(g, IdentifierExec, Ungated(o)))
  {
    var (skip, g) := Gate(f);
    if skip then g else MatchRegExp(g, IdentifierExec, Ungated(o))
  }

  /** `literal(options)`: a digit run or a quoted string, gated the same way
      as `identifier`. */
  function Literal(f: Frame, o: Options): (r: Frame)
    ensures Moves(f, r)
    ensures var (skip, g) := Gate(f);
            && (skip ==> r == g)
            && (!skip ==> r == RegExpAttempt(g, LiteralExec, Ungated(o)))
  {
    var (skip, g) := Gate(f);
    if skip then g else MatchRegExp(g, LiteralExec, Ungated(o))
  }

  /** `endOfLine()`: moves just past the next newline, or to the end of the
      text when there is none; the verdict is left alone. */
  function EndOfLine(f: Frame): (r: Frame)
    ensures Moves(f, r)
    ensures var (skip, g) := Gate(f);
            && (skip || f.index >= |f.text| ==> r == g)
            && (!skip && f.index < |f.text| ==>
                  && r == g.(index := r.index)
                  && f.index < r.index <= |f.text|
                  && (forall k :: f.index <= k < r.index - 1 ==> f.text[k] != '\n')
                  && (r.index == |f.text| || f.text[r.index - 1] == '\n'))
  {
    var (skip, g) := Gate(f);
    if skip || |g.text| - g.index <= 0 then g
    else
      match IndexOf(g.text, "\n", g.index)
      case Some(fx) =>
        NewlineAt(g.text, fx);
        forall k | g.index <= k < fx
          ensures g.text[k] != '\n'
        {
          NewlineAt(g.text, k);
        }
        g.(index := fx + 1)
      case None =>
        forall k | g.index <= k < |g.text|
          ensures g.text[k] != '\n'
        {
          NewlineAt(g.text, k);
        }
        g.(index := |g.text|)
  }

  /** `eof(options)`: a zero-length match at the end of the text when
      nothing but the optional whitespace remains; a failed match
      otherwise. */
  function Eof(f: Frame, o: Options): (r: Frame)
    ensures Moves(f, r)
    ensures var (skip, g) := Gate(f);
            && (skip ==> r == g)
            && (!skip && StartAt(g, o) >= |g.text| ==> r == ProcessMatchTrue(g, o, |g.text|, 0))
            && (!skip && StartAt(g, o) < |g.text| ==> r == ProcessMatchFalse(g, o))
  {
    var (skip, g) := Gate(f);
    if skip then g
    else if |g.text| - StartAt(g, o) <= 0 then ProcessMatchTrue(g, o, |g.text|, 0)
    else ProcessMatchFalse(g, o)
  }

  /** `until(untilText, include)`, with `inclusive` standing for the `include`
      argument `'Y'`: moves to the first occurrence of the text at or after
      the cursor, past it when included, and fails when there is none. When
      the rest of the text is shorter than the target nothing changes. */
  function Until(f: Frame, untilText: string, inclusive: bool): (r: Frame)
    ensures Moves(f, r)
    ensures var (skip, g) := Gate(f);
            && (skip || |f.text| - f.index < |untilText| ==> r == g)
            && (!skip && |f.text| - f.index >= |untilText| ==>
                  match IndexOf(f.text, untilText, f.index)
                  case None => r == g.(isMatch := false)
                  case Some(fx) =>
                    r == g.(isMatch := true, index := if inclusive then fx + |untilText| else fx))
    ensures var (skip, g) := Gate(f);
            !skip && r.isMatch && |f.text| - f.index >= |untilText| ==>
              exists fx :: f.index <= fx && OccursAt(f.text, untilText, fx)
                           && r.index == (if inclusive then fx + |untilText| else fx)
                           && forall q :: f.index <= q < fx ==> !OccursAt(f.text, untilText, q)
  {
    var (skip, g) := Gate(f);
    if skip || |g.text| - g.index < |untilText| then g
    else
      match IndexOf(g.text, untilText, g.index)
      case None => g.(isMatch := false)
      case Some(fx) => g.(isMatch := true, index := if inclusive then fx + |untilText| else fx)
  }

  /** `zeroMoreWhitespace()`: skips spaces, tabs and newlines; always
      leaves the verdict alone. */
  function ZeroMoreWhitespace(f: Frame): (r: Frame)
    ensures Moves(f, r)
    ensures var (skip, g) := Gate(f);
            && (skip ==> r == g)
            && (!skip ==> && r == g.(index := r.index)
                          && f.index <= r.index
                          && (forall k :: f.index <= k < r.index ==> k < |f.text| && IsWs(f.text[k]))
                          && (r.index < |f.text| ==> !IsWs(f.text[r.index])))
  {
    var (skip, g) := Gate(f);
    if skip then g else g.(index := WsRun(g.text, g.index))
  }

  /** `oneMoreWhitespace()`: like `zeroMoreWhitespace`, but the verdict is
      whether any whitespace was there; without it the cursor stays. */
  function OneMoreWhitespace(f: Frame): (r: Frame)
    ensures Moves(f, r)
    ensures var (skip, g) := Gate(f);
            && (skip ==> r == g)
            && (!skip ==> && r == g.(index := r.index, isMatch := r.isMatch)
                          && (r.isMatch <==> f.index < |f.text| && IsWs(f.text[f.index]))
                          && (r.isMatch ==> r.index == WsRun(f.text, f.index))
                          && (!r.isMatch ==> r.index == f.index))
  {
    var (skip, g) := Gate(f);
    if skip then g
    else
      var ix := WsRun(g.text, g.index);
      if ix > g.index then g.(index := ix, isMatch := true) else g.(isMatch := false)
  }

  /** `getMatch()`: the text from the frame's start up to its cursor, empty
      once the frame has failed or when the cursor has not moved. */
  function GetMatch(f: Frame): (r: string)
    ensures f.matchFail || f.index <= f.start ==> r == ""
    ensures !f.matchFail && f.start < f.index <= |f.text| ==> r == f.text[f.start..f.index]
  {
    if f.matchFail then ""
    else if f.index - f.start > 0 then Substr(f.text, f.start, f.index - f.start)
    else ""
  }

  /** `captureBegin(options)`: gates the enclosing frame, then opens a child
      frame at its cursor, which skips the whole group when the gate said
      skip. Whitespace is skipped for the child only when it is not skipped
      itself; the child's match still starts before that whitespace. The
      child adopts the caller's `matchFail` flag and `capture_object`, and
      starts with an empty capture object when none is given. */
  function CaptureBegin(c: Cursor, o: Options): (r: Cursor)
    ensures var (skip, g) := Gate(c.top);
            && r.parents == c.parents + [g]
            && r.top.text == g.text && r.top.start == g.index
            && r.top.index == (if !skip && o.zeroMoreWhitespace then SkipWs(g.text, g.index) else g.index)
            && (r.top.bypassAll <==> skip)
            && r.top.isMatch && (r.top.matchFail <==> o.matchFail) && !r.top.breakOut
            && r.top.captureName == o.captureName && r.top.doCapture == o.doCapture
            && (o.captureObject.None? ==> r.top.captureObject == EmptyObject)
            && (o.captureObject.Some? ==> r.top.captureObject == o.captureObject.value)
            && r.top.skipSeqn < r.top.instructSeqn && r.top.orSeqn < r.top.instructSeqn
  {
    var (skip, g) := Gate(c.top);
    var child := NewFrame(g.text, g.index).(
      bypassAll := skip, matchFail := o.matchFail, captureName := o.captureName, doCapture := o.doCapture,
      captureObject := if o.captureObject.Some? then o.captureObject.value else EmptyObject);
    var child1 := if !skip && o.zeroMoreWhitespace then child.(index := SkipWs(g.text, g.index)) else child;
    Cursor(child1, c.parents + [g])
  }

  const NoParentMessage := "no corresponding captureBegin."

  /** The object a committed group hands to its parent: the child's capture
      object, with the matched text added under
      `captureMatchText_propertyName` when that option is given. */
  function GroupObject(t: Frame, o: Options): (r: CaptureObject)
    ensures o.captureMatchTextProperty == "" ==> r == t.captureObject
    ensures o.captureMatchTextProperty != "" ==>
              && r.meta == t.captureObject.meta
              && r.entries == t.captureObject.entries[o.captureMatchTextProperty := Text(GetMatch(t))]
  {
    if o.captureMatchTextProperty != "" then
      t.captureObject.(entries := t.captureObject.entries[o.captureMatchTextProperty := Text(GetMatch(t))])
    else t.captureObject
  }

  /** The item a committed group stores in its parent. */
  function GroupItem(t: Frame, o: Options): CaptureItem
  {
    CaptureItem(t.start, t.index - t.start, t.captureName, "", Some(GroupObject(t, o)))
  }

  /** `captureEnd(options)`: closes the innermost group. The child's own
      gate runs first, so a failed last instruction of the group is
      promoted to `matchFail` here. Without an enclosing group the frame
      gets an error message and stays current. A group skipped as a whole
      leaves the parent as it was. A group that has not failed commits: the
      parent takes over the child's verdict and cursor and, for a named or
      `doCapture` group, stores the child's capture object. A failed group
      rolls back: the parent's cursor and captures stay, and the parent
      either breaks out (`zeroMatchBreak`), fails (the default) or carries
      on (`zeroMatchOk`). */
  function CaptureEnd(c: Cursor, o: Options): (r: Cursor)
    ensures var (_, t) := Gate(c.top);
            |c.parents| == 0 ==> r == Cursor(t.(errmsg := NoParentMessage), [])
    ensures |c.parents| > 0 ==> r.parents == c.parents[..|c.parents| - 1]
    ensures var (_, t) := Gate(c.top);
            |c.parents| > 0 && t.bypassAll ==> r.top == c.parents[|c.parents| - 1]
    ensures var (_, t) := Gate(c.top);
            var p := if |c.parents| > 0 then c.parents[|c.parents| - 1] else c.top;
            |c.parents| > 0 && !t.bypassAll && !t.matchFail ==>
              && r.top == p.(isMatch := t.isMatch, index := t.index, captureObject := r.top.captureObject)
              && (t.captureName != "" || t.doCapture ==>
                    r.top.captureObject == StoreCapture(p.captureObject, GroupItem(t, o), t.doCapture))
              && (t.captureName == "" && !t.doCapture ==> r.top.captureObject == p.captureObject)
    ensures var (_, t) := Gate(c.top);
            var p := if |c.parents| > 0 then c.parents[|c.parents| - 1] else c.top;
            |c.parents| > 0 && !t.bypassAll && t.matchFail ==>
              && r.top == p.(isMatch := r.top.isMatch, breakOut := r.top.breakOut)
              && (o.zeroMatchBreak ==> r.top.breakOut && r.top.isMatch == p.isMatch)
              && (!o.zeroMatchBreak ==> r.top.breakOut == p.breakOut && r.top.isMatch == (p.isMatch && o.zeroMatchOk))
  {
    var (_, t) := Gate(c.top);
    if |c.parents| == 0 then Cursor(t.(errmsg := NoParentMessage), [])
    else
      var p := c.parents[|c.parents| - 1];
      var rest := c.parents[..|c.parents| - 1];
      if t.bypassAll then Cursor(p, rest)
      else if !t.matchFail then
        var p1 := p.(isMatch := t.isMatch, index := t.index);
        var p2 := if t.captureName != "" || t.doCapture
                  then p1.(captureObject := StoreCapture(p1.captureObject, GroupItem(t, o), t.doCapture))
                  else p1;
        Cursor(p2, rest)
      else if o.zeroMatchBreak then Cursor(p.(breakOut := true), rest)
      else if !o.zeroMatchOk then Cursor(p.(isMatch := false), rest)
      else Cursor(p, rest)
  }

  /** `captureEndZeroOne()`: closes the group with `zeroMatchOk`, so a failed
      group is optional. */
  function CaptureEndZeroOne(c: Cursor): (r: Cursor)
    ensures var (_, t) := Gate(c.top);
            |c.parents| > 0 && !t.bypassAll && t.matchFail ==>
              r.top == c.parents[|c.parents| - 1].(breakOut := r.top.breakOut)
              && r.top.breakOut == c.parents[|c.parents| - 1].breakOut
  {
    CaptureEnd(c, NoOptions.(zeroMatchOk := true))
  }
}
