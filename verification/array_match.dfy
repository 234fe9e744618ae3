/** The instruction-array front-end `matchArr_match` (src/array-match.ts): a
    list of match instructions is walked against a cursor into the text. The
    state record carries the cursor, the transient `isMatch` verdict, the
    sticky `matchFail` flag, the capture map, the instruction pointer, the
    open repeat loop and the or-group flag. */
module ArrayMatch {
  import opened TextScan
  import opened Regex

  /** The optional fields of an `iMatchItem` read by the matchers. An empty
      string stands for an absent option: the source only tests them for
      truthiness. */
  datatype Modifiers = Modifiers(
    captureName: string,
    doCapture: bool,
    zeroMoreWhitespace: bool,
    peekNextText: string,
    peekNextNotText: string,
    peek: bool,
    zeroMatchOk: bool)

  const Plain := Modifiers("", false, false, "", "", false, false)

  /** One `iMatchItem`, tagged by its `oper`. An item whose `text` is absent
      is written `One("")`, which the source treats the same way. */
  datatype Instruction =
    | Identifier(m: Modifiers)
    | Literal(m: Modifiers)
    | Text(target: TextArg, m: Modifiers)
    | Or
    | CaptureBegin
    | CaptureEnd
    | RepeatBegin(captureName: string)
    | RepeatEnd
    | RepeatMatchText(target: TextArg, m: Modifiers)
  {
    /** The instructions that pass the gate as 'match' instructions. */
    predicate IsMatcher()
    {
      Identifier? || Literal? || Text? || RepeatMatchText?
    }
  }

  /** The `instructionType` argument of `instructionSetup`. */
  datatype Kind = MatchKind | OrKind | ControlKind

  /** A capture value: a trimmed matched string, or the array a named repeat
      loop collects. */
  datatype Value = Str(s: string) | List(items: seq<string>)

  /** `repeatBegin_arrIndex`: undefined until the first `repeatBegin` runs. */
  datatype Anchor = Unset | Slot(at: int)

  datatype State = State(
    text: string,
    index: nat,
    isMatch: bool,
    matchFail: bool,
    capture: map<string, Value>,
    pc: int,
    anchor: Anchor,
    repeatName: string,
    orActive: bool)

  /** How a run ends: with a final state; by throwing (a rewind to the
      undefined anchor makes the next fetch read `matchArr[NaN].oper`); or
      still running when the fuel is spent (a repeat loop can run forever
      when its delimiter is found without moving the cursor and the body
      runs again without failing: under `peek`, through an empty
      alternative, when a lookahead vetoes it under `zeroMatchOk`, or when
      a vetoed delimiter rewinds to a body that starts with `or`, which does
      not promote the false verdict). */
  datatype Outcome = Finished(state: State) | Threw | OutOfFuel

  /** Only the gate flags may differ. */
  predicate SameButFlags(s: State, t: State)
  {
    t == s.(matchFail := t.matchFail, orActive := t.orActive)
  }

  /** `instructionSetup(state, item, kind)`: returns whether to skip the
      instruction, and the state with its gate flags updated. A failed state
      always skips; an open or-group lets the one following matcher through
      only if the preceding alternative failed; otherwise a prior failure
      becomes sticky, except at an `or`. */
  function Setup(s: State, kind: Kind): (r: (bool, State))
    ensures SameButFlags(s, r.1)
    ensures s.matchFail ==> r.0 && r.1.matchFail
    ensures r.1.matchFail <==> s.matchFail || (kind != OrKind && !s.isMatch && !(kind == MatchKind && s.orActive))
    ensures r.0 <==> r.1.matchFail || (kind == MatchKind && s.orActive && s.isMatch)
    ensures !r.1.matchFail ==> !r.1.orActive
    ensures kind != MatchKind ==> !r.1.orActive
  {
    var s0 := if kind != MatchKind then s.(orActive := false) else s;
    if s0.matchFail then (true, s0)
    else if s0.orActive then (s0.isMatch, s0.(orActive := false))
    else if kind == OrKind then (false, s0)
    else if !s0.isMatch then (true, s0.(matchFail := true))
    else (false, s0)
  }

  /** `processMatchFalse` */
  function ProcessMatchFalse(s: State, m: Modifiers): (r: State)
    ensures r.index == s.index && r.capture == s.capture
    ensures r.isMatch == (m.zeroMatchOk && s.isMatch)
  {
    if m.zeroMatchOk then s else s.(isMatch := false)
  }

  /** The capture writes of an accepted match: the trimmed text goes under
      the item's `captureName`, and with `doCapture` it is also pushed onto
      the array of the open named repeat loop, if that name still holds an
      array. */
  function CaptureMatch(capture: map<string, Value>, m: Modifiers, repeatName: string, matched: string): (r: map<string, Value>)
    ensures m.captureName != "" ==> m.captureName in r && r[m.captureName] == Str(matched)
    ensures forall k :: k in capture && k != m.captureName && k != repeatName ==> k in r && r[k] == capture[k]
    ensures forall k :: k in r ==> k in capture || k == m.captureName
    ensures && m.doCapture && repeatName != "" && repeatName != m.captureName
            && repeatName in capture && capture[repeatName].List? ==>
              repeatName in r && r[repeatName] == List(capture[repeatName].items + [matched])
    ensures repeatName in capture && repeatName != m.captureName && !(m.doCapture && capture[repeatName].List?) ==>
              repeatName in r && r[repeatName] == capture[repeatName]
  {
    var c1 := if m.captureName != "" then capture[m.captureName := Str(matched)] else capture;
    if m.doCapture && repeatName != "" && repeatName in c1 && c1[repeatName].List?
    then c1[repeatName := List(c1[repeatName].items + [matched])]
    else c1
  }

  /** `processMatchTrue(state, item, bx, lx)`: a tentative match of `lx`
      characters at `bx`. A lookahead veto turns it into a failed match;
      otherwise the verdict is set, the cursor moves to the end of the match
      unless `peek`, and the trimmed text is captured. */
  function ProcessMatchTrue(s: State, m: Modifiers, bx: nat, lx: nat): (r: State)
    ensures r.text == s.text && r.matchFail == s.matchFail && r.pc == s.pc
    ensures r.anchor == s.anchor && r.repeatName == s.repeatName && r.orActive == s.orActive
    ensures LookaheadVetoes(s.text, bx + lx, m.peekNextText, m.peekNextNotText) ==>
              r == ProcessMatchFalse(s, m)
    ensures !LookaheadVetoes(s.text, bx + lx, m.peekNextText, m.peekNextNotText) ==>
              && r.isMatch
              && r.index == (if m.peek then s.index else bx + lx)
              && r.capture == CaptureMatch(s.capture, m, s.repeatName, Trim(Substr(s.text, bx, lx)))
  {
    if LookaheadVetoes(s.text, bx + lx, m.peekNextText, m.peekNextNotText) then
      ProcessMatchFalse(s, m)
    else
      var matched := Trim(Substr(s.text, bx, lx));
      s.(isMatch := true,
         index := if m.peek then s.index else bx + lx,
         capture := CaptureMatch(s.capture, m, s.repeatName, matched))
  }

  /** The offset a matcher starts from: the cursor, or the first
      non-whitespace offset after it. */
  function StartOffset(s: State, m: Modifiers): nat
  {
    if m.zeroMoreWhitespace then SkipWs(s.text, s.index) else s.index
  }

  /** `tm_actual(state, item)`: where the item's text occurs at the start
      offset, and which text it is. A single text must be non-empty; for a
      list the first entry in declared order that occurs wins. */
  function TmActual(s: State, target: TextArg, m: Modifiers): (r: Option<(nat, string)>)
    ensures r.Some? ==> r.value.0 == StartOffset(s, m) && OccursAt(s.text, r.value.1, r.value.0)
    ensures target.One? ==>
              (r.Some? <==> target.s != "" && OccursAt(s.text, target.s, StartOffset(s, m)))
              && (r.Some? ==> r.value.1 == target.s)
    ensures target.Many? ==>
              (r.Some? <==> exists k :: 0 <= k < |target.items| && OccursAt(s.text, target.items[k], StartOffset(s, m)))
    ensures target.Many? && r.Some? ==>
              var first := FirstFit(s.text, StartOffset(s, m), target.items);
              first.Some? && r.value.1 == target.items[first.value]
  {
    var ix := StartOffset(s, m);
    match target
    case Many(items) =>
      (match FirstFit(s.text, ix, items)
       case Some(k) => Some((ix, items[k]))
       case None => None)
    case One(x) =>
      if x != "" && OccursAt(s.text, x, ix) then Some((ix, x)) else None
  }

  /** The attempt of `match_regExp` once the gate has let it through. Only a
      match that begins at the start offset counts; with no input left the
      result is a failure even under `zeroMatchOk`. */
  function RegExpAttempt(g: State, m: Modifiers, exec: Exec): (r: State)
    ensures r.text == g.text && r.pc == g.pc && r.anchor == g.anchor && r.repeatName == g.repeatName
    ensures r.matchFail == g.matchFail && r.orActive == g.orActive
    ensures StartOffset(g, m) >= |g.text| ==> r == g.(isMatch := false)
    ensures && StartOffset(g, m) < |g.text|
            && !(exec(g.text, StartOffset(g, m)).Found? && exec(g.text, StartOffset(g, m)).ox == 0) ==>
              r == ProcessMatchFalse(g, m)
    ensures && StartOffset(g, m) < |g.text|
            && exec(g.text, StartOffset(g, m)).Found? && exec(g.text, StartOffset(g, m)).ox == 0 ==>
              r == ProcessMatchTrue(g, m, StartOffset(g, m), exec(g.text, StartOffset(g, m)).lx)
  {
    var ix := StartOffset(g, m);
    if |g.text| - ix <= 0 then g.(isMatch := false)
    else
      match exec(g.text, ix)
      case Found(ox, lx) => if ox == 0 then ProcessMatchTrue(g, m, ix, lx) else ProcessMatchFalse(g, m)
      case NoMatch => ProcessMatchFalse(g, m)
  }

  /** A rejection by a matcher the gate let through: cursor and captures
      stay, and the verdict survives only under `zeroMatchOk` with input
      left after the whitespace skip. */
  function Rejected(g: State, m: Modifiers): State
  {
    g.(isMatch := g.isMatch && m.zeroMatchOk && StartOffset(g, m) < |g.text|)
  }

  /** `match_regExp(state, item, regexp)` with `exec` the executor of the
      pattern. */
  function MatchRegExp(s: State, m: Modifiers, exec: Exec): (r: State)
    ensures s.matchFail ==> r == s
    ensures !s.matchFail && !s.isMatch && !s.orActive ==> r == s.(matchFail := true)
    ensures var (skip, g) := Setup(s, MatchKind);
            (skip ==> r == g) && (!skip ==> r == RegExpAttempt(g, m, exec))
  {
    var (skip, g) := Setup(s, MatchKind);
    if skip then g else RegExpAttempt(g, m, exec)
  }

  /** The identifier attempt on a state the gate let through. */
  lemma IdentifierAttempt(g: State, m: Modifiers)
    ensures var ix := StartOffset(g, m);
            ix < |g.text| && IsIdentStart(g.text[ix]) ==>
              RegExpAttempt(g, m, IdentifierExec) == ProcessMatchTrue(g, m, ix, 1 + ClassRun(g.text, ix + 1, WordChars))
    ensures var ix := StartOffset(g, m);
            !(ix < |g.text| && IsIdentStart(g.text[ix])) ==> RegExpAttempt(g, m, IdentifierExec) == Rejected(g, m)
  {
    IdentifierAnchoredAtStart(g.text, StartOffset(g, m));
  }

  /** The literal attempt on a state the gate let through. */
  lemma LiteralAttempt(g: State, m: Modifiers)
    ensures var ix := StartOffset(g, m);
            forall n: nat :: LiteralAt(g.text, ix, n) ==> RegExpAttempt(g, m, LiteralExec) == ProcessMatchTrue(g, m, ix, n)
    ensures !LiteralStartsAt(g.text, StartOffset(g, m)) ==> RegExpAttempt(g, m, LiteralExec) == Rejected(g, m)
  {
    LiteralAnchoredAtStart(g.text, StartOffset(g, m));
  }

  /** `match_identifier`: `[A-Za-z_]\w*` anchored at the start offset. A
      state the gate lets through is accepted with the whole word run
      exactly when a letter or underscore stands at the start offset. */
  function MatchIdentifier(s: State, m: Modifiers): (r: State)
    ensures s.matchFail ==> r == s
    ensures Setup(s, MatchKind).0 ==> r == Setup(s, MatchKind).1
    ensures var g := Setup(s, MatchKind).1;
            var ix := StartOffset(g, m);
            !Setup(s, MatchKind).0 && ix < |g.text| && IsIdentStart(g.text[ix]) ==>
              r == ProcessMatchTrue(g, m, ix, 1 + ClassRun(g.text, ix + 1, WordChars))
    ensures var g := Setup(s, MatchKind).1;
            var ix := StartOffset(g, m);
            !Setup(s, MatchKind).0 && !(ix < |g.text| && IsIdentStart(g.text[ix])) ==> r == Rejected(g, m)
  {
    IdentifierAttempt(Setup(s, MatchKind).1, m);
    if s.matchFail then s else MatchRegExp(s, m, IdentifierExec)
  }

  /** `match_literal`: a digit run or a quoted string anchored at the start
      offset. A state the gate lets through is accepted with the literal's
      length when a literal begins at the start offset, and rejected
      otherwise. */
  function MatchLiteral(s: State, m: Modifiers): (r: State)
    ensures s.matchFail ==> r == s
    ensures Setup(s, MatchKind).0 ==> r == Setup(s, MatchKind).1
    ensures var g := Setup(s, MatchKind).1;
            var ix := StartOffset(g, m);
            !Setup(s, MatchKind).0 ==> forall n: nat :: LiteralAt(g.text, ix, n) ==> r == ProcessMatchTrue(g, m, ix, n)
    ensures var g := Setup(s, MatchKind).1;
            !Setup(s, MatchKind).0 && !LiteralStartsAt(g.text, StartOffset(g, m)) ==> r == Rejected(g, m)
  {
    LiteralAttempt(Setup(s, MatchKind).1, m);
    if s.matchFail then s else MatchRegExp(s, m, LiteralExec)
  }

  /** The attempt of `match_text` once the gate has let it through. */
  function TextAttempt(g: State, target: TextArg, m: Modifiers): (r: State)
    ensures r.text == g.text && r.pc == g.pc && r.anchor == g.anchor && r.repeatName == g.repeatName
    ensures r.matchFail == g.matchFail && r.orActive == g.orActive
    ensures TmActual(g, target, m).None? ==> r == ProcessMatchFalse(g, m)
    ensures TmActual(g, target, m).Some? ==>
              var hit := TmActual(g, target, m).value;
              r == ProcessMatchTrue(g, m, hit.0, |hit.1|)
  {
    match TmActual(g, target, m)
    case Some((ix, matched)) => ProcessMatchTrue(g, m, ix, |matched|)
    case None => ProcessMatchFalse(g, m)
  }

  /** `match_text` */
  function MatchText(s: State, target: TextArg, m: Modifiers): (r: State)
    ensures s.matchFail ==> r == s
    ensures !s.matchFail && !s.isMatch && !s.orActive ==> r == s.(matchFail := true)
    ensures var (skip, g) := Setup(s, MatchKind);
            (skip ==> r == g) && (!skip ==> r == TextAttempt(g, target, m))
  {
    var (skip, g) := Setup(s, MatchKind);
    if skip then g else TextAttempt(g, target, m)
  }

  /** `match_or`: opens an or-group unless the state has already failed. It
      never promotes a prior failure. */
  function MatchOr(s: State): (r: State)
    ensures SameButFlags(s, r)
    ensures r.matchFail == s.matchFail
    ensures r.orActive <==> !s.matchFail
  {
    var (skip, g) := Setup(s, OrKind);
    if skip then g else g.(orActive := true)
  }

  /** `match_repeatBegin` at instruction `arrIndex`: remembers the slot and,
      for a named loop, starts an empty array under the name. */
  function MatchRepeatBegin(s: State, name: string, arrIndex: int): (r: State)
    ensures r.text == s.text && r.index == s.index && r.isMatch == s.isMatch && r.pc == s.pc
    ensures var (skip, g) := Setup(s, ControlKind);
            !skip ==> && r.anchor == Slot(arrIndex)
                      && r.repeatName == name
                      && (name != "" ==> r.capture == s.capture[name := List([])])
                      && (name == "" ==> r.capture == s.capture)
    ensures var (skip, g) := Setup(s, ControlKind);
            skip ==> r == g
  {
    var (skip, g) := Setup(s, ControlKind);
    if skip then g
    else
      var g1 := g.(anchor := Slot(arrIndex), repeatName := "");
      if name != "" then g1.(capture := g1.capture[name := List([])], repeatName := name) else g1
  }

  /** `match_repeatEnd`: closes the loop bookkeeping. */
  function MatchRepeatEnd(s: State): (r: State)
    ensures r.text == s.text && r.index == s.index && r.isMatch == s.isMatch && r.capture == s.capture && r.pc == s.pc
    ensures var (skip, g) := Setup(s, ControlKind);
            !skip ==> r.anchor == Slot(-1) && r.repeatName == ""
    ensures var (skip, g) := Setup(s, ControlKind);
            skip ==> r == g
  {
    var (skip, g) := Setup(s, ControlKind);
    if skip then g else g.(anchor := Slot(-1), repeatName := "")
  }

  /** `match_repeatMatchText`: when the delimiter is found the instruction
      pointer goes back to the `repeatBegin` slot, so the loop body runs
      again; this happens even when a lookahead rejects the match. When the
      delimiter is absent nothing changes and execution falls through. The
      answer is `None` when the rewind targets the undefined anchor. */
  function MatchRepeatMatchText(s: State, target: TextArg, m: Modifiers): (r: Option<State>)
    ensures var (skip, g) := Setup(s, MatchKind);
            skip ==> r == Some(g)
    ensures var (skip, g) := Setup(s, MatchKind);
            !skip && TmActual(g, target, m).None? ==> r == Some(g)
    ensures var (skip, g) := Setup(s, MatchKind);
            && !skip && TmActual(g, target, m).Some? ==>
              match s.anchor
              case Unset => r.None?
              case Slot(at) =>
                var hit := TmActual(g, target, m).value;
                r == Some(ProcessMatchTrue(g, m, hit.0, |hit.1|).(pc := at))
  {
    var (skip, g) := Setup(s, MatchKind);
    if skip then Some(g)
    else
      match TmActual(g, target, m)
      case None => Some(g)
      case Some((ix, matched)) =>
        var t := ProcessMatchTrue(g, m, ix, |matched|);
        match g.anchor
        case Unset => None
        case Slot(at) => Some(t.(pc := at))
  }

  /** The instruction pointer and loop anchor never point before -1. */
  predicate PcOk(s: State)
  {
    s.pc >= -1 && (s.anchor.Slot? ==> s.anchor.at >= -1)
  }

  /** One turn of the dispatch loop of `matchArr_match`, for the instruction
      at `s.pc`. `captureBegin` and `captureEnd` are declared opers but are
      never dispatched, so they do nothing at all. */
  function Step(ins: Instruction, s: State): (r: Option<State>)
    requires PcOk(s) && s.pc >= 0
    ensures r.Some? ==> PcOk(r.value) && r.value.text == s.text
    ensures r.Some? && r.value.pc != s.pc ==> ins.RepeatMatchText? && s.anchor.Slot? && r.value.pc == s.anchor.at
    ensures r.None? ==> ins.RepeatMatchText? && s.anchor.Unset?
    ensures r.Some? ==> r.value.anchor in {s.anchor, Slot(s.pc), Slot(-1)}
    // sticky failure: a failed state stays failed and nothing but the
    // or-group flag moves
    ensures s.matchFail ==> r.Some? && r.value.matchFail && SameButFlags(s, r.value)
    // short circuit: after a successful alternative the next matcher is skipped
    ensures ins.IsMatcher() && !s.matchFail && s.orActive && s.isMatch ==> r == Some(s.(orActive := false))
    // an open or-group is closed by whatever instruction the gate looks at
    ensures !s.matchFail && !ins.Or? && !ins.CaptureBegin? && !ins.CaptureEnd? ==> r.Some? ==> !r.value.orActive
    // `or` never promotes a failure
    ensures ins.Or? ==> r == Some(MatchOr(s))
  {
    match ins
    case Identifier(m) => Some(MatchIdentifier(s, m))
    case Literal(m) => Some(MatchLiteral(s, m))
    case Text(target, m) => Some(MatchText(s, target, m))
    case RepeatBegin(name) => Some(MatchRepeatBegin(s, name, s.pc))
    case RepeatMatchText(target, m) => MatchRepeatMatchText(s, target, m)
    case RepeatEnd => Some(MatchRepeatEnd(s))
    case Or => Some(MatchOr(s))
    case CaptureBegin => Some(s)
    case CaptureEnd => Some(s)
  }

  /** The `while (true)` loop of `matchArr_match`, `fuel` turns at most. The
      loop increments the instruction pointer first, so `pc` is that of the
      last instruction run; it stops once the pointer reaches the end. */
  function Run(prog: seq<Instruction>, s: State, fuel: nat): (r: Outcome)
    requires PcOk(s)
    ensures r.Finished? ==> r.state.pc >= |prog| && r.state.text == s.text
    decreases fuel
  {
    var pc := s.pc + 1;
    if pc >= |prog| then Finished(s.(pc := pc))
    else if fuel == 0 then OutOfFuel
    else
      match Step(prog[pc], s.(pc := pc))
      case None => Threw
      case Some(t) => Run(prog, t, fuel - 1)
  }

  /** The state `matchArr_match(text, bx, matchArr, capture)` starts from. */
  function Initial(text: string, bx: nat, capture: Option<map<string, Value>>): (s: State)
    ensures PcOk(s) && s.index == bx && s.isMatch && !s.matchFail && !s.orActive
  {
    State(text, bx, true, false, if capture.Some? then capture.value else map[], -1, Unset, "", false)
  }

  /** `matchArr_match(text, bx, matchArr, capture)`, run for at most `fuel`
      loop turns. */
  function MatchArr(text: string, bx: nat, prog: seq<Instruction>, capture: Option<map<string, Value>>, fuel: nat): Outcome
  {
    Run(prog, Initial(text, bx, capture), fuel)
  }
}
