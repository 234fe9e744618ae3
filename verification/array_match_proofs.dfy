/** Properties of the instruction-array interpreter that relate several
    steps: sticky failure over a whole run, the cursor never moving back,
    termination of repeat loops whose delimiter always consumes input, the
    forgiveness of a failed first alternative, and the test programs. */
module ArrayMatchProofs {
  import opened TextScan
  import opened Regex
  import opened ArrayMatch

  /** The cursor lies inside the text and the loop anchor inside the program. */
  predicate InBounds(prog: seq<Instruction>, s: State)
  {
    && PcOk(s)
    && s.index <= |s.text|
    && (s.anchor.Slot? ==> s.anchor.at < |prog|)
  }

  /** A delimiter that, when found, consumes at least one character: no
      `peek`, no lookahead that could veto the match after the rewind, and no
      empty alternative. (A single empty text never matches at all.) */
  predicate DelimiterAdvances(ins: Instruction)
  {
    ins.RepeatMatchText? ==>
      && !ins.m.peek
      && ins.m.peekNextText == ""
      && ins.m.peekNextNotText == ""
      && (ins.target.Many? ==> forall k :: 0 <= k < |ins.target.items| ==> ins.target.items[k] != "")
  }

  predicate Progressive(prog: seq<Instruction>)
  {
    forall i :: 0 <= i < |prog| ==> DelimiterAdvances(prog[i])
  }

  /** Every instruction keeps the cursor inside the text and never moves it
      back; a repeat rewind under an advancing delimiter moves it forward. */
  lemma StepMovesForward(ins: Instruction, s: State)
    requires PcOk(s) && s.pc >= 0 && s.index <= |s.text|
    ensures var r := Step(ins, s);
            r.Some? ==> s.index <= r.value.index <= |s.text|
    ensures var r := Step(ins, s);
            r.Some? && r.value.pc != s.pc && DelimiterAdvances(ins) ==> r.value.index > s.index
  {
    BuiltInExecutorsAreSound();
    match ins
    case RepeatMatchText(target, m) =>
      DelimiterMovesForward(target, m, s);
    case Identifier(m) =>
      assert Step(ins, s) == Some(MatchIdentifier(s, m));
    case Literal(m) =>
      assert Step(ins, s) == Some(MatchLiteral(s, m));
    case Text(target, m) =>
      assert Step(ins, s) == Some(MatchText(s, target, m));
    case _ =>
  }

  /** The repeat delimiter never moves the cursor back, and a rewind under
      an advancing delimiter moves it forward. */
  lemma DelimiterMovesForward(target: TextArg, m: Modifiers, s: State)
    requires PcOk(s) && s.pc >= 0 && s.index <= |s.text|
    ensures var r := MatchRepeatMatchText(s, target, m);
            r.Some? ==> s.index <= r.value.index <= |s.text|
    ensures var r := MatchRepeatMatchText(s, target, m);
            r.Some? && r.value.pc != s.pc && DelimiterAdvances(RepeatMatchText(target, m)) ==> r.value.index > s.index
  {
    BuiltInExecutorsAreSound();
    var (skip, g) := Setup(s, MatchKind);
    if !skip && TmActual(g, target, m).Some? {
      var hit := TmActual(g, target, m).value;
      assert hit.0 >= s.index;
      if DelimiterAdvances(RepeatMatchText(target, m)) && target.Many? {
        var first := FirstFit(s.text, StartOffset(g, m), target.items);
        assert |hit.1| > 0;
      }
    }
  }

  function Budget(prog: seq<Instruction>, s: State): nat
    requires s.index <= |s.text|
  {
    (|s.text| - s.index) * (|prog| + 1) + (if s.pc + 1 < |prog| then |prog| - 1 - s.pc else 0)
  }

  lemma MulMonotone(a: nat, b: nat, c: nat)
    requires a <= b
    ensures a * c <= b * c
  {
  }

  lemma BudgetCoversRest(prog: seq<Instruction>, s: State)
    requires s.index <= |s.text| && s.pc + 1 < |prog|
    ensures Budget(prog, s) >= |prog| - 1 - s.pc >= 1
  {
    var ds: nat := |s.text| - s.index;
    MulMonotone(0, ds, |prog| + 1);
  }

  /** The budget shrinks on every loop turn of a progressive run. */
  lemma BudgetShrinks(prog: seq<Instruction>, s: State, t: State)
    requires s.index <= |s.text| && t.text == s.text && t.index <= |t.text|
    requires -1 <= s.pc && s.pc + 1 < |prog|
    requires || (t.pc == s.pc + 1 && t.index >= s.index)
             || (-1 <= t.pc < |prog| && t.index > s.index)
    ensures Budget(prog, t) < Budget(prog, s)
  {
    var P := |prog| + 1;
    var ds: nat := |s.text| - s.index;
    var dt: nat := |t.text| - t.index;
    var ks: nat := |prog| - 1 - s.pc;
    var kt: nat := if t.pc + 1 < |prog| then |prog| - 1 - t.pc else 0;
    assert Budget(prog, s) == ds * P + ks;
    assert Budget(prog, t) == dt * P + kt;
    if t.pc == s.pc + 1 && t.index >= s.index {
      MulMonotone(dt, ds, P);
      assert kt < ks;
    } else {
      MulMonotone(dt, ds - 1, P);
      assert (ds - 1) * P == ds * P - P;
      assert kt < P;
    }
  }

  /** A program whose repeat delimiters always consume input runs to an end
      within `Budget` loop turns: each turn either moves to a later
      instruction without moving the cursor back, or rewinds and moves the
      cursor forward. So a loop's body runs at most once per remaining
      character. */
  lemma {:induction false} RunTerminates(prog: seq<Instruction>, s: State, fuel: nat)
    requires InBounds(prog, s) && Progressive(prog)
    requires fuel >= Budget(prog, s)
    ensures !Run(prog, s, fuel).OutOfFuel?
    decreases |s.text| - s.index, |prog| - s.pc
  {
    var pc := s.pc + 1;
    if pc >= |prog| {
      RunEnds(prog, s, fuel);
    } else if Step(prog[pc], s.(pc := pc)).None? {
      BudgetCoversRest(prog, s);
      RunThrows(prog, s, fuel);
    } else {
      var t := Step(prog[pc], s.(pc := pc)).value;
      TurnShrinksBudget(prog, s, fuel, t);
      RunTerminates(prog, t, fuel - 1);
    }
  }

  /** One loop turn of a progressive run stays in bounds, shrinks the budget
      and makes progress in the lexicographic order of cursor and pointer. */
  lemma TurnShrinksBudget(prog: seq<Instruction>, s: State, fuel: nat, t: State)
    requires InBounds(prog, s) && Progressive(prog)
    requires fuel >= Budget(prog, s) && s.pc + 1 < |prog|
    requires Step(prog[s.pc + 1], s.(pc := s.pc + 1)) == Some(t)
    ensures fuel > 0 && InBounds(prog, t) && fuel - 1 >= Budget(prog, t)
    ensures Run(prog, s, fuel) == Run(prog, t, fuel - 1)
    ensures t.text == s.text
    ensures t.index > s.index || (t.index == s.index && t.pc > s.pc)
  {
    var pc := s.pc + 1;
    BudgetCoversRest(prog, s);
    RunTurn(prog, s, fuel, t);
    StepMovesForward(prog[pc], s.(pc := pc));
    assert DelimiterAdvances(prog[pc]);
    BudgetShrinks(prog, s, t);
  }

  /** `matchArr_match` on a program with advancing delimiters, started inside
      the text, finishes (or throws) within the budget. */
  lemma MatchArrTerminates(text: string, bx: nat, prog: seq<Instruction>, capture: Option<map<string, Value>>)
    requires bx <= |text| && Progressive(prog)
    ensures !MatchArr(text, bx, prog, capture, (|text| - bx + 1) * (|prog| + 1)).OutOfFuel?
  {
    var s := Initial(text, bx, capture);
    MulMonotone(|text| - bx, |text| - bx + 1, |prog| + 1);
    RunTerminates(prog, s, (|text| - bx + 1) * (|prog| + 1));
  }

  /** Once `matchFail` is set, the rest of the run is inert: it finishes
      with the same cursor, verdict and captures. */
  lemma {:induction false} FailedRunIsInert(prog: seq<Instruction>, s: State, fuel: nat)
    requires PcOk(s) && s.matchFail
    requires s.pc + 1 + fuel >= |prog|
    ensures Run(prog, s, fuel).Finished?
    ensures var t := Run(prog, s, fuel).state;
            && t.matchFail && t.index == s.index && t.isMatch == s.isMatch && t.capture == s.capture
            && t.anchor == s.anchor && t.repeatName == s.repeatName
    decreases |prog| - s.pc
  {
    var pc := s.pc + 1;
    if pc < |prog| {
      var t := Step(prog[pc], s.(pc := pc)).value;
      FailedRunIsInert(prog, t, fuel - 1);
    }
  }

  /** A false verdict outside an or-group is promoted by every dispatched
      instruction except `or`, and nothing else changes. */
  lemma FalseVerdictPromoted(ins: Instruction, t: State)
    requires PcOk(t) && t.pc >= 0
    requires !t.isMatch && !t.matchFail && !t.orActive
    requires !ins.Or? && !ins.CaptureBegin? && !ins.CaptureEnd?
    ensures Step(ins, t) == Some(t.(matchFail := true))
  {
  }

  /** A found delimiter whose lookahead vetoes it rewinds to the loop
      anchor with a false verdict, unless `zeroMatchOk`; the cursor and
      captures stay. */
  lemma VetoedDelimiterRewinds(s: State, target: TextArg, m: Modifiers, at: int, pc: int, bx: nat, x: string)
    requires s.anchor == Slot(at) && !m.zeroMatchOk && !Setup(s, MatchKind).0
    requires TmActual(Setup(s, MatchKind).1, target, m) == Some((bx, x))
    requires LookaheadVetoes(s.text, bx + |x|, m.peekNextText, m.peekNextNotText)
    ensures MatchRepeatMatchText(s.(pc := pc), target, m) == Some(s.(isMatch := false, orActive := false, pc := at))
  {
    var s1 := s.(pc := pc);
    var g1 := Setup(s1, MatchKind).1;
    assert !Setup(s1, MatchKind).0 && g1 == Setup(s, MatchKind).1.(pc := pc);
    assert TmActual(g1, target, m) == Some((bx, x)) by {
      assert StartOffset(g1, m) == StartOffset(Setup(s, MatchKind).1, m);
    }
    assert ProcessMatchTrue(g1, m, bx, |x|) == g1.(isMatch := false);
  }

  /** A delimiter that is found but vetoed by its lookahead, without
      `zeroMatchOk`, still rewinds the loop. It leaves the verdict false,
      so the first instruction of the loop body (unless that is an `or` or
      an undispatched capture oper) promotes it to `matchFail`, and the run
      ends with the cursor and captures the delimiter found. */
  lemma VetoedDelimiterEndsRun(prog: seq<Instruction>, s: State, target: TextArg, m: Modifiers, at: int, bx: nat, x: string, fuel: nat)
    requires PcOk(s) && s.pc + 1 < |prog| && prog[s.pc + 1] == RepeatMatchText(target, m)
    requires s.anchor == Slot(at) && at + 1 < |prog|
    requires !prog[at + 1].Or? && !prog[at + 1].CaptureBegin? && !prog[at + 1].CaptureEnd?
    requires !m.zeroMatchOk && !Setup(s, MatchKind).0
    requires TmActual(Setup(s, MatchKind).1, target, m) == Some((bx, x))
    requires LookaheadVetoes(s.text, bx + |x|, m.peekNextText, m.peekNextNotText)
    requires fuel > |prog|
    ensures Run(prog, s, fuel).Finished?
    ensures var t := Run(prog, s, fuel).state;
            t.matchFail && !t.isMatch && t.index == s.index && t.capture == s.capture
  {
    VetoedDelimiterRewinds(s, target, m, at, s.pc + 1, bx, x);
    var t := s.(isMatch := false, orActive := false, pc := at);
    RunTurn(prog, s, fuel, t);
    var u := t.(pc := at + 1, matchFail := true);
    FalseVerdictPromoted(prog[at + 1], t.(pc := at + 1));
    RunTurn(prog, t, fuel - 1, u);
    FailedRunIsInert(prog, u, fuel - 2);
  }

  /** Extra fuel does not change a run that has already ended. */
  lemma {:induction false} MoreFuelSameOutcome(prog: seq<Instruction>, s: State, fuel: nat, more: nat)
    requires PcOk(s) && fuel <= more
    requires !Run(prog, s, fuel).OutOfFuel?
    ensures Run(prog, s, more) == Run(prog, s, fuel)
    decreases fuel
  {
    var pc := s.pc + 1;
    if pc < |prog| {
      var r := Step(prog[pc], s.(pc := pc));
      if r.Some? {
        MoreFuelSameOutcome(prog, r.value, fuel - 1, more - 1);
      }
    }
  }

  predicate PlainMatcher(ins: Instruction)
  {
    ins.Identifier? || ins.Literal? || ins.Text?
  }

  /** A matcher that reports failure on a live state has written nothing and
      not moved. */
  lemma FailedMatcherWritesNothing(ins: Instruction, s: State)
    requires PlainMatcher(ins) && PcOk(s) && s.pc >= 0
    requires s.isMatch && !s.matchFail && !s.orActive
    requires !Step(ins, s).value.isMatch
    ensures var t := Step(ins, s).value;
            t.index == s.index && t.capture == s.capture && !t.matchFail && !t.orActive
  {
  }

  /** Two states that differ at most in the verdict. */
  predicate SameButVerdict(s: State, t: State)
  {
    t == s.(isMatch := t.isMatch)
  }

  predicate AgreeAfterAttempt(t1: State, t2: State, m: Modifiers)
  {
    && t1.index == t2.index && t1.capture == t2.capture && t1.matchFail == t2.matchFail
    && (!m.zeroMatchOk ==> t1.isMatch == t2.isMatch)
  }

  lemma ProcessMatchIgnoresVerdict(s: State, t: State, m: Modifiers, bx: nat, lx: nat)
    requires SameButVerdict(s, t)
    ensures AgreeAfterAttempt(ProcessMatchTrue(s, m, bx, lx), ProcessMatchTrue(t, m, bx, lx), m)
    ensures AgreeAfterAttempt(ProcessMatchFalse(s, m), ProcessMatchFalse(t, m), m)
  {
  }

  lemma RegExpAttemptIgnoresVerdict(s: State, t: State, m: Modifiers, exec: Exec)
    requires SameButVerdict(s, t)
    ensures AgreeAfterAttempt(RegExpAttempt(s, m, exec), RegExpAttempt(t, m, exec), m)
  {
    assert StartOffset(s, m) == StartOffset(t, m);
    var ix := StartOffset(s, m);
    if ix < |s.text| && exec(s.text, ix).Found? && exec(s.text, ix).ox == 0 {
      ProcessMatchIgnoresVerdict(s, t, m, ix, exec(s.text, ix).lx);
    } else {
      ProcessMatchIgnoresVerdict(s, t, m, 0, 0);
    }
  }

  lemma TextAttemptIgnoresVerdict(s: State, t: State, target: TextArg, m: Modifiers)
    requires SameButVerdict(s, t)
    ensures AgreeAfterAttempt(TextAttempt(s, target, m), TextAttempt(t, target, m), m)
  {
    assert TmActual(s, target, m) == TmActual(t, target, m);
    match TmActual(s, target, m)
    case Some(hit) => ProcessMatchIgnoresVerdict(s, t, m, hit.0, |hit.1|);
    case None => ProcessMatchIgnoresVerdict(s, t, m, 0, 0);
  }

  /** A matcher that passes the gate computes the same cursor and captures
      whatever the previous verdict was; the verdict itself only differs when
      a failure is forgiven by `zeroMatchOk`. */
  lemma MatcherIgnoresPriorVerdict(ins: Instruction, s: State, b: bool)
    requires PlainMatcher(ins) && PcOk(s) && s.pc >= 0
    requires !s.matchFail && !s.orActive && s.isMatch
    ensures var t1 := Step(ins, s).value;
            var t2 := Step(ins, s.(isMatch := b, orActive := !b)).value;
            && t1.index == t2.index && t1.capture == t2.capture && t1.matchFail == t2.matchFail
            && (!ins.m.zeroMatchOk ==> t1.isMatch == t2.isMatch)
  {
    var s2 := s.(isMatch := b, orActive := !b);
    var g := s.(isMatch := b);
    assert Setup(s, MatchKind) == (false, s);
    assert Setup(s2, MatchKind) == (false, g);
    match ins
    case Identifier(m) =>
      assert Step(ins, s).value == RegExpAttempt(s, m, IdentifierExec);
      assert Step(ins, s2).value == RegExpAttempt(g, m, IdentifierExec);
      RegExpAttemptIgnoresVerdict(s, g, m, IdentifierExec);
    case Literal(m) =>
      assert Step(ins, s).value == RegExpAttempt(s, m, LiteralExec);
      assert Step(ins, s2).value == RegExpAttempt(g, m, LiteralExec);
      RegExpAttemptIgnoresVerdict(s, g, m, LiteralExec);
    case Text(target, m) =>
      assert Step(ins, s).value == TextAttempt(s, target, m);
      assert Step(ins, s2).value == TextAttempt(g, target, m);
      TextAttemptIgnoresVerdict(s, g, target, m);
  }

  lemma ProcessMatchIgnoresPc(s: State, m: Modifiers, bx: nat, lx: nat, pc: int)
    ensures ProcessMatchTrue(s.(pc := pc), m, bx, lx) == ProcessMatchTrue(s, m, bx, lx).(pc := pc)
    ensures ProcessMatchFalse(s.(pc := pc), m) == ProcessMatchFalse(s, m).(pc := pc)
  {
  }

  lemma RegExpAttemptIgnoresPc(g: State, m: Modifiers, exec: Exec, pc: int)
    ensures RegExpAttempt(g.(pc := pc), m, exec) == RegExpAttempt(g, m, exec).(pc := pc)
  {
    var ix := StartOffset(g, m);
    assert StartOffset(g.(pc := pc), m) == ix;
    if ix < |g.text| && exec(g.text, ix).Found? && exec(g.text, ix).ox == 0 {
      ProcessMatchIgnoresPc(g, m, ix, exec(g.text, ix).lx, pc);
    } else {
      ProcessMatchIgnoresPc(g, m, 0, 0, pc);
    }
  }

  lemma TextAttemptIgnoresPc(g: State, target: TextArg, m: Modifiers, pc: int)
    ensures TextAttempt(g.(pc := pc), target, m) == TextAttempt(g, target, m).(pc := pc)
  {
    assert TmActual(g.(pc := pc), target, m) == TmActual(g, target, m);
    match TmActual(g, target, m)
    case Some(hit) => ProcessMatchIgnoresPc(g, m, hit.0, |hit.1|, pc);
    case None => ProcessMatchIgnoresPc(g, m, 0, 0, pc);
  }

  /** A plain matcher does not look at the instruction pointer. */
  lemma PlainMatcherIgnoresPc(ins: Instruction, s: State, pc: nat)
    requires PlainMatcher(ins) && PcOk(s) && s.pc >= 0
    ensures Step(ins, s.(pc := pc)).value == Step(ins, s).value.(pc := pc)
  {
    var s2 := s.(pc := pc);
    var (skip, g) := Setup(s, MatchKind);
    assert Setup(s2, MatchKind) == (skip, g.(pc := pc));
    if skip {
    } else {
      match ins
      case Identifier(m) =>
        if !s.matchFail {
          assert Step(ins, s).value == RegExpAttempt(g, m, IdentifierExec);
          assert Step(ins, s2).value == RegExpAttempt(g.(pc := pc), m, IdentifierExec);
          RegExpAttemptIgnoresPc(g, m, IdentifierExec, pc);
        }
      case Literal(m) =>
        if !s.matchFail {
          assert Step(ins, s).value == RegExpAttempt(g, m, LiteralExec);
          assert Step(ins, s2).value == RegExpAttempt(g.(pc := pc), m, LiteralExec);
          RegExpAttemptIgnoresPc(g, m, LiteralExec, pc);
        }
      case Text(target, m) =>
        assert Step(ins, s).value == TextAttempt(g, target, m);
        assert Step(ins, s2).value == TextAttempt(g.(pc := pc), target, m);
        TextAttemptIgnoresPc(g, target, m, pc);
    }
  }

  /** One turn of the interpreter loop that runs an instruction and leaves
      the pointer on it. */
  lemma RunTurn(prog: seq<Instruction>, s: State, fuel: nat, t: State)
    requires PcOk(s) && s.pc + 1 < |prog| && fuel > 0
    requires Step(prog[s.pc + 1], s.(pc := s.pc + 1)) == Some(t)
    ensures PcOk(t)
    ensures Run(prog, s, fuel) == Run(prog, t, fuel - 1)
  {
    RunUnfold(prog, s, fuel);
  }

  /** One turn of the loop, while instructions and fuel remain. */
  lemma RunUnfold(prog: seq<Instruction>, s: State, fuel: nat)
    requires PcOk(s) && s.pc + 1 < |prog| && fuel > 0
    ensures Run(prog, s, fuel)
            == match Step(prog[s.pc + 1], s.(pc := s.pc + 1))
               case None => Threw
               case Some(t) => Run(prog, t, fuel - 1)
  {
    var pc := s.pc + 1;
    assert !(pc >= |prog|) && fuel != 0;
  }

  /** A rewind to the undefined anchor ends the run by throwing. */
  lemma RunThrows(prog: seq<Instruction>, s: State, fuel: nat)
    requires PcOk(s) && s.pc + 1 < |prog| && fuel > 0
    requires Step(prog[s.pc + 1], s.(pc := s.pc + 1)).None?
    ensures Run(prog, s, fuel) == Threw
  {
    RunUnfold(prog, s, fuel);
  }

  /** The loop stops once the pointer has passed the last instruction. */
  lemma RunEnds(prog: seq<Instruction>, s: State, fuel: nat)
    requires PcOk(s) && s.pc + 1 >= |prog|
    ensures Run(prog, s, fuel) == Finished(s.(pc := s.pc + 1))
  {
  }

  /** The run of `A or B` where A fails: B runs on the state A started
      from, with the verdict cleared and an or-group open. */
  lemma FailedFirstAlternativeRun(a: Instruction, b: Instruction, s: State, fuel: nat)
    requires PlainMatcher(a) && PlainMatcher(b) && fuel >= 3
    requires s.pc == -1 && PcOk(s) && s.isMatch && !s.matchFail && !s.orActive
    requires !Step(a, s.(pc := 0)).value.isMatch
    ensures Run([a, Or, b], s, fuel)
            == Finished(Step(b, s.(pc := 2, isMatch := false, orActive := true)).value.(pc := 3))
  {
    var prog := [a, Or, b];
    var s0 := s.(pc := 0);
    FailedMatcherWritesNothing(a, s0);
    var u := Step(a, s0).value;
    var v := s.(pc := 1, isMatch := false, orActive := true);
    assert u.pc == 0 && MatchOr(u.(pc := 1)) == v;
    assert v.(pc := 2) == s.(pc := 2, isMatch := false, orActive := true);
    var w := Step(b, v.(pc := 2)).value;
    ThreeTurns(prog, s, u, v, w, fuel);
  }

  /** A three-instruction program whose turns go through `u`, `v` and `w`
      finishes with `w`. */
  lemma ThreeTurns(prog: seq<Instruction>, s: State, u: State, v: State, w: State, fuel: nat)
    requires |prog| == 3 && fuel >= 3 && PcOk(s) && s.pc == -1
    requires Step(prog[0], s.(pc := 0)) == Some(u) && u.pc == 0
    requires Step(prog[1], u.(pc := 1)) == Some(v) && v.pc == 1
    requires Step(prog[2], v.(pc := 2)) == Some(w) && w.pc == 2
    ensures Run(prog, s, fuel) == Finished(w.(pc := 3))
  {
    RunTurn(prog, s, fuel, u);
    RunTurn(prog, u, fuel - 1, v);
    RunTurn(prog, v, fuel - 2, w);
    RunEnds(prog, w, fuel - 3);
  }

  /** The run of a single matcher. */
  lemma SingleRun(b: Instruction, s: State, fuel: nat)
    requires PlainMatcher(b) && s.pc == -1 && PcOk(s) && fuel >= 1
    ensures Run([b], s, fuel) == Finished(Step(b, s.(pc := 0)).value.(pc := 1))
  {
    var w := Step(b, s.(pc := 0)).value;
    RunTurn([b], s, fuel, w);
    assert w.pc == 0;
    RunEnds([b], w, fuel - 1);
  }

  /** `A or B` where A fails: B gets an unprejudiced attempt, and the run ends
      with the cursor and captures of running B alone. */
  lemma OrForgivesFailedFirstAlternative(a: Instruction, b: Instruction, s: State, fuel: nat)
    requires PlainMatcher(a) && PlainMatcher(b) && fuel >= 3
    requires s.pc == -1 && PcOk(s) && s.isMatch && !s.matchFail && !s.orActive
    requires !Step(a, s.(pc := 0)).value.isMatch
    ensures Run([a, Or, b], s, fuel).Finished? && Run([b], s, fuel).Finished?
    ensures var t1 := Run([a, Or, b], s, fuel).state;
            var t2 := Run([b], s, fuel).state;
            && t1.index == t2.index && t1.capture == t2.capture && t1.matchFail == t2.matchFail
            && (!b.m.zeroMatchOk ==> t1.isMatch == t2.isMatch)
  {
    FailedFirstAlternativeRun(a, b, s, fuel);
    SingleRun(b, s, fuel);
    MatcherIgnoresPriorVerdict(b, s.(pc := 2), false);
    PlainMatcherIgnoresPc(b, s.(pc := 2), 0);
  }

  /** A failure on the last instruction is not promoted to `matchFail`:
      whatever the last turn leaves, the loop stops right after it, so a
      false verdict reaches the caller with the failure flag as that turn
      left it. */
  lemma LastFailureNotPromoted(prog: seq<Instruction>, s: State, fuel: nat, t: State)
    requires PcOk(s) && s.pc + 2 == |prog| && fuel >= 1
    requires Step(prog[s.pc + 1], s.(pc := s.pc + 1)) == Some(t) && t.pc == s.pc + 1
    ensures Run(prog, s, fuel) == Finished(t.(pc := |prog|))
    ensures !t.isMatch && !t.matchFail ==> !Run(prog, s, fuel).state.isMatch && !Run(prog, s, fuel).state.matchFail
  {
    RunTurn(prog, s, fuel, t);
    RunEnds(prog, t, fuel - 1);
  }

  /** The one-instruction case: a text that does not occur at offset 0
      leaves the run with only the transient verdict false. */
  lemma LastTextFailureExample(text: string, x: string)
    requires !OccursAt(text, x, 0) || x == ""
    ensures MatchArr(text, 0, [Text(One(x), Plain)], None, 1).Finished?
    ensures var t := MatchArr(text, 0, [Text(One(x), Plain)], None, 1).state;
            !t.isMatch && !t.matchFail && t.index == 0
  {
  }

  const KeywordParen: seq<Instruction> := [
    Identifier(Plain.(zeroMoreWhitespace := true, captureName := "keyword")),
    Text(One("("), Plain),
    Identifier(Plain.(zeroMoreWhitespace := true, captureName := "vlu")),
    Text(One(")"), Plain.(zeroMoreWhitespace := true))
  ]

  /** The run of word characters in `overlay(oditno)` from offset `ix`. */
  lemma OverlayWordRuns()
    ensures ClassRun("overlay(oditno)", 1, WordChars) == 6
    ensures ClassRun("overlay(oditno)", 9, WordChars) == 5
  {
    var text := "overlay(oditno)";
    assert text[7] == '(' && text[14] == ')';
    assert ClassRun(text, 7, WordChars) == 0;
    assert ClassRun(text, 6, WordChars) == 1;
    assert ClassRun(text, 5, WordChars) == 2;
    assert ClassRun(text, 4, WordChars) == 3;
    assert ClassRun(text, 3, WordChars) == 4;
    assert ClassRun(text, 2, WordChars) == 5;
    assert ClassRun(text, 14, WordChars) == 0;
    assert ClassRun(text, 13, WordChars) == 1;
    assert ClassRun(text, 12, WordChars) == 2;
    assert ClassRun(text, 11, WordChars) == 3;
    assert ClassRun(text, 10, WordChars) == 4;
  }

  /** A state that has not failed, with no open or-group. */
  predicate Live(s: State)
  {
    PcOk(s) && s.pc >= 0 && s.isMatch && !s.matchFail && !s.orActive
  }

  /** On a live state an identifier that matches at the start offset is
      accepted there. */
  lemma LiveIdentifierStep(s: State, m: Modifiers)
    requires Live(s)
    requires StartOffset(s, m) < |s.text|
    requires IdentifierExec(s.text, StartOffset(s, m)).Found? && IdentifierExec(s.text, StartOffset(s, m)).ox == 0
    ensures Step(Identifier(m), s) == Some(ProcessMatchTrue(s, m, StartOffset(s, m), IdentifierExec(s.text, StartOffset(s, m)).lx))
  {
    assert Setup(s, MatchKind) == (false, s);
  }

  /** On a live state a single non-empty text that occurs at the start offset
      is accepted there. */
  lemma LiveTextStep(s: State, x: string, m: Modifiers)
    requires Live(s)
    requires x != "" && OccursAt(s.text, x, StartOffset(s, m))
    ensures Step(Text(One(x), m), s) == Some(ProcessMatchTrue(s, m, StartOffset(s, m), |x|))
  {
    assert Setup(s, MatchKind) == (false, s);
  }

  /** An accepted match with no lookahead, no `peek` and no `doCapture`
      moves the cursor to its end and stores the trimmed text under its
      name, if any. */
  lemma SimpleAcceptance(s: State, m: Modifiers, bx: nat, lx: nat)
    requires m.peekNextText == "" && m.peekNextNotText == "" && !m.peek && !m.doCapture
    ensures ProcessMatchTrue(s, m, bx, lx)
            == s.(isMatch := true, index := bx + lx,
                  capture := if m.captureName != "" then s.capture[m.captureName := Str(Trim(Substr(s.text, bx, lx)))]
                             else s.capture)
  {
  }

  const Overlay := "overlay(oditno)"

  function OverlayState(index: nat, capture: map<string, Value>, pc: int): State
  {
    State(Overlay, index, true, false, capture, pc, Unset, "", false)
  }

  lemma OverlayKeyword()
    ensures Step(KeywordParen[0], OverlayState(0, map[], 0))
            == Some(OverlayState(7, map["keyword" := Str("overlay")], 0))
  {
    var s := OverlayState(0, map[], 0);
    var m := KeywordParen[0].m;
    OverlayWordRuns();
    assert SkipWs(Overlay, 0) == 0;
    assert IdentifierExec(Overlay, 0) == Found(0, 7);
    LiveIdentifierStep(s, m);
    SimpleAcceptance(s, m, 0, 7);
    assert Trim(Substr(Overlay, 0, 7)) == "overlay";
  }

  lemma OverlayOpenParen()
    ensures Step(KeywordParen[1], OverlayState(7, map["keyword" := Str("overlay")], 1))
            == Some(OverlayState(8, map["keyword" := Str("overlay")], 1))
  {
    var s := OverlayState(7, map["keyword" := Str("overlay")], 1);
    assert KeywordParen[1] == Text(One("("), Plain);
    assert StartOffset(s, Plain) == 7;
    assert OccursAt(Overlay, "(", 7);
    LiveTextStep(s, "(", Plain);
    SimpleAcceptance(s, Plain, 7, 1);
  }

  lemma OverlayValue()
    ensures Step(KeywordParen[2], OverlayState(8, map["keyword" := Str("overlay")], 2))
            == Some(OverlayState(14, map["keyword" := Str("overlay"), "vlu" := Str("oditno")], 2))
  {
    var s := OverlayState(8, map["keyword" := Str("overlay")], 2);
    var m := KeywordParen[2].m;
    OverlayWordRuns();
    assert SkipWs(Overlay, 8) == 8;
    assert IdentifierExec(Overlay, 8) == Found(0, 6);
    LiveIdentifierStep(s, m);
    SimpleAcceptance(s, m, 8, 6);
    assert Trim(Substr(Overlay, 8, 6)) == "oditno";
  }

  lemma OverlayCloseParen()
    ensures Step(KeywordParen[3], OverlayState(14, map["keyword" := Str("overlay"), "vlu" := Str("oditno")], 3))
            == Some(OverlayState(15, map["keyword" := Str("overlay"), "vlu" := Str("oditno")], 3))
  {
    var s := OverlayState(14, map["keyword" := Str("overlay"), "vlu" := Str("oditno")], 3);
    var m := KeywordParen[3].m;
    assert SkipWs(Overlay, 14) == 14;
    assert OccursAt(Overlay, ")", 14);
    LiveTextStep(s, ")", m);
    SimpleAcceptance(s, m, 14, 1);
  }

  /** `overlay(oditno)`: keyword and parenthesised identifier. */
  lemma KeywordParenExample()
    ensures MatchArr(Overlay, 0, KeywordParen, None, 4).Finished?
    ensures var t := MatchArr(Overlay, 0, KeywordParen, None, 4).state;
            && t.isMatch && !t.matchFail && t.index == 15
            && t.capture == map["keyword" := Str("overlay"), "vlu" := Str("oditno")]
  {
    var prog := KeywordParen;
    var k := map["keyword" := Str("overlay")];
    var kv := map["keyword" := Str("overlay"), "vlu" := Str("oditno")];
    var s0 := Initial(Overlay, 0, None);
    assert s0 == OverlayState(0, map[], -1);
    OverlayKeyword();
    RunTurn(prog, s0, 4, OverlayState(7, k, 0));
    OverlayOpenParen();
    RunTurn(prog, OverlayState(7, k, 0), 3, OverlayState(8, k, 1));
    OverlayValue();
    RunTurn(prog, OverlayState(8, k, 1), 2, OverlayState(14, kv, 2));
    OverlayCloseParen();
    RunTurn(prog, OverlayState(14, kv, 2), 1, OverlayState(15, kv, 3));
    RunEnds(prog, OverlayState(15, kv, 3), 0);
  }
}
