/** Properties of the fluent front-end across calls: failed or blocked frames
    ignore calls; `or` lets exactly one alternative through; the frame stack
    stays well formed and the committed cursor never moves back; capture
    groups commit, roll back or vanish as a whole; and the chain of the
    `overlay(oditno)` test. */
module MatchCaptureProofs {
  import opened TextScan
  import opened Regex
  import opened Capture
  import opened MatchCapture
  import opened FluentChain
  import ArrayMatchProofs

  /** A frame that skips every gated call: blocked by its group, or failed. */
  predicate Inert(f: Frame)
  {
    Blocked(f) || f.matchFail
  }

  /** The call goes through the gate (`matchRegExp` with `skipSetup` does
      not). */
  predicate Gated(call: Call)
  {
    call.OnFrame() && !(call.CallMatchRegExp? && call.o.skipSetup)
  }

  /** An inert frame answers every gated call by skipping it: its cursor,
      verdict and captures stay, and it stays inert. */
  lemma InertFrameSkips(f: Frame, call: Call)
    requires Inert(f) && Gated(call)
    ensures var r := ApplyFrame(f, call);
            && r.index == f.index && r.isMatch == f.isMatch && r.captureObject == f.captureObject
            && r.matchFail == f.matchFail && Inert(r)
  {
  }

  /** Over a chain of gated calls an inert frame keeps its cursor, verdict
      and captures, and the enclosing frames are not touched. */
  lemma {:induction false} InertFrameIgnoresChain(c: Cursor, calls: seq<Call>)
    requires Inert(c.top)
    requires forall k :: 0 <= k < |calls| ==> Gated(calls[k])
    ensures var r := Chain(c, calls);
            && r.parents == c.parents
            && r.top.index == c.top.index && r.top.isMatch == c.top.isMatch
            && r.top.captureObject == c.top.captureObject && r.top.matchFail == c.top.matchFail
            && Inert(r.top)
    decreases |calls|
  {
    if |calls| > 0 {
      InertFrameSkips(c.top, calls[0]);
      InertFrameIgnoresChain(Apply(c, calls[0]), calls[1..]);
    }
  }

  /** No sequence number marked by an `or` is pending: the last call was
      not an `or`, and no skip mark lies ahead. */
  predicate NoMark(f: Frame)
  {
    f.skipSeqn <= f.instructSeqn && f.orSeqn < f.instructSeqn
  }

  /** Without an `or` before it, a call that meets a false verdict fails the
      frame for good and is skipped. */
  lemma FalseVerdictBecomesFailure(f: Frame)
    requires !Inert(f) && !f.isMatch && NoMark(f)
    ensures Gate(f) == (true, f.(instructSeqn := f.instructSeqn + 1, matchFail := true))
  {
  }

  /** `A.or().B`, A matched: the call B is skipped without effect, and the
      call after B meets a live frame with no pending mark. */
  lemma MatchedAlternativeSkipsNext(f: Frame, call: Call)
    requires !Inert(f) && f.isMatch && NoMark(f)
    requires Gated(call) && !call.CallOr?
    ensures var u := ApplyFrame(Or(f), call);
            && u.index == f.index && u.isMatch && u.captureObject == f.captureObject
            && !Inert(u) && NoMark(u)
  {
    var t := Or(f);
    assert t.orSeqn == t.instructSeqn && t.skipSeqn == t.instructSeqn + 1;
    assert Gate(t) == (true, t.(instructSeqn := t.instructSeqn + 1));
  }

  /** `A.or().B`, A failed: the `or` keeps the failure from being promoted,
      and B passes the gate on the frame as A left it. */
  lemma FailedAlternativeLetsNextRun(f: Frame)
    requires !Inert(f) && !f.isMatch && NoMark(f)
    ensures var t := Or(f);
            && t == f.(instructSeqn := f.instructSeqn + 1, orSeqn := f.instructSeqn + 1)
            && Gate(t) == (false, t.(instructSeqn := t.instructSeqn + 1))
  {
  }

  /** Two frames that differ at most in verdict and sequence numbers. */
  predicate SameButBookkeeping(g1: Frame, g2: Frame)
  {
    g2 == g1.(isMatch := g2.isMatch, instructSeqn := g2.instructSeqn,
              skipSeqn := g2.skipSeqn, orSeqn := g2.orSeqn)
  }

  /** What a fair attempt must reproduce: cursor, captures and failure flag,
      and the verdict too unless `zeroMatchOk` keeps the one before. */
  predicate SameOutcome(u: Frame, v: Frame, o: Options)
  {
    && u.index == v.index && u.captureObject == v.captureObject && u.matchFail == v.matchFail
    && (!o.zeroMatchOk ==> u.isMatch == v.isMatch)
  }

  lemma ProcessMatchIgnoresBookkeeping(g1: Frame, g2: Frame, o: Options, bx: nat, lx: nat)
    requires SameButBookkeeping(g1, g2)
    ensures SameOutcome(ProcessMatchTrue(g1, o, bx, lx), ProcessMatchTrue(g2, o, bx, lx), o)
    ensures SameOutcome(ProcessMatchFalse(g1, o), ProcessMatchFalse(g2, o), o)
  {
    assert MatchItem(g1, o, bx, lx) == MatchItem(g2, o, bx, lx);
  }

  lemma TextAttemptIgnoresBookkeeping(g1: Frame, g2: Frame, target: TextArg, o: Options)
    requires SameButBookkeeping(g1, g2)
    ensures SameOutcome(TextAttempt(g1, target, o), TextAttempt(g2, target, o), o)
  {
    var ix := StartAt(g1, o);
    assert StartAt(g2, o) == ix;
    match target
    case Many(items) =>
      match FirstFit(g1.text, ix, items) {
        case Some(k) => ProcessMatchIgnoresBookkeeping(g1, g2, o, ix, |items[k]|);
        case None => ProcessMatchIgnoresBookkeeping(g1, g2, o, 0, 0);
      }
    case One(x) =>
      ProcessMatchIgnoresBookkeeping(g1, g2, o, ix, |x|);
  }

  lemma RegExpAttemptIgnoresBookkeeping(g1: Frame, g2: Frame, exec: Exec, o: Options)
    requires SameButBookkeeping(g1, g2)
    ensures SameOutcome(RegExpAttempt(g1, exec, o), RegExpAttempt(g2, exec, o), o)
  {
    var ix := StartAt(g1, o);
    assert StartAt(g2, o) == ix && g2.text == g1.text;
    var hit := RegExpFit(g1.text, ix, exec);
    RegExpAttemptByFit(g1, exec, o);
    RegExpAttemptByFit(g2, exec, o);
    if hit.Some? {
      ProcessMatchIgnoresBookkeeping(g1, g2, o, ix, hit.value);
    } else if ix < |g1.text| {
      ProcessMatchIgnoresBookkeeping(g1, g2, o, 0, 0);
    }
  }

  /** `A.or().matchText(x)` with A failed gives the text match the same
      attempt it would get on a fresh passing frame: the same cursor,
      captures and failure flag, and the same verdict unless `zeroMatchOk`
      keeps A's false one. */
  lemma FailedAlternativeGivesFairTextAttempt(f: Frame, target: TextArg, o: Options)
    requires !Inert(f) && !f.isMatch && NoMark(f)
    ensures SameOutcome(MatchText(Or(f), target, o), MatchText(f.(isMatch := true), target, o), o)
  {
    FailedAlternativeLetsNextRun(f);
    var t := Or(f);
    var g1 := t.(instructSeqn := t.instructSeqn + 1);
    var live := f.(isMatch := true);
    assert Gate(live) == (false, live.(instructSeqn := live.instructSeqn + 1));
    TextAttemptIgnoresBookkeeping(g1, live.(instructSeqn := live.instructSeqn + 1), target, o);
  }

  /** The same for `identifier`. */
  lemma FailedAlternativeGivesFairIdentifierAttempt(f: Frame, o: Options)
    requires !Inert(f) && !f.isMatch && NoMark(f)
    ensures SameOutcome(Identifier(Or(f), o), Identifier(f.(isMatch := true), o), o)
  {
    FailedAlternativeLetsNextRun(f);
    var t := Or(f);
    var g1 := t.(instructSeqn := t.instructSeqn + 1);
    var live := f.(isMatch := true);
    assert Gate(live) == (false, live.(instructSeqn := live.instructSeqn + 1));
    RegExpAttemptIgnoresBookkeeping(g1, live.(instructSeqn := live.instructSeqn + 1), IdentifierExec, Ungated(o));
  }

  /** Sequence marks never point more than one instruction ahead. */
  predicate SeqnOk(f: Frame)
  {
    f.skipSeqn <= f.instructSeqn + 1 && f.orSeqn <= f.instructSeqn
  }

  /** The match of a frame runs from its start to its cursor, inside the
      text. */
  predicate FrameOk(f: Frame)
  {
    f.start <= f.index <= |f.text| && SeqnOk(f)
  }

  /** The frame one level inside the enclosing frame `parents[i]`. */
  function Inner(c: Cursor, i: nat): Frame
    requires i < |c.parents|
  {
    if i + 1 < |c.parents| then c.parents[i + 1] else c.top
  }

  /** The frame stack is well formed: every frame is sound and works on the
      same text; every group starts exactly where the enclosing frame's
      cursor stands; and a group opened on an inert frame is skipped as a
      whole. */
  predicate Wf(c: Cursor)
  {
    && FrameOk(c.top)
    && (forall i :: 0 <= i < |c.parents| ==> FrameOk(c.parents[i]) && c.parents[i].text == c.top.text)
    && (forall i :: 0 <= i < |c.parents| ==> c.parents[i].index == Inner(c, i).start)
    && (forall i :: 0 <= i < |c.parents| ==> Inert(c.parents[i]) ==> Inner(c, i).bypassAll)
  }

  /** The regular expression a call runs reports matches inside the text. */
  ghost predicate CallSound(call: Call)
  {
    call.CallMatchRegExp? ==> Sound(call.exec)
  }

  lemma GateKeepsFrameOk(f: Frame)
    requires FrameOk(f)
    ensures FrameOk(Gate(f).1) && Gate(f).1.index == f.index
    ensures Inert(Gate(f).1) ==> Gate(f).0
  {
  }

  lemma ProcessMatchAdvances(f: Frame, o: Options, bx: nat, lx: nat)
    requires FrameOk(f) && f.index <= bx && bx + lx <= |f.text|
    ensures FrameOk(ProcessMatchTrue(f, o, bx, lx)) && f.index <= ProcessMatchTrue(f, o, bx, lx).index
  {
  }

  lemma ProcessMatchFalseStays(f: Frame, o: Options)
    requires FrameOk(f)
    ensures FrameOk(ProcessMatchFalse(f, o)) && ProcessMatchFalse(f, o).index == f.index
  {
  }

  lemma TextAttemptAdvances(g: Frame, target: TextArg, o: Options)
    requires FrameOk(g)
    ensures FrameOk(TextAttempt(g, target, o)) && g.index <= TextAttempt(g, target, o).index
  {
    var ix := StartAt(g, o);
    match target
    case Many(items) =>
      match FirstFit(g.text, ix, items) {
        case Some(k) => ProcessMatchAdvances(g, o, ix, |items[k]|);
        case None => ProcessMatchFalseStays(g, o);
      }
    case One(x) =>
      if OccursAt(g.text, x, ix) {
        ProcessMatchAdvances(g, o, ix, |x|);
      } else {
        ProcessMatchFalseStays(g, o);
      }
  }

  lemma RegExpAttemptAdvances(g: Frame, exec: Exec, o: Options)
    requires FrameOk(g) && Sound(exec)
    ensures FrameOk(RegExpAttempt(g, exec, o)) && g.index <= RegExpAttempt(g, exec, o).index
  {
    var ix := StartAt(g, o);
    if ix < |g.text| && exec(g.text, ix).Found? && exec(g.text, ix).ox == 0 {
      ProcessMatchAdvances(g, o, ix, exec(g.text, ix).lx);
    } else {
      ProcessMatchFalseStays(g, o);
    }
  }

  /** A call on the current frame keeps it sound and never moves its
      cursor back. */
  lemma FrameCallAdvances(f: Frame, call: Call)
    requires FrameOk(f) && call.OnFrame() && CallSound(call)
    ensures FrameOk(ApplyFrame(f, call)) && f.index <= ApplyFrame(f, call).index
  {
    var (skip, g) := Gate(f);
    GateKeepsFrameOk(f);
    BuiltInExecutorsAreSound();
    match call
    case CallMatchText(target, o) =>
      if !skip { TextAttemptAdvances(g, target, o); }
    case CallMatchRegExp(exec, o) =>
      if o.skipSetup { RegExpAttemptAdvances(f, exec, o); }
      else if !skip { RegExpAttemptAdvances(g, exec, o); }
    case CallIdentifier(o) =>
      if !skip { RegExpAttemptAdvances(g, IdentifierExec, Ungated(o)); }
    case CallLiteral(o) =>
      if !skip { RegExpAttemptAdvances(g, LiteralExec, Ungated(o)); }
    case CallOr =>
    case CallEndOfLine =>
    case CallEof(o) =>
      if !skip {
        if StartAt(g, o) >= |g.text| {
          ProcessMatchAdvances(g, o, |g.text|, 0);
        } else {
          ProcessMatchFalseStays(g, o);
        }
      }
    case CallUntil(u, inclusive) =>
    case CallZeroMoreWhitespace =>
    case CallOneMoreWhitespace =>
  }

  /** The frame the whole chain started from: the outermost one. */
  function Base(c: Cursor): Frame
  {
    if |c.parents| > 0 then c.parents[0] else c.top
  }

  lemma FrameCallKeepsWf(c: Cursor, call: Call)
    requires Wf(c) && call.OnFrame() && CallSound(call)
    ensures Wf(Apply(c, call))
    ensures Base(Apply(c, call)).start == Base(c).start
    ensures Base(c).index <= Base(Apply(c, call)).index
  {
    FrameCallAdvances(c.top, call);
    var r := Apply(c, call);
    forall i | 0 <= i < |r.parents|
      ensures r.parents[i].index == Inner(r, i).start
      ensures Inert(r.parents[i]) ==> Inner(r, i).bypassAll
    {
      assert Inner(r, i).start == Inner(c, i).start;
    }
  }

  lemma CaptureBeginKeepsWf(c: Cursor, o: Options)
    requires Wf(c)
    ensures Wf(CaptureBegin(c, o))
    ensures Base(CaptureBegin(c, o)).start == Base(c).start
    ensures Base(CaptureBegin(c, o)).index == Base(c).index
  {
    var (skip, g) := Gate(c.top);
    GateKeepsFrameOk(c.top);
    var r := CaptureBegin(c, o);
    assert r.top.index <= |r.top.text|;
    forall i | 0 <= i < |r.parents|
      ensures FrameOk(r.parents[i]) && r.parents[i].text == r.top.text
      ensures r.parents[i].index == Inner(r, i).start
      ensures Inert(r.parents[i]) ==> Inner(r, i).bypassAll
    {
      if i < |c.parents| {
        assert r.parents[i] == c.parents[i];
        if i + 1 < |c.parents| {
          assert Inner(r, i) == Inner(c, i);
        } else {
          assert Inner(r, i) == g;
        }
      }
    }
  }

  lemma CaptureEndKeepsWf(c: Cursor, o: Options)
    requires Wf(c)
    ensures Wf(CaptureEnd(c, o))
    ensures Base(CaptureEnd(c, o)).start == Base(c).start
    ensures Base(c).index <= Base(CaptureEnd(c, o)).index
  {
    var (_, t) := Gate(c.top);
    GateKeepsFrameOk(c.top);
    var r := CaptureEnd(c, o);
    if |c.parents| > 0 {
      var n := |c.parents| - 1;
      var p := c.parents[n];
      assert p.index == c.top.start;
      assert FrameOk(r.top);
      forall i | 0 <= i < |r.parents|
        ensures FrameOk(r.parents[i]) && r.parents[i].text == r.top.text
        ensures r.parents[i].index == Inner(r, i).start
        ensures Inert(r.parents[i]) ==> Inner(r, i).bypassAll
      {
        assert r.parents[i] == c.parents[i];
        if i + 1 < |r.parents| {
          assert Inner(r, i) == Inner(c, i);
        } else {
          assert Inner(c, i) == p;
          assert r.top.start == p.start && r.top.bypassAll == p.bypassAll;
        }
      }
    }
  }

  /** Every call keeps the frame stack well formed, and the outermost
      frame's cursor never moves back: what a chain has matched is only ever
      extended. */
  lemma CallKeepsWf(c: Cursor, call: Call)
    requires Wf(c) && CallSound(call)
    ensures Wf(Apply(c, call))
    ensures Base(Apply(c, call)).start == Base(c).start
    ensures Base(c).index <= Base(Apply(c, call)).index
  {
    match call
    case CallCaptureBegin(o) => CaptureBeginKeepsWf(c, o);
    case CallCaptureEnd(o) => CaptureEndKeepsWf(c, o);
    case CallCaptureEndZeroOne => CaptureEndKeepsWf(c, NoOptions.(zeroMatchOk := true));
    case _ => FrameCallKeepsWf(c, call);
  }

  lemma {:induction false} ChainKeepsWf(c: Cursor, calls: seq<Call>)
    requires Wf(c)
    requires forall k :: 0 <= k < |calls| ==> CallSound(calls[k])
    ensures Wf(Chain(c, calls))
    ensures Base(Chain(c, calls)).start == Base(c).start
    ensures Base(c).index <= Base(Chain(c, calls)).index
    decreases |calls|
  {
    if |calls| > 0 {
      CallKeepsWf(c, calls[0]);
      ChainKeepsWf(Apply(c, calls[0]), calls[1..]);
    }
  }

  /** Calls on the current frame leave the enclosing frames alone and keep
      the current frame's identity: text, start, group flags and name. */
  lemma {:induction false} FrameCallsKeepParents(c: Cursor, calls: seq<Call>)
    requires forall k :: 0 <= k < |calls| ==> calls[k].OnFrame()
    ensures var r := Chain(c, calls);
            && r.parents == c.parents
            && r.top.text == c.top.text && r.top.start == c.top.start
            && r.top.bypassAll == c.top.bypassAll && r.top.breakOut == c.top.breakOut
            && r.top.captureName == c.top.captureName && r.top.doCapture == c.top.doCapture
    decreases |calls|
  {
    if |calls| > 0 {
      FrameCallsKeepParents(Apply(c, calls[0]), calls[1..]);
    }
  }

  /** A capture group whose `captureBegin` the gate skipped is bypassed as
      a whole: after its body and its `captureEnd`, the enclosing frame is
      exactly as the gate left it. */
  lemma SkippedGroupLeavesParent(c: Cursor, o: Options, body: seq<Call>, oe: Options)
    requires Gate(c.top).0
    requires forall k :: 0 <= k < |body| ==> Gated(body[k])
    ensures CaptureEnd(Chain(CaptureBegin(c, o), body), oe) == Cursor(Gate(c.top).1, c.parents)
  {
    var inner := CaptureBegin(c, o);
    InertFrameIgnoresChain(inner, body);
    FrameCallsKeepParents(inner, body);
  }

  /** The group a `captureBegin` that ran opens, followed by its body: the
      child frame still on top, the enclosing frames below it. */
  predicate OpenGroup(c: Cursor, o: Options, body: seq<Call>, inner: Cursor)
  {
    && !Gate(c.top).0
    && (forall k :: 0 <= k < |body| ==> body[k].OnFrame())
    && inner == Chain(CaptureBegin(c, o), body)
  }

  /** A group that fails rolls back: the enclosing frame keeps its cursor
      and captures, only its verdict (or, with `zeroMatchBreak`, its
      break-out flag) can change. */
  lemma FailedGroupRollsBack(c: Cursor, o: Options, body: seq<Call>, inner: Cursor, oe: Options)
    requires OpenGroup(c, o, body, inner)
    requires Gate(inner.top).1.matchFail
    ensures var r := CaptureEnd(inner, oe);
            && r.parents == c.parents
            && r.top.index == c.top.index && r.top.captureObject == c.top.captureObject
            && r.top.isMatch == (c.top.isMatch && (oe.zeroMatchBreak || oe.zeroMatchOk))
            && r.top.breakOut == (c.top.breakOut || oe.zeroMatchBreak)
  {
    FrameCallsKeepParents(CaptureBegin(c, o), body);
  }

  /** A group that holds commits: the enclosing frame takes the child's
      cursor and verdict, and a named or `doCapture` group stores an item
      that spans from the cursor at `captureBegin` to the child's cursor and
      holds the child's capture object. */
  lemma HoldingGroupCommits(c: Cursor, o: Options, body: seq<Call>, inner: Cursor, oe: Options)
    requires OpenGroup(c, o, body, inner)
    requires !Gate(inner.top).1.matchFail
    ensures var r := CaptureEnd(inner, oe);
            var t := Gate(inner.top).1;
            && r.parents == c.parents
            && r.top.index == inner.top.index && r.top.isMatch == inner.top.isMatch
            && (o.captureName == "" && !o.doCapture ==> r.top.captureObject == c.top.captureObject)
            && (o.captureName != "" || o.doCapture ==>
                  && GroupItem(t, oe).bx == c.top.index
                  && GroupItem(t, oe).lx == inner.top.index - c.top.index
                  && GroupItem(t, oe).name == o.captureName
                  && ValueOf(GroupItem(t, oe)) == Obj(GroupObject(t, oe))
                  && r.top.captureObject == StoreCapture(c.top.captureObject, GroupItem(t, oe), o.doCapture))
  {
    FrameCallsKeepParents(CaptureBegin(c, o), body);
  }

  /** What a text attempt does depends only on the text, the cursor and
      the verdict; a failed attempt leaves the cursor where it was, and
      without a capture option the captures are not touched. */
  lemma TextAttemptDependsOnCursor(g1: Frame, g2: Frame, target: TextArg, o: Options)
    requires g1.text == g2.text && g1.index == g2.index && g1.isMatch == g2.isMatch
    ensures var u1 := TextAttempt(g1, target, o);
            var u2 := TextAttempt(g2, target, o);
            && u1.index == u2.index && u1.isMatch == u2.isMatch
            && (!u1.isMatch ==> u1.index == g1.index)
            && (o.captureName == "" && !o.doCapture ==>
                  u1.captureObject == g1.captureObject && u2.captureObject == g2.captureObject)
  {
    var ix := StartAt(g1, o);
    assert StartAt(g2, o) == ix;
    var lx := TextFit(g1.text, ix, target);
    TextAttemptByFit(g1, target, o);
    TextAttemptByFit(g2, target, o);
    var u1 := TextAttempt(g1, target, o);
    var u2 := TextAttempt(g2, target, o);
    if lx.Some? {
      assert u1 == ProcessMatchTrue(g1, o, ix, lx.value) && u2 == ProcessMatchTrue(g2, o, ix, lx.value);
      ProcessMatchDependsOnCursor(g1, g2, o, ix, lx.value);
    } else if TextShort(g1.text, ix, target) {
      assert u1 == g1.(isMatch := false) && u2 == g2.(isMatch := false);
    } else {
      assert u1 == ProcessMatchFalse(g1, o) && u2 == ProcessMatchFalse(g2, o);
      ProcessMatchDependsOnCursor(g1, g2, o, ix, 0);
    }
  }

  /** A single text that does not fit in what is left of the input. */
  predicate TextShort(text: string, ix: nat, target: TextArg)
  {
    target.One? && |text| - ix < |target.s|
  }

  /** The length a text attempt at `ix` accepts, if any. */
  function TextFit(text: string, ix: nat, target: TextArg): Option<nat>
  {
    match target
    case Many(items) =>
      (match FirstFit(text, ix, items)
       case Some(k) => Some(|items[k]|)
       case None => None)
    case One(x) =>
      if |text| - ix >= |x| && OccursAt(text, x, ix) then Some(|x|) else None
  }

  /** A text attempt is the acceptance of the fitting length, or a failure
      that at most records `matchFail`. */
  lemma TextAttemptByFit(g: Frame, target: TextArg, o: Options)
    ensures var ix := StartAt(g, o);
            var lx := TextFit(g.text, ix, target);
            && (lx.Some? ==> TextAttempt(g, target, o) == ProcessMatchTrue(g, o, ix, lx.value))
            && (lx.None? && TextShort(g.text, ix, target) ==> TextAttempt(g, target, o) == g.(isMatch := false))
            && (lx.None? && !TextShort(g.text, ix, target) ==> TextAttempt(g, target, o) == ProcessMatchFalse(g, o))
  {
  }

  lemma ProcessMatchDependsOnCursor(g1: Frame, g2: Frame, o: Options, bx: nat, lx: nat)
    requires g1.text == g2.text && g1.index == g2.index && g1.isMatch == g2.isMatch
    ensures var u1 := ProcessMatchTrue(g1, o, bx, lx);
            var u2 := ProcessMatchTrue(g2, o, bx, lx);
            && u1.index == u2.index && u1.isMatch == u2.isMatch
            && (!u1.isMatch ==> u1.index == g1.index)
            && (o.captureName == "" && !o.doCapture ==>
                  u1.captureObject == g1.captureObject && u2.captureObject == g2.captureObject)
    ensures var u1 := ProcessMatchFalse(g1, o);
            var u2 := ProcessMatchFalse(g2, o);
            u1.index == u2.index == g1.index && u1.isMatch == u2.isMatch
            && u1.captureObject == g1.captureObject && u2.captureObject == g2.captureObject
  {
  }

  /** A frame that is passing, with no pending mark. */
  predicate Ready(f: Frame)
  {
    !Inert(f) && f.isMatch && NoMark(f)
  }

  /** An unnamed group around a single text match is transparent: the
      enclosing frame ends with the cursor, verdict and captures the text
      match would give it directly, and no failure is recorded either way. */
  lemma GroupAroundTextIsTransparent(c: Cursor, target: TextArg, o: Options)
    requires Ready(c.top) && o.captureName == "" && !o.doCapture
    ensures var r := Chain(c, [CallCaptureBegin(NoOptions), CallMatchText(target, o), CallCaptureEnd(NoOptions)]);
            var d := MatchText(c.top, target, o);
            && r.parents == c.parents
            && r.top.index == d.index && r.top.isMatch == d.isMatch
            && r.top.captureObject == d.captureObject == c.top.captureObject
            && !r.top.matchFail && !d.matchFail
  {
    var f := c.top;
    var g := Gate(f).1;
    var c1 := CaptureBegin(c, NoOptions);
    var child := c1.top;
    var cg := Gate(child).1;
    assert Gate(child).0 == false;
    var c2 := Apply(c1, CallMatchText(target, o));
    assert c2.top == TextAttempt(cg, target, o);
    TextAttemptDependsOnCursor(cg, g, target, o);
    ChainOfThree(c, CallCaptureBegin(NoOptions), CallMatchText(target, o), CallCaptureEnd(NoOptions));
    assert c2.parents == c.parents + [g];
    var t := Gate(c2.top).1;
    var c3 := CaptureEnd(c2, NoOptions);
    assert !t.bypassAll && t.captureName == "" && !t.doCapture;
    if c2.top.isMatch {
      assert !t.matchFail && t.index == c2.top.index && t.isMatch;
      assert c3.top == g.(isMatch := true, index := t.index);
    } else {
      assert t.matchFail;
      assert c3.top == g.(isMatch := false);
    }
  }

  /** Three calls of a chain are three applications in turn. */
  lemma ChainOfThree(c: Cursor, a: Call, b: Call, d: Call)
    ensures Chain(c, [a, b, d]) == Apply(Apply(Apply(c, a), b), d)
  {
    var calls := [a, b, d];
    assert calls[1..] == [b, d];
    assert calls[1..][1..] == [d];
    assert calls[1..][1..][1..] == [];
    var c1 := Apply(c, a);
    var c2 := Apply(c1, b);
    assert Chain(c, calls) == Chain(c1, [b, d]);
    assert Chain(c1, [b, d]) == Chain(c2, [d]);
    assert Chain(c2, [d]) == Chain(Apply(c2, d), []);
  }

  /** On a ready frame an identifier that matches at the start offset is
      accepted there. */
  lemma ReadyIdentifierStep(f: Frame, o: Options)
    requires Ready(f) && StartAt(f, o) < |f.text|
    requires IdentifierExec(f.text, StartAt(f, o)).Found? && IdentifierExec(f.text, StartAt(f, o)).ox == 0
    ensures Identifier(f, o)
            == ProcessMatchTrue(f.(instructSeqn := f.instructSeqn + 1), Ungated(o), StartAt(f, o), IdentifierExec(f.text, StartAt(f, o)).lx)
  {
    var g := f.(instructSeqn := f.instructSeqn + 1);
    assert Gate(f) == (false, g);
    assert StartAt(g, Ungated(o)) == StartAt(f, o);
    RegExpAttemptByFit(g, IdentifierExec, Ungated(o));
  }

  /** On a ready frame a single text that occurs at the start offset is
      accepted there. */
  lemma ReadyTextStep(f: Frame, x: string, o: Options)
    requires Ready(f) && OccursAt(f.text, x, StartAt(f, o))
    ensures MatchText(f, One(x), o) == ProcessMatchTrue(f.(instructSeqn := f.instructSeqn + 1), o, StartAt(f, o), |x|)
  {
    var g := f.(instructSeqn := f.instructSeqn + 1);
    assert Gate(f) == (false, g);
    assert StartAt(g, o) == StartAt(f, o);
  }

  /** An accepted match with no lookahead, no `peek` and no `doCapture`
      moves the cursor to its end and stores the trimmed text under its
      name, if any. */
  lemma PlainAcceptance(f: Frame, o: Options, bx: nat, lx: nat)
    requires o.peekNextText == "" && o.peekNextNotText == "" && !o.peek && !o.doCapture
    ensures ProcessMatchTrue(f, o, bx, lx)
            == f.(isMatch := true, index := bx + lx,
                  captureObject := if o.captureName != ""
                                   then StoreCapture(f.captureObject, MatchItem(f, o, bx, lx), false)
                                   else f.captureObject)
  {
  }

  const KeywordOptions := NoOptions.(zeroMoreWhitespace := true, captureName := "keyword")
  const ValueOptions := NoOptions.(zeroMoreWhitespace := true, captureName := "vlu")

  /** The chain of the first test case:
      `identifier(keyword).matchText('(').identifier(vlu).matchText(')')`,
      with whitespace skipped before all but the open parenthesis. */
  const KeywordParenCalls: seq<Call> := [
    CallIdentifier(KeywordOptions),
    CallMatchText(One("("), NoOptions),
    CallIdentifier(ValueOptions),
    CallMatchText(One(")"), NoOptions.(zeroMoreWhitespace := true))
  ]

  function TesterFrame(index: nat, seqn: int, obj: CaptureObject): Frame
  {
    Frame(ArrayMatchProofs.Overlay, index, true, false, 0, seqn, -1, -1, false, false, "", false, obj, "")
  }

  const KeywordItem := CaptureItem(0, 7, "keyword", "overlay", None)
  const ValueItem := CaptureItem(8, 6, "vlu", "oditno", None)
  const KeywordObject := StoreCapture(EmptyObject, KeywordItem, false)
  const KeywordValueObject := StoreCapture(KeywordObject, ValueItem, false)

  lemma TesterKeyword(f: Frame)
    requires f == TesterFrame(0, 0, EmptyObject)
    ensures Identifier(f, KeywordOptions) == TesterFrame(7, 1, KeywordObject)
  {
    var text := ArrayMatchProofs.Overlay;
    ArrayMatchProofs.OverlayWordRuns();
    assert SkipWs(text, 0) == 0;
    assert IdentifierExec(text, 0) == Found(0, 7);
    assert StartAt(f, KeywordOptions) == 0;
    ReadyIdentifierStep(f, KeywordOptions);
    var g := f.(instructSeqn := 1);
    var o := Ungated(KeywordOptions);
    PlainAcceptance(g, o, 0, 7);
    assert Identifier(f, KeywordOptions) == ProcessMatchTrue(g, o, 0, 7);
    KeywordText();
    assert MatchItem(g, o, 0, 7) == KeywordItem;
    assert StoreCapture(g.captureObject, MatchItem(g, o, 0, 7), false) == KeywordObject;
    assert g.(isMatch := true, index := 7, captureObject := KeywordObject) == TesterFrame(7, 1, KeywordObject);
  }

  lemma KeywordText()
    ensures Trim(Substr(ArrayMatchProofs.Overlay, 0, 7)) == "overlay"
  {
    assert Substr(ArrayMatchProofs.Overlay, 0, 7) == "overlay";
    TrimUntouched("overlay");
  }

  lemma TesterOpenParen(f: Frame)
    requires f == TesterFrame(7, 1, KeywordObject)
    ensures MatchText(f, One("("), NoOptions) == TesterFrame(8, 2, KeywordObject)
  {
    assert OccursAt(ArrayMatchProofs.Overlay, "(", 7);
    ReadyTextStep(f, "(", NoOptions);
    PlainAcceptance(f.(instructSeqn := 2), NoOptions, 7, 1);
  }

  lemma TesterValue(f: Frame)
    requires f == TesterFrame(8, 2, KeywordObject)
    ensures Identifier(f, ValueOptions) == TesterFrame(14, 3, KeywordValueObject)
  {
    var text := ArrayMatchProofs.Overlay;
    ArrayMatchProofs.OverlayWordRuns();
    assert SkipWs(text, 8) == 8;
    assert IdentifierExec(text, 8) == Found(0, 6);
    assert StartAt(f, ValueOptions) == 8;
    ReadyIdentifierStep(f, ValueOptions);
    var g := f.(instructSeqn := 3);
    var o := Ungated(ValueOptions);
    PlainAcceptance(g, o, 8, 6);
    assert Identifier(f, ValueOptions) == ProcessMatchTrue(g, o, 8, 6);
    ValueText();
    assert MatchItem(g, o, 8, 6) == ValueItem;
    assert StoreCapture(g.captureObject, MatchItem(g, o, 8, 6), false) == KeywordValueObject;
    assert g.(isMatch := true, index := 14, captureObject := KeywordValueObject) == TesterFrame(14, 3, KeywordValueObject);
  }

  lemma ValueText()
    ensures Trim(Substr(ArrayMatchProofs.Overlay, 8, 6)) == "oditno"
  {
    assert Substr(ArrayMatchProofs.Overlay, 8, 6) == "oditno";
    TrimUntouched("oditno");
  }

  lemma TesterCloseParen(f: Frame)
    requires f == TesterFrame(14, 3, KeywordValueObject)
    ensures MatchText(f, One(")"), NoOptions.(zeroMoreWhitespace := true)) == TesterFrame(15, 4, KeywordValueObject)
  {
    var o := NoOptions.(zeroMoreWhitespace := true);
    assert SkipWs(ArrayMatchProofs.Overlay, 14) == 14;
    assert OccursAt(ArrayMatchProofs.Overlay, ")", 14);
    ReadyTextStep(f, ")", o);
    PlainAcceptance(f.(instructSeqn := 4), o, 14, 1);
  }

  /** Four calls of a chain are four applications in turn. */
  lemma ChainOfFour(c: Cursor, a: Call, b: Call, d: Call, e: Call)
    ensures Chain(c, [a, b, d, e]) == Apply(Apply(Apply(Apply(c, a), b), d), e)
  {
    var calls := [a, b, d, e];
    assert calls[1..] == [b, d, e];
    assert calls[1..][1..] == [d, e];
    assert calls[1..][1..][1..] == [e];
    assert calls[1..][1..][1..][1..] == [];
    var c1 := Apply(c, a);
    var c2 := Apply(c1, b);
    var c3 := Apply(c2, d);
    assert Chain(c, calls) == Chain(c1, [b, d, e]);
    assert Chain(c1, [b, d, e]) == Chain(c2, [d, e]);
    assert Chain(c2, [d, e]) == Chain(c3, [e]);
    assert Chain(c3, [e]) == Chain(Apply(c3, e), []);
  }

  /** The chain of the first test case walks the text frame by frame. */
  lemma KeywordParenWalk(c0: Cursor)
    requires c0 == Start(ArrayMatchProofs.Overlay, 0)
    ensures Chain(c0, KeywordParenCalls) == Cursor(TesterFrame(15, 4, KeywordValueObject), [])
  {
    var a := CallIdentifier(KeywordOptions);
    var b := CallMatchText(One("("), NoOptions);
    var d := CallIdentifier(ValueOptions);
    var e := CallMatchText(One(")"), NoOptions.(zeroMoreWhitespace := true));
    assert KeywordParenCalls == [a, b, d, e];
    ChainOfFour(c0, a, b, d, e);
    assert c0.top == TesterFrame(0, 0, EmptyObject) && c0.parents == [];
    TesterKeyword(c0.top);
    var c1 := Apply(c0, a);
    assert c1 == Cursor(TesterFrame(7, 1, KeywordObject), []);
    TesterOpenParen(c1.top);
    var c2 := Apply(c1, b);
    assert c2 == Cursor(TesterFrame(8, 2, KeywordObject), []);
    TesterValue(c2.top);
    var c3 := Apply(c2, d);
    assert c3 == Cursor(TesterFrame(14, 3, KeywordValueObject), []);
    TesterCloseParen(c3.top);
  }

  /** What the two stores of the first test case leave in the capture object. */
  lemma KeywordValueContents()
    ensures KeywordValueObject.entries == map["keyword" := Text("overlay"), "vlu" := Text("oditno")]
    ensures KeywordValueObject.meta == Some(map["keyword" := KeywordItem, "vlu" := ValueItem])
  {
    assert KeywordObject == CaptureObject(map["keyword" := Text("overlay")], Some(map["keyword" := KeywordItem]));
  }

  /** The first test case: on `overlay(oditno)` the chain matches the whole
      text and captures `keyword = "overlay"` and `vlu = "oditno"`; the
      cursor ends at offset 15, the length of the text. */
  lemma KeywordParenCaptures()
    ensures var r := Chain(Start(ArrayMatchProofs.Overlay, 0), KeywordParenCalls);
            && r.parents == []
            && r.top.isMatch && !r.top.matchFail && r.top.index == 15
            && GetMatch(r.top) == ArrayMatchProofs.Overlay
            && r.top.captureObject.entries == map["keyword" := Text("overlay"), "vlu" := Text("oditno")]
            && r.top.captureObject.meta == Some(map["keyword" := KeywordItem, "vlu" := ValueItem])
  {
    KeywordParenWalk(Start(ArrayMatchProofs.Overlay, 0));
    KeywordValueContents();
    assert ArrayMatchProofs.Overlay[0..15] == ArrayMatchProofs.Overlay;
  }
}
