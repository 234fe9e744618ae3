/** The two front-ends side by side: a text instruction of the array
    interpreter (`match_text`) and the fluent `matchText` compute the same
    verdict and cursor on the same input, and a named match without
    `doCapture` captures the same text, except in two corners where their
    code differs: the empty single text, and a single text longer than the
    rest under `zeroMatchOk`. With `doCapture` the captures differ: the
    array writes under the name, the fluent class only under a numeric
    key. */
module FrontEnds {
  import opened TextScan
  import AM = ArrayMatch
  import MC = MatchCapture
  import Capture

  /** The array state and the fluent frame stand at the same place with the
      same verdict. */
  predicate SameCursor(s: AM.State, f: MC.Frame)
  {
    s.text == f.text && s.index == f.index && s.isMatch == f.isMatch
  }

  /** The instruction's modifiers and the call's options ask for the same
      thing. */
  predicate SameModifiers(m: AM.Modifiers, o: MC.Options)
  {
    && m.zeroMoreWhitespace == o.zeroMoreWhitespace
    && m.peek == o.peek
    && m.peekNextText == o.peekNextText
    && m.peekNextNotText == o.peekNextNotText
    && m.zeroMatchOk == o.zeroMatchOk
    && m.captureName == o.captureName
    && m.doCapture == o.doCapture
  }

  /** The corners where the two text matchers are written differently. */
  predicate Corner(s: AM.State, target: TextArg, m: AM.Modifiers)
  {
    target.One? &&
      (target.s == "" || (m.zeroMatchOk && |s.text| - AM.StartOffset(s, m) < |target.s|))
  }

  /** Outside the corners, the two text attempts agree on verdict and
      cursor, and a named match without `doCapture` captures the same
      trimmed text in both. */
  lemma TextFrontEndsAgree(s: AM.State, f: MC.Frame, target: TextArg, m: AM.Modifiers, o: MC.Options)
    requires SameCursor(s, f) && SameModifiers(m, o)
    requires !Corner(s, target, m)
    ensures var a := AM.TextAttempt(s, target, m);
            var b := MC.TextAttempt(f, target, o);
            a.isMatch == b.isMatch && a.index == b.index
    ensures var a := AM.TextAttempt(s, target, m);
            var b := MC.TextAttempt(f, target, o);
            !m.zeroMatchOk && a.isMatch && m.captureName != "" && !m.doCapture ==>
              && m.captureName in a.capture && a.capture[m.captureName].Str?
              && m.captureName in b.captureObject.entries
              && b.captureObject.entries[m.captureName] == Capture.Text(a.capture[m.captureName].s)
  {
    var ix := AM.StartOffset(s, m);
    assert MC.StartAt(f, o) == ix;
    match target
    case Many(items) =>
      var k := FirstFit(s.text, ix, items);
      if k.Some? {
        AcceptedAlike(s, f, m, o, ix, |items[k.value]|);
      }
    case One(x) =>
      if OccursAt(s.text, x, ix) {
        AcceptedAlike(s, f, m, o, ix, |x|);
      }
  }

  /** Processing the same tentative match gives the same verdict and
      cursor in both front-ends, and the same named capture when
      `doCapture` is off. */
  lemma AcceptedAlike(s: AM.State, f: MC.Frame, m: AM.Modifiers, o: MC.Options, bx: nat, lx: nat)
    requires SameCursor(s, f) && SameModifiers(m, o)
    ensures var a := AM.ProcessMatchTrue(s, m, bx, lx);
            var b := MC.ProcessMatchTrue(f, o, bx, lx);
            && a.isMatch == b.isMatch && a.index == b.index
            && (!m.zeroMatchOk && a.isMatch && m.captureName != "" && !m.doCapture ==>
                  && m.captureName in a.capture && a.capture[m.captureName] == AM.Str(Trim(Substr(s.text, bx, lx)))
                  && m.captureName in b.captureObject.entries
                  && b.captureObject.entries[m.captureName] == Capture.Text(Trim(Substr(s.text, bx, lx))))
  {
    var a := AM.ProcessMatchTrue(s, m, bx, lx);
    var b := MC.ProcessMatchTrue(f, o, bx, lx);
    if !LookaheadVetoes(s.text, bx + lx, m.peekNextText, m.peekNextNotText) && m.captureName != "" && !m.doCapture {
      var item := MC.MatchItem(f, o, bx, lx);
      assert b.captureObject == Capture.StoreCapture(f.captureObject, item, false);
      assert Capture.ValueOf(item) == Capture.Text(Trim(Substr(s.text, bx, lx)));
    }
  }

  /** The empty single text: the fluent `matchText` accepts it (a
      zero-length match), while the array's `tm_actual` treats it as absent
      and the instruction fails. */
  lemma EmptyTextDiverges(s: AM.State, f: MC.Frame, m: AM.Modifiers, o: MC.Options)
    requires SameCursor(s, f) && SameModifiers(m, o)
    requires s.index <= |s.text| && !m.zeroMatchOk
    requires m.peekNextText == "" && m.peekNextNotText == ""
    ensures MC.TextAttempt(f, One(""), o).isMatch
    ensures !AM.TextAttempt(s, One(""), m).isMatch
  {
    var ix := MC.StartAt(f, o);
    assert OccursAt(f.text, "", ix);
  }

  /** A single text longer than what remains: under `zeroMatchOk` the
      array instruction keeps a true verdict, while the fluent `matchText`
      fails outright. */
  lemma ShortRestDiverges(s: AM.State, f: MC.Frame, x: string, m: AM.Modifiers, o: MC.Options)
    requires SameCursor(s, f) && SameModifiers(m, o)
    requires s.isMatch && m.zeroMatchOk
    requires |s.text| - AM.StartOffset(s, m) < |x|
    ensures AM.TextAttempt(s, One(x), m).isMatch
    ensures !MC.TextAttempt(f, One(x), o).isMatch
  {
    assert MC.StartAt(f, o) == AM.StartOffset(s, m);
  }

  /** A named match with `doCapture`: the array writes the text under the
      name, while the fluent `store_capture` in array mode writes it under
      the next numeric key only, so the name stays absent. */
  lemma DoCaptureDiverges(s: AM.State, f: MC.Frame, x: string, m: AM.Modifiers, o: MC.Options)
    requires SameCursor(s, f) && SameModifiers(m, o)
    requires m.captureName != "" && m.doCapture && x != ""
    requires m.peekNextText == "" && m.peekNextNotText == ""
    requires OccursAt(s.text, x, AM.StartOffset(s, m))
    requires m.captureName !in f.captureObject.entries
    requires m.captureName != Capture.NatToString(|f.captureObject.entries| + 1)
    ensures AM.TextAttempt(s, One(x), m).isMatch && MC.TextAttempt(f, One(x), o).isMatch
    ensures m.captureName in AM.TextAttempt(s, One(x), m).capture
    ensures m.captureName !in MC.TextAttempt(f, One(x), o).captureObject.entries
  {
    var ix := AM.StartOffset(s, m);
    assert MC.StartAt(f, o) == ix;
    assert !LookaheadVetoes(s.text, ix + |x|, m.peekNextText, m.peekNextNotText);
  }
}
