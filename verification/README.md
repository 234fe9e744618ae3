# sr_match_capture: a verified model of the matching core

`sr_match_capture` matches text with small hand-written parsers. It offers two
front-ends over one matching engine:

- **The instruction array** (`matchArr_match` in `src/array-match.ts`). A
  list of `iMatchItem` instructions runs against a cursor into the text. The
  instructions are `identifier`, `literal`, `text`, `or`, `repeatBegin`,
  `repeatMatchText` and `repeatEnd`. They share a state record with these
  parts:
  - the cursor;
  - a transient verdict `isMatch`;
  - a sticky failure flag `matchFail`;
  - a capture map;
  - the instruction pointer;
  - an open repeat loop;
  - an or-group flag.
- **The fluent `MatchCapture` object** (`src/match-capture.ts`). Every method
  gates itself through a sequence-number based `instructionSetup`, runs one
  primitive and returns the object, so calls chain. `captureBegin` and
  `captureEnd` open and close nested capture groups, which commit to the
  enclosing object or roll back.

The model is functional:

- Both state records are immutable datatypes.
- Every operation is a pure function.
- The instruction loop is a fuel-bounded `Run`.
- The fluent object's parent chain is an explicit stack. A `Cursor` is the
  current frame plus the enclosing frames.
- A fluent call chain is data (`FluentChain.Call`), applied by
  `FluentChain.Chain`.

Modules:

| file | module | contents |
|---|---|---|
| text_scan.dfy | TextScan | whitespace scan `scan_charNeAll`, `substr`, `indexOf`, `trim`, first-fit list match, `peekNext`, lookahead veto |
| regex.dfy | Regex | the `regex_exec` contract, concrete identifier and literal patterns |
| array_match.dfy | ArrayMatch | gate, matchers, repeat control, `Step`, `Run` |
| array_match_proofs.dfy | ArrayMatchProofs | sticky failure, termination, `or` forgiveness, the keyword/paren example |
| capture.dfy | Capture | capture objects, `meta`, `store_capture` |
| match_capture.dfy | MatchCapture | frames, gate, `or`, primitives, capture groups |
| fluent_chain.dfy | FluentChain | call chains as data |
| front_ends.dfy | FrontEnds | the two front-ends' text matchers compared |
| match_capture_proofs.dfy | MatchCaptureProofs | inert frames, `or`, stack well-formedness, commit/rollback, the `overlay(oditno)` test chain |

## Model

| member | source | states |
|---|---|---|
| TextScan.SkipWs | src/array-match.ts:199-204 | `scan_charNeAll(text, ix, ' \t\n')` with -1 read as the text length: the result is the first offset at or after `ix` that is not space, tab or newline, everything skipped is whitespace, and it never leaves the text |
| TextScan.WsRun | src/match-capture.ts:752-779 | the explicit whitespace loop stays put past the end of the text and otherwise agrees with the scanner |
| TextScan.Substr | src/array-match.ts:395 | JavaScript `substr` is the plain slice when the range lies inside the text and is never longer than asked |
| TextScan.FirstFit | src/array-match.ts:433-449 | the list loop finds the first alternative in declared order that occurs at the offset; every earlier one does not occur; when none is found, no alternative occurs |
| TextScan.PeekNext | src/array-match.ts:308-340 | `peekNext` is true exactly when some alternative occurs right after the whitespace that follows `ix` |
| TextScan.IndexOf | src/match-capture.ts:1153 | `indexOf(pat, from)` returns the first occurrence at or after `from`, and None only when there is no occurrence at all |
| TextScan.Trim | src/array-match.ts:395 | `trim()` returns a slice of its input with only whitespace cut off on both sides and no whitespace left at either end |
| TextScan.TrimUntouched | src/array-match.ts:395 | a string without whitespace at either end is its own trim |
| TextScan.TrimIdempotent | src/match-capture.ts:654 | trimming a captured text twice gives the same as trimming it once |
| TextScan.NewlineAt | src/match-capture.ts:391 | the one-character pattern `'\n'` occurs exactly at the newline characters |
| Regex.MatchAt | src/array-match.ts:147-170 | the identifier pattern matches at a position iff a letter or underscore stands there; any match is non-empty and inside the text |
| Regex.LiteralMatchAt | src/array-match.ts:160-170 | the literal pattern matches at a position iff a digit stands there or a quote that an equal quote closes later; the reported length is the one literal length there: the whole digit run, or up to and including the next equal quote |
| Regex.LiteralAnchoredAtStart | src/array-match.ts:160-170 | `regex_exec` with the literal pattern reports a match at offset 0 iff a literal begins at the search start, and with exactly that literal's length |
| Regex.Scan | src/array-match.ts:211 | the leftmost-match search: a reported match is the first position from the search start where the pattern matches |
| Regex.Execute | src/array-match.ts:211-219 | `regex_exec` reports a match at offset 0 iff the pattern matches exactly at the search start, and every reported match ends inside the text |
| Regex.BuiltInExecutorsAreSound | src/match-capture.ts:503-532 | the identifier and literal executors meet the trusted `regex_exec` contract |
| Regex.IdentifierAnchoredAtStart | src/array-match.ts:147-156 | an identifier is accepted at the start offset iff it starts with a letter or underscore, and it then spans the whole following run of word characters, so its length is one plus that run |
| ArrayMatch.Setup | src/array-match.ts:112-143 | the gate skips a failed state and keeps it failed; an open or-group skips the next matcher iff the previous alternative matched; a false verdict becomes sticky failure except at an `or` or for the matcher right after an `or`; non-matchers close the or-group; nothing but the two flags changes |
| ArrayMatch.ProcessMatchFalse | src/array-match.ts:344-348 | a rejected match keeps the cursor and captures; the verdict stays true only under `zeroMatchOk` |
| ArrayMatch.CaptureMatch | src/array-match.ts:393-411 | an accepted match writes the trimmed text under its capture name, appends it to the open repeat array only with `doCapture` and only while that name still holds an array, and keeps every other capture |
| ArrayMatch.ProcessMatchTrue | src/array-match.ts:353-413 | a lookahead veto turns the match into a rejection with nothing written; otherwise the verdict is true, the cursor moves to the end of the match unless `peek`, and the captures are written |
| ArrayMatch.TmActual | src/array-match.ts:416-464 | the text match is anchored at the start offset; a single text matches iff it is non-empty and occurs there; a list matches iff some entry occurs there, and the first such entry in declared order wins |
| ArrayMatch.RegExpAttempt | src/array-match.ts:196-220 | with no input left after the whitespace skip the verdict is false even under `zeroMatchOk`; otherwise only a match that begins at the start offset is accepted |
| ArrayMatch.MatchRegExp | src/array-match.ts:190-222 | a failed state passes through unchanged; a false verdict outside an or-group is promoted to `matchFail` with nothing else changed; a state the gate skips is left as the gate left it, and one it lets through gets the anchored attempt |
| ArrayMatch.MatchIdentifier | src/array-match.ts:147-156 | a failed state is returned as is and a skipped one as the gate left it; a state the gate lets through is accepted with length one plus the following word run iff a letter or underscore stands at the start offset, and otherwise rejected: cursor and captures kept, the verdict surviving only under `zeroMatchOk` with input left |
| ArrayMatch.MatchLiteral | src/array-match.ts:160-170 | a failed state is returned as is and a skipped one as the gate left it; a state the gate lets through is accepted with the literal's length when a digit run or a closed quoted string begins at the start offset, and otherwise rejected: cursor and captures kept, the verdict surviving only under `zeroMatchOk` with input left |
| ArrayMatch.IdentifierAttempt | src/array-match.ts:196-220 | the anchored identifier attempt accepts one plus the following word run iff a letter or underscore stands at the start offset, and otherwise rejects |
| ArrayMatch.LiteralAttempt | src/array-match.ts:196-220 | the anchored literal attempt accepts the literal's length when one begins at the start offset, and otherwise rejects |
| ArrayMatch.TextAttempt | src/array-match.ts:291-303 | a text attempt accepts the occurrence `tm_actual` found and rejects otherwise, without touching the gate flags |
| ArrayMatch.MatchText | src/array-match.ts:289-304 | a failed state passes through unchanged; a false verdict outside an or-group is promoted to `matchFail` with nothing else changed; a state the gate skips is left as the gate left it, and one it lets through gets the `tm_actual` attempt |
| ArrayMatch.MatchOr | src/array-match.ts:175-182 | `or` never changes the failure flag or the verdict, and opens an or-group exactly when the state has not failed |
| ArrayMatch.MatchRepeatBegin | src/array-match.ts:226-245 | a `repeatBegin` that runs anchors the loop at its own slot, and a named one starts an empty array under the name; a skipped one changes only the gate flags |
| ArrayMatch.MatchRepeatEnd | src/array-match.ts:249-258 | a `repeatEnd` that runs resets the anchor to -1 and the loop name to empty and keeps cursor, verdict and captures |
| ArrayMatch.MatchRepeatMatchText | src/array-match.ts:264-283 | a found delimiter is processed as a match and rewinds to the anchor, also when a lookahead vetoed it; an absent delimiter changes nothing; a rewind to the never-set anchor throws |
| ArrayMatch.Step | src/array-match.ts:72-106 | one loop turn: a failed state stays failed with nothing but the or-flag moving; a matcher after a successful alternative is skipped; any gated instruction closes the or-group; `captureBegin`/`captureEnd` do nothing; only a delimiter rewinds the pointer, and only to the anchor |
| ArrayMatch.Run | src/array-match.ts:63-109 | a finished run has passed the last instruction and kept the text |
| ArrayMatch.Initial | src/array-match.ts:66-70 | a run starts live at `bx` with a true verdict and no failure or or-group |
| ArrayMatchProofs.StepMovesForward | src/array-match.ts:353-413 | no instruction moves the cursor back or out of the text, and a rewind under a consuming delimiter moves it forward |
| ArrayMatchProofs.DelimiterMovesForward | src/array-match.ts:264-283 | the repeat delimiter never moves the cursor back, and it moves it forward on each rewind when it has no `peek`, no lookahead and no empty alternative |
| ArrayMatchProofs.RunTerminates | src/array-match.ts:72-106 | with consuming delimiters, the loop ends within (remaining text + 1) times (program length + 1) turns: each turn either moves to a later instruction or rewinds with the cursor moved forward |
| ArrayMatchProofs.TurnShrinksBudget | src/array-match.ts:72-77 | one loop turn of such a program stays in bounds and strictly decreases the measure (remaining text, then remaining instructions) |
| ArrayMatchProofs.MatchArrTerminates | src/array-match.ts:63-109 | `matchArr_match` on a program with consuming delimiters never loops forever |
| ArrayMatchProofs.FailedRunIsInert | src/array-match.ts:120-121 | once `matchFail` is set the rest of the run ends with the same cursor, verdict and captures, still failed |
| ArrayMatchProofs.FalseVerdictPromoted | src/array-match.ts:112-143 | a false verdict outside an or-group becomes `matchFail` at every dispatched instruction except `or`, with nothing else changed |
| ArrayMatchProofs.VetoedDelimiterRewinds | src/array-match.ts:264-283 | a found delimiter that a lookahead vetoes, without `zeroMatchOk`, rewinds to the anchor with the verdict false and cursor and captures kept |
| ArrayMatchProofs.VetoedDelimiterEndsRun | src/array-match.ts:72-77 | after such a vetoed delimiter the loop body's first instruction promotes the failure, and the run finishes failed with the cursor and captures unchanged |
| ArrayMatchProofs.MoreFuelSameOutcome | src/array-match.ts:72-77 | the outcome of an ended run does not depend on the loop bound |
| ArrayMatchProofs.FailedMatcherWritesNothing | src/array-match.ts:344-348 | a matcher that rejects on a live state leaves cursor and captures alone and does not fail the state |
| ArrayMatchProofs.MatcherIgnoresPriorVerdict | src/array-match.ts:123-128 | a matcher let through computes the same cursor and captures whatever the earlier verdict was |
| ArrayMatchProofs.PlainMatcherIgnoresPc | src/array-match.ts:147-170 | the plain matchers never read or write the instruction pointer |
| ArrayMatchProofs.RunTurn | src/array-match.ts:74-77 | a loop turn that runs an instruction continues the run from the resulting state |
| ArrayMatchProofs.RunUnfold | src/array-match.ts:74-77 | while instructions and fuel remain, a run is one step followed by the rest of the run, or a throw |
| ArrayMatchProofs.RunThrows | src/array-match.ts:279 | a rewind to the undefined anchor ends the run by throwing |
| ArrayMatchProofs.RunEnds | src/array-match.ts:75-76 | the loop stops once the pointer passes the last instruction |
| ArrayMatchProofs.ThreeTurns | src/array-match.ts:72-77 | a three-instruction run ends with its third turn's state |
| ArrayMatchProofs.SingleRun | src/array-match.ts:72-77 | a one-matcher run ends with that matcher's state |
| ArrayMatchProofs.FailedFirstAlternativeRun | src/array-match.ts:117-133 | in `A or B` with A failing, B runs on the state A started from with the verdict false and the or-group open |
| ArrayMatchProofs.OrForgivesFailedFirstAlternative | src/array-match.ts:175-182 | `A or B` with A failing ends with the cursor, captures and failure flag of running B alone (and its verdict unless `zeroMatchOk`) |
| ArrayMatchProofs.LastFailureNotPromoted | src/array-match.ts:72-76 | for every program and state, the run ends right after the last instruction's turn with exactly the state that turn left, so a failure there is never promoted: the verdict stays false and `matchFail` unset |
| ArrayMatchProofs.LastTextFailureExample | src/array-match.ts:289-304 | a one-instruction text program whose text does not occur at offset 0 ends with verdict false, `matchFail` unset and the cursor at 0 |
| ArrayMatchProofs.OverlayWordRuns | src/array-match.ts:152 | the word-character runs of `overlay(oditno)` after offsets 1 and 9 |
| ArrayMatchProofs.LiveIdentifierStep | src/array-match.ts:147-156 | on a live state an identifier found at the start offset is accepted there |
| ArrayMatchProofs.LiveTextStep | src/array-match.ts:289-304 | on a live state a non-empty text occurring at the start offset is accepted there |
| ArrayMatchProofs.SimpleAcceptance | src/array-match.ts:385-401 | an accepted match without lookahead, `peek` or `doCapture` moves the cursor to its end and stores its trimmed text under its name |
| ArrayMatchProofs.OverlayKeyword | src/array-match.ts:147-156 | on `overlay(oditno)` the keyword identifier captures `overlay` |
| ArrayMatchProofs.OverlayOpenParen | src/array-match.ts:289-304 | the `(` text moves past the parenthesis |
| ArrayMatchProofs.OverlayValue | src/array-match.ts:147-156 | the value identifier captures `oditno` |
| ArrayMatchProofs.OverlayCloseParen | src/array-match.ts:289-304 | the `)` text reaches the end of the text |
| ArrayMatchProofs.KeywordParenExample | src/array-match.ts:63-109 | the keyword/paren program on `overlay(oditno)` ends matched at offset 15 with `keyword = overlay` and `vlu = oditno` |
| Capture.ValueOf | src/match-capture.ts:1031-1034 | the stored value is the item's text when non-empty, else its nested object, else the empty string |
| Capture.NatToString | src/match-capture.ts:1042-1045 | a numeric property key is a non-empty digit string |
| Capture.ParseNatToString | src/match-capture.ts:1042-1045 | reading back the key written for a number gives the number |
| Capture.NatToStringInjective | src/match-capture.ts:1042-1045 | distinct array positions get distinct keys |
| Capture.StoreCapture | src/match-capture.ts:1026-1058 | `meta` always exists afterwards; an array item is stored under the key count plus one (with `meta` counted), a named item under its name, each with the same key in `meta`; every other property and every other `meta` entry is kept, and no other key is added to either; an unnamed non-array item stores nothing |
| Capture.Put | src/match-capture.ts:1036-1056 | one property write: the value under the key, the item under the same key in `meta`; every other property and `meta` entry is kept, and no other key is added |
| Capture.IndexKeysSpelled | src/match-capture.ts:1042-1045 | every key of the first n array positions spells a number from 1 to n |
| Capture.IndexKeysSize | src/match-capture.ts:1042-1045 | the first n array positions have n distinct keys |
| Capture.ArrayCapturesNumberFromOne | src/match-capture.ts:1036-1046 | array stores into a fresh object put the i-th item under key "i", starting from 1, and write nothing else |
| MatchCapture.NewFrame | src/match-capture.ts:191-243 | a new object starts passing at `index`, with an empty capture object and no instruction counted |
| MatchCapture.Setup | src/match-capture.ts:454-499 | the gate counts the instruction unless `noIncSeqn`, and skips iff the frame is blocked, has failed, has reached the marked sequence number, follows an `or` with a true verdict, or meets a false verdict outside an `or`; only that last case sets `matchFail` |
| MatchCapture.Or | src/match-capture.ts:791-811 | `or` keeps cursor, verdict, captures and failure, records its own sequence number, and marks the next one for skipping iff the verdict is true |
| MatchCapture.ProcessMatchFalse | src/match-capture.ts:603-607 | a rejected match keeps cursor and captures; the verdict stays true only under `zeroMatchOk` |
| MatchCapture.ProcessMatchTrue | src/match-capture.ts:612-666 | a lookahead veto turns the match into a rejection; otherwise the verdict is true, the cursor moves to the end unless `peek`, and the trimmed text is stored through `store_capture` iff a capture name or `doCapture` is given |
| MatchCapture.StartAt | src/match-capture.ts:546-552 | the start offset lies between the cursor and the end of the text |
| MatchCapture.TextAttempt | src/match-capture.ts:541-597 | a list accepts its first entry in declared order that occurs at the start offset; a single text longer than the rest fails even under `zeroMatchOk`, one that occurs is accepted, and one that does not is rejected |
| MatchCapture.MatchText | src/match-capture.ts:537-599 | `matchText` changes only gate bookkeeping, verdict, cursor and captures, and runs the attempt only when the gate lets it |
| MatchCapture.RegExpAttempt | src/match-capture.ts:682-709 | with no input left the verdict is false even under `zeroMatchOk`; otherwise only a match that begins at the start offset is accepted |
| MatchCapture.MatchRegExp | src/match-capture.ts:673-711 | with `skipSetup` the gate is not consulted at all; otherwise the attempt runs only when the gate lets it |
| MatchCapture.RegExpAttemptByFit | src/match-capture.ts:695-707 | a pattern attempt accepts exactly the length found at the start offset, or fails |
| MatchCapture.Ungated | src/match-capture.ts:509-510 | `identifier`/`literal` hand `matchRegExp` options with the gate turned off |
| MatchCapture.Identifier | src/match-capture.ts:503-513 | `identifier` is gated once and then runs the identifier pattern without a second gate |
| MatchCapture.Literal | src/match-capture.ts:518-532 | `literal` is gated once and then runs the literal pattern without a second gate |
| MatchCapture.EndOfLine | src/match-capture.ts:383-399 | `endOfLine` moves just past the next newline, or to the end when there is none, never changes the verdict, and does nothing at the end of the text |
| MatchCapture.Eof | src/match-capture.ts:404-430 | `eof` accepts a zero-length match at the end of the text iff nothing but the optional whitespace remains, and rejects otherwise |
| MatchCapture.Until | src/match-capture.ts:1145-1168 | `until` moves to the first occurrence of its target (past it when included) and fails when there is none; when the rest is shorter than the target nothing changes |
| MatchCapture.ZeroMoreWhitespace | src/match-capture.ts:1171-1201 | `zeroMoreWhitespace` moves past exactly the run of whitespace at the cursor and leaves the verdict alone |
| MatchCapture.OneMoreWhitespace | src/match-capture.ts:752-779 | `oneMoreWhitespace` succeeds iff whitespace stands at the cursor, and then moves past the whole run; on failure the cursor stays |
| MatchCapture.GetMatch | src/match-capture.ts:435-445 | `getMatch` is the text from the start to the cursor, empty once the frame failed or when the cursor has not moved |
| MatchCapture.CaptureBegin | src/match-capture.ts:279-306 | `captureBegin` pushes the gated parent and opens a child at the parent's cursor; it skips whitespace only when not gated off; it bypasses the whole group exactly when the gate said skip; through the constructor's option handling (lines 213-238) the child adopts the caller's `matchFail` flag and `capture_object`, and starts with an empty object when none is given |
| MatchCapture.GroupObject | src/match-capture.ts:335-337 | a committed group hands over its capture object, plus the matched text under `captureMatchText_propertyName` when that is given |
| MatchCapture.CaptureEnd | src/match-capture.ts:310-366 | with no parent the frame gets the error message and stays current; a bypassed group returns the parent unchanged; a holding group commits cursor and verdict (the child's `isMatch`, not true) and stores its object when named or `doCapture`; a failed group keeps the parent's cursor and captures and breaks out, fails (the default) or carries on under `zeroMatchOk` |
| MatchCapture.CaptureEndZeroOne | src/match-capture.ts:368-372 | `captureEndZeroOne` makes a failed group optional: the parent is left unchanged |
| FluentChain.ApplyFrame | src/match-capture.ts:537-599 | a call on one frame changes at most its gate bookkeeping, verdict, cursor and captures |
| FluentChain.Apply | src/match-capture.ts:279-366 | `captureBegin` pushes one frame, `captureEnd` pops one when there is one, other calls leave the stack alone |
| FrontEnds.TextFrontEndsAgree | src/match-capture.ts:537-599 | the fluent `matchText` and the array's `match_text` give the same verdict and cursor on the same input and options, and a named match without `doCapture` captures the same trimmed text, outside the two corners below |
| FrontEnds.AcceptedAlike | src/match-capture.ts:612-666 | both front-ends process a tentative match alike: same lookahead veto, verdict and cursor, and the same named capture when `doCapture` is off |
| FrontEnds.DoCaptureDiverges | src/match-capture.ts:653-657 | with `doCapture` and a capture name, both front-ends accept an occurring text, but only the array stores it under the name; the fluent `store_capture` in array mode uses the next numeric key instead |
| FrontEnds.EmptyTextDiverges | src/array-match.ts:452-460 | the empty single text is accepted by the fluent `matchText` but fails as an array instruction |
| FrontEnds.ShortRestDiverges | src/match-capture.ts:585-587 | under `zeroMatchOk`, a single text longer than the rest keeps the array's verdict true but fails the fluent `matchText` outright |
| MatchCaptureProofs.InertFrameSkips | src/match-capture.ts:466-475 | a blocked or failed frame skips every gated call and keeps cursor, verdict and captures |
| MatchCaptureProofs.InertFrameIgnoresChain | src/match-capture.ts:466-475 | over any chain of gated calls a blocked or failed frame keeps cursor, verdict and captures, and the enclosing frames are untouched |
| MatchCaptureProofs.FalseVerdictBecomesFailure | src/match-capture.ts:492-496 | without an `or` before it, a call meeting a false verdict sets `matchFail` and is skipped |
| MatchCaptureProofs.MatchedAlternativeSkipsNext | src/match-capture.ts:797-799 | in `A.or().B` with A matched, B is skipped without effect and the call after B meets a live frame |
| MatchCaptureProofs.FailedAlternativeLetsNextRun | src/match-capture.ts:485-489 | in `A.or().B` with A failed, the `or` does not promote the failure and B passes the gate |
| MatchCaptureProofs.ProcessMatchIgnoresBookkeeping | src/match-capture.ts:603-666 | match processing does not depend on the verdict before it or the sequence numbers, except through `zeroMatchOk` |
| MatchCaptureProofs.TextAttemptIgnoresBookkeeping | src/match-capture.ts:541-597 | a text attempt does not depend on the prior verdict or the sequence numbers, except through `zeroMatchOk` |
| MatchCaptureProofs.RegExpAttemptIgnoresBookkeeping | src/match-capture.ts:682-709 | a pattern attempt does not depend on the prior verdict or the sequence numbers, except through `zeroMatchOk` |
| MatchCaptureProofs.FailedAlternativeGivesFairTextAttempt | src/match-capture.ts:791-799 | `A.or().matchText(x)` with A failed gives the same cursor, captures and failure as `matchText(x)` on a passing frame |
| MatchCaptureProofs.FailedAlternativeGivesFairIdentifierAttempt | src/match-capture.ts:791-799 | the same for `identifier` |
| MatchCaptureProofs.GateKeepsFrameOk | src/match-capture.ts:454-499 | the gate never moves the cursor and a blocked or failed frame always skips |
| MatchCaptureProofs.ProcessMatchAdvances | src/match-capture.ts:647-651 | an accepted match inside the text never moves the cursor back |
| MatchCaptureProofs.ProcessMatchFalseStays | src/match-capture.ts:603-607 | a rejected match keeps the cursor |
| MatchCaptureProofs.TextAttemptAdvances | src/match-capture.ts:541-597 | a text attempt never moves the cursor back or out of the text |
| MatchCaptureProofs.RegExpAttemptAdvances | src/match-capture.ts:682-709 | a pattern attempt with a sound executor never moves the cursor back or out of the text |
| MatchCaptureProofs.FrameCallAdvances | src/match-capture.ts:383-1201 | every call on a frame keeps its cursor inside the text and never moves it back |
| MatchCaptureProofs.FrameCallKeepsWf | src/match-capture.ts:383-1201 | calls on the current frame keep the frame stack well formed |
| MatchCaptureProofs.CaptureBeginKeepsWf | src/match-capture.ts:279-306 | `captureBegin` keeps the stack well formed: the child starts at the parent's cursor, and a child of a blocked or failed parent is bypassed |
| MatchCaptureProofs.CaptureEndKeepsWf | src/match-capture.ts:310-366 | `captureEnd` keeps the stack well formed and never moves the outermost cursor back |
| MatchCaptureProofs.CallKeepsWf | src/match-capture.ts:279-1201 | every call keeps the stack well formed and never moves the outermost cursor back |
| MatchCaptureProofs.ChainKeepsWf | src/match-capture.ts:279-1201 | every call chain keeps the stack well formed, and the outermost match only grows |
| MatchCaptureProofs.FrameCallsKeepParents | src/match-capture.ts:383-1201 | calls on the current frame leave the enclosing frames and the frame's text, start and group flags alone |
| MatchCaptureProofs.SkippedGroupLeavesParent | src/match-capture.ts:323-326 | a group whose `captureBegin` was gated off leaves the parent exactly as the gate left it, whatever its body |
| MatchCaptureProofs.FailedGroupRollsBack | src/match-capture.ts:350-366 | a failed group keeps the parent's cursor and captures; its verdict survives only under `zeroMatchBreak` or `zeroMatchOk`, and `zeroMatchBreak` sets `breakOut` |
| MatchCaptureProofs.HoldingGroupCommits | src/match-capture.ts:329-349 | a holding group gives the parent the child's cursor and verdict, and a named or `doCapture` group stores an item spanning from the group's start to the child's cursor |
| MatchCaptureProofs.TextAttemptDependsOnCursor | src/match-capture.ts:541-597 | a text attempt's verdict and cursor depend only on text, cursor and prior verdict; a failed attempt keeps the cursor, and without capture options the captures are untouched |
| MatchCaptureProofs.TextAttemptByFit | src/match-capture.ts:556-597 | a text attempt accepts exactly the length that fits at the start offset, fails outright on a too-short rest, or is rejected |
| MatchCaptureProofs.ProcessMatchDependsOnCursor | src/match-capture.ts:603-666 | match processing gives the same verdict and cursor on frames with the same text, cursor and verdict |
| MatchCaptureProofs.GroupAroundTextIsTransparent | src/match-capture.ts:279-366 | an unnamed group around one text match gives the parent the cursor, verdict and captures the bare text match would give, and records no failure |
| MatchCaptureProofs.ChainOfThree | src/match-capture.ts:279-366 | a chain of three calls is their application in turn |
| MatchCaptureProofs.ReadyIdentifierStep | src/match-capture.ts:503-513 | on a passing frame an identifier found at the start offset is accepted there |
| MatchCaptureProofs.ReadyTextStep | src/match-capture.ts:537-599 | on a passing frame a text occurring at the start offset is accepted there |
| MatchCaptureProofs.PlainAcceptance | src/match-capture.ts:645-656 | an accepted match without lookahead, `peek` or `doCapture` moves the cursor to its end and stores the trimmed text under its name |
| MatchCaptureProofs.TesterKeyword | src/tester.ts:31 | `identifier` with name `keyword` captures `overlay` from offset 0 |
| MatchCaptureProofs.KeywordText | src/tester.ts:31 | the trimmed keyword text is `overlay` |
| MatchCaptureProofs.TesterOpenParen | src/tester.ts:32 | `matchText('(')` moves past the parenthesis |
| MatchCaptureProofs.TesterValue | src/tester.ts:33 | `identifier` with name `vlu` captures `oditno` |
| MatchCaptureProofs.ValueText | src/tester.ts:33 | the trimmed value text is `oditno` |
| MatchCaptureProofs.TesterCloseParen | src/tester.ts:34 | `matchText(')')` reaches the end of the text |
| MatchCaptureProofs.ChainOfFour | src/tester.ts:31-34 | a chain of four calls is their application in turn |
| MatchCaptureProofs.KeywordParenWalk | src/tester.ts:29-34 | the test chain walks `overlay(oditno)` frame by frame to offset 15 |
| MatchCaptureProofs.KeywordValueContents | src/tester.ts:41 | the two stores leave exactly `keyword = overlay` and `vlu = oditno`, with both items in `meta` |
| MatchCaptureProofs.KeywordParenCaptures | src/tester.ts:29-42 | the first test case matches the whole of `overlay(oditno)` and captures `keyword = "overlay"` and `vlu = "oditno"` |

### Where the code and its description differ

The model follows the code in each of these cases:

- `match_or` does not reset the verdict to true, although its comment says it
  does. A failed first alternative is forgiven because the gate lets the
  following matcher through (src/array-match.ts:117-133, 175-182).
- `captureEnd` copies the child's `isMatch` into the parent on commit rather
  than setting it to true (src/match-capture.ts:331).
- `captureEnd` defaults `zeroMatchOk` to false (src/match-capture.ts:355).
- `captureEnd` runs the child's own gate first. So a false verdict left by
  the group's last call is promoted to `matchFail`, and the group rolls back.
  The exception is a last call `or`: the gate then sees the pending `or` and
  does not promote, and the group commits with the verdict false
  (src/match-capture.ts:459, 485-489).
- In the instruction array, a failure on the last instruction is never
  promoted to `matchFail` (src/array-match.ts:72-76).
- In the fluent `matchText`, the single empty text matches whenever the
  start offset is at most the text length and no lookahead vetoes it. In the
  instruction array, an empty or absent text never matches
  (`FrontEnds.EmptyTextDiverges`).
- Under `zeroMatchOk`, a single text longer than the rest of the input fails
  the fluent `matchText` outright, while the array instruction keeps its
  verdict (`FrontEnds.ShortRestDiverges`).
- With `doCapture` and a capture name, the array's `match_text` writes the
  text under the name (src/array-match.ts:398-401). The fluent class calls
  `store_capture(item, true)`, and array mode wins over the name
  (src/match-capture.ts:1041-1046): the text goes under the next numeric
  key, never under the name (`FrontEnds.DoCaptureDiverges`).
- Array captures of `store_capture` are numbered from "1", not "0". The
  numeric key is the key count taken after `meta` is created, and `meta`
  counts as a key.
- `match_regExp` and `matchRegExp` pass `matchBx` as the match start. When
  `matchOx` is 0 that is the start offset itself.
- `match_repeatMatchText` rewinds whenever the delimiter is found, also when a
  lookahead vetoed the match or `peek` kept the cursor. A vetoed delimiter
  without `zeroMatchOk` leaves the verdict false. When the loop body does not
  start with `or`, its first instruction promotes that verdict to
  `matchFail` and the run ends (`ArrayMatchProofs.VetoedDelimiterEndsRun`).
  A loop can run forever when the delimiter is found without moving the
  cursor and the body runs again without failing. This happens:
  - under `peek`;
  - through an empty alternative in a delimiter list;
  - when a lookahead vetoes the delimiter under `zeroMatchOk`;
  - when a vetoed delimiter rewinds to a body that starts with `or`. The `or`
    does not promote the false verdict (src/array-match.ts:131-134), and a
    following alternative can set it true again without moving the cursor.

  So `Run` carries fuel and reports `OutOfFuel`.
- Rewinding before any `repeatBegin` has run reads `matchArr[NaN]` and throws.
  `Run` reports this as `Threw`.

## Left out

- `regex_exec` and the `rxp` pattern fragments are a library that is not part
  of this model. A caller-supplied pattern is a function parameter `Exec`
  with the trusted contract `Regex.Sound`. The two built-in patterns are
  given concretely: `rxp.zeroMoreWord` is taken to be `\w*`, and the quoted
  literals are taken to be `'[^']*'` and `"[^"]*"`.
- Closure-based repetition in the fluent class is not modelled:
  `repeat`, `repeat_runMethod`, `repeatMatch` and `repeatMatchText`
  (src/match-capture.ts:854-933). It stores method handles and function
  values. Repetition is modelled in the instruction array instead.
- `runRoutine`, `ruxRoutine`, `was_ruyRoutine` and the `onMatch` callback
  (src/match-capture.ts:660-663, 941-1010) are not modelled: they call
  functions the model cannot see.
- Because `runRoutine` is out, `noIncSeqn` is modelled in
  `MatchCapture.Setup` but no modelled call passes it.
- The `repeatable` bookkeeping in `or` and `zeroMoreWhitespace` is not
  modelled. It only feeds the closure-based repetition.
- The wrappers `nameStartOneMore`, `oneMoreDigits`, `openParen`,
  `closeParen` and `angleBracketName` are not modelled. They are regex or
  text conveniences over the modelled primitives.
- `old_storx_capture`, `store_capture_object`, `store_capture_array`,
  `setup_capture` and `restore_capture` are not modelled: they are unused
  legacy helpers.
- The fields `bypassNext` and `current` are not modelled, nor the child list
  `capture` that `captureBegin` fills (src/match-capture.ts:288-292).
  Nothing reads them.
- `MatchCapture.NewFrame` models only the constructor without options. The
  options a child is built with are applied by `MatchCapture.CaptureBegin`:
  `bypassAll` from the gate, and `matchFail`, `capture_object`,
  `captureName` and `doCapture` from the caller. `parent` is the frame stack
  itself.
- `MatchCapture.CaptureBegin`: the `name` option is not modelled, because
  nothing reads it. A caller's `capture_object` is copied into the child, not
  shared: JavaScript hands the child the same object, so the caller sees the
  child's captures as they happen.
- `lib/match-capture.d.ts` has no logic. The test harness of `src/tester.ts`
  is out too; only its first case is restated, as a lemma.
- `TextScan.Trim`: it removes only space, tab, newline and carriage return,
  not the full Unicode whitespace set of JavaScript's `trim()`.
- Strings are sequences of characters, not UTF-16 code units.
- The order of `Object.keys` is not modelled. Capture objects are maps, and
  `meta` is kept apart from the ordinary properties.
- A capture named `meta` is not modelled. In the source it would overwrite
  the `meta` property itself.
- Negative cursors and offsets are not modelled: offsets are natural
  numbers. A cursor past the end of the text is allowed, and the model gives
  it the source's behaviour. There, the explicit whitespace loop
  `TextScan.WsRun` stays put, and the scanner `TextScan.SkipWs` answers the
  text length (see below). No non-empty text, identifier or literal is
  accepted there. `MatchCapture.Eof` moves the cursor back to the text length
  as its zero-length match, as `eof` does.
- `ArrayMatch.Run`: it is bounded by fuel, because the source loop can run
  forever. `ArrayMatchProofs.RunTerminates` shows the bound suffices when
  every repeat delimiter consumes input.
- `TextScan.SkipWs`: what `scan_charNeAll` answers for a start offset past
  the end of the text is not visible. The model answers the text length,
  which is what every caller makes of the not-found answer -1.
