/** A fluent call chain `tm.identifier(…).matchText(…).captureBegin(…)…` as
    data: each call acts on the current frame, and a capture group call
    pushes or pops the frame stack. */
module FluentChain {
  import opened TextScan
  import opened Regex
  import opened Capture
  import opened MatchCapture

  datatype Call =
    | CallMatchText(target: TextArg, o: Options)
    | CallMatchRegExp(exec: Exec, o: Options)
    | CallIdentifier(o: Options)
    | CallLiteral(o: Options)
    | CallOr
    | CallEndOfLine
    | CallEof(o: Options)
    | CallUntil(untilText: string, inclusive: bool)
    | CallZeroMoreWhitespace
    | CallOneMoreWhitespace
    | CallCaptureBegin(o: Options)
    | CallCaptureEnd(o: Options)
    | CallCaptureEndZeroOne
  {
    /** The call acts on the current frame alone. */
    predicate OnFrame()
    {
      !CallCaptureBegin? && !CallCaptureEnd? && !CallCaptureEndZeroOne?
    }
  }

  /** One call of the chain on a single frame. */
  function ApplyFrame(f: Frame, call: Call): (r: Frame)
    requires call.OnFrame()
    ensures Moves(f, r)
  {
    match call
    case CallMatchText(target, o) => MatchText(f, target, o)
    case CallMatchRegExp(exec, o) => MatchRegExp(f, exec, o)
    case CallIdentifier(o) => Identifier(f, o)
    case CallLiteral(o) => Literal(f, o)
    case CallOr => Or(f)
    case CallEndOfLine => EndOfLine(f)
    case CallEof(o) => Eof(f, o)
    case CallUntil(u, inclusive) => Until(f, u, inclusive)
    case CallZeroMoreWhitespace => ZeroMoreWhitespace(f)
    case CallOneMoreWhitespace => OneMoreWhitespace(f)
  }

  /** One call of the chain. */
  function Apply(c: Cursor, call: Call): (r: Cursor)
    ensures call.OnFrame() ==> r == Cursor(ApplyFrame(c.top, call), c.parents)
    ensures call.CallCaptureBegin? ==> |r.parents| == |c.parents| + 1
    ensures (call.CallCaptureEnd? || call.CallCaptureEndZeroOne?) ==>
              |r.parents| == if |c.parents| == 0 then 0 else |c.parents| - 1
  {
    match call
    case CallCaptureBegin(o) => CaptureBegin(c, o)
    case CallCaptureEnd(o) => CaptureEnd(c, o)
    case CallCaptureEndZeroOne => CaptureEndZeroOne(c)
    case _ => Cursor(ApplyFrame(c.top, call), c.parents)
  }

  /** The calls of the chain, in order. */
  function Chain(c: Cursor, calls: seq<Call>): Cursor
    decreases |calls|
  {
    if |calls| == 0 then c else Chain(Apply(c, calls[0]), calls[1..])
  }
}
