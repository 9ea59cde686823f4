/**
 A source and a sink as two processes that take turns in any order, over two byte channels. Writes arrive in
 pieces of any size, the sink copies content in pieces of any size, and reading, opening, making and writing may
 fail.
 */
module ScpSession {
  import opened Options
  import opened ScpUtf8
  import opened ScpMessages
  import opened ScpPaths
  import opened ScpDisk
  import opened ScpSink
  import opened ScpSource

  /** One write of the source that an ack answers. */
  datatype Chunk = Line(m: Message) | Content(b: bytes)

  function ChunkBytes(c: Chunk): bytes {
    match c
    case Line(m) => Print(m)
    case Content(b) => b + [0]
  }

  /** The writes the source makes for n, when everything can be read. */
  function Script(times: bool, n: Node): seq<Chunk>
    decreases n
  {
    (if times then [Line(TimesMessage(n))] else []) +
    match n
    case File(_, _, _, _, content) => [Line(FileMessage(n)), Content(content)]
    case Dir(_, _, _, children) => [Line(DirMessage(n))] + (ScriptAll(times, children) + [Line(EMsg)])
  }

  function ScriptAll(times: bool, ns: seq<Node>): seq<Chunk>
    decreases ns
  {
    if ns == [] then [] else Script(times, ns[0]) + ScriptAll(times, ns[1..])
  }

  datatype SourceProc =
    | Waiting(rest: seq<Chunk>)                 // for an ack, before the first chunk of rest
    | Writing(left: bytes, rest: seq<Chunk>)    // with left still to be written of the current chunk
    | SourceDone(err: Option<SourceError>)

  datatype SinkProc =
    | Unstarted(recursive: bool, times: bool)
    | Reading(state: ParserState, depth: int)                              // waiting for a line
    | Copying(p: Path, left: nat, state: ParserState, depth: int)          // left bytes still to be copied to p
    | Closing(state: ParserState, depth: int)                              // waiting for the zero byte
    | SinkDone(err: Option<SinkError>)

  /**
   mem holds the sink's fields; its output is all it has sent, of which toSource is not yet read. written is
   what the source's walk has written, sent is everything it has put into the channel to the sink.
   */
  datatype Session = Session(src: SourceProc, snk: SinkProc, mem: SinkState,
                             toSink: bytes, toSource: bytes, written: bytes, sent: bytes)

  /** What the system says when it cannot read: names of files and reasons, without zero bytes. */
  type Text = b: bytes | 0 !in b witness []

  /** The texts of errors are not specified, so the results hold for any texts. */
  const SINK_TEXT: SinkError -> bytes
  const SOURCE_TEXT: SourceError -> bytes
  const LOCAL_TEXT: Text

  function SourceText(err: SourceError): bytes {
    if err.LocalFailure? then LOCAL_TEXT else SOURCE_TEXT(err)
  }

  /** The line an end writes when it gives up (see run). */
  function Reply(text: bytes): bytes {
    [2] + text + [NEWLINE]
  }

  datatype Step =
    | SourceWrite(k: nat)
    | SourceRead
    | SourceEof
    | SourceFails
    | SinkStart
    | SinkLine
    | SinkCopy(k: nat)
    | SinkCopied
    | SinkZero
    | SinkEof

  predicate BySource(step: Step) {
    step.SourceWrite? || step.SourceRead? || step.SourceEof? || step.SourceFails?
  }

  function SourceStops(se: Session, err: Option<SourceError>): Session {
    if err.None? then se.(src := SourceDone(None))
    else
      var reply := Reply(SourceText(err.value));
      se.(src := SourceDone(err), toSink := se.toSink + reply, sent := se.sent + reply)
  }

  function SinkStops(se: Session, err: SinkError): Session {
    var reply := Reply(SINK_TEXT(err));
    se.(snk := SinkDone(Some(err)), toSource := se.toSource + reply)
  }

  /** The sink goes on as next with the fields s, whose new output goes into the channel. */
  function SinkGoesOn(se: Session, next: SinkProc, s: SinkState): Session
    requires |s.output| >= |se.mem.output|
  {
    se.(snk := next, mem := s, toSource := se.toSource + s.output[|se.mem.output|..])
  }

  /** One step; None if it is not enabled. */
  function Do(se: Session, step: Step): Option<Session> {
    match step
    case SourceWrite(k) => DoSourceWrite(se, k)
    case SourceRead => DoSourceRead(se)
    case SourceEof =>
      if se.src.Waiting? && se.snk.SinkDone? && AckIncomplete(se.toSource)
      then Some(SourceStops(se.(toSource := []), Some(AcksEnded))) else None
    case SourceFails => DoSourceFails(se)
    case SinkStart =>
      if se.snk.Unstarted?
      then Some(SinkGoesOn(se, Reading(ParserStart(se.snk.recursive, se.snk.times), 0), Ack(se.mem))) else None
    case SinkLine => DoSinkLine(se)
    case SinkCopy(k) => DoSinkCopy(se, k)
    case SinkCopied =>
      if se.snk.Copying? && (se.snk.left == 0 || (se.toSink == [] && se.src.SourceDone?))
      then Some(se.(snk := Closing(se.snk.state, se.snk.depth), mem := SetPendingTimes(se.mem, se.snk.p))) else None
    case SinkZero => DoSinkZero(se)
    case SinkEof =>
      if se.snk.Reading? && se.src.SourceDone? && NEWLINE !in se.toSink
      then Some(se.(snk := SinkDone(None), toSink := []))
      else if se.snk.Closing? && se.src.SourceDone? && se.toSink == []
      then Some(SinkStops(se, InputEnded)) else None
  }

  function DoSourceWrite(se: Session, k: nat): Option<Session> {
    if !se.src.Writing? || k == 0 || k > |se.src.left| then None
    else
      var b, left := se.src.left[..k], se.src.left[k..];
      var src := if left == [] then Waiting(se.src.rest) else Writing(left, se.src.rest);
      Some(se.(src := src, toSink := se.toSink + b, written := se.written + b, sent := se.sent + b))
  }

  /** No ack can be read from the channel: it is empty, or holds an error line that has not ended. */
  predicate AckIncomplete(toSource: bytes) {
    toSource == [] || ((toSource[0] == 1 || toSource[0] == 2) && NEWLINE !in toSource[1..])
  }

  function DoSourceRead(se: Session): Option<Session> {
    if !se.src.Waiting? || AckIncomplete(se.toSource) then None
    else
      var got := GetAck(SourceState([], se.toSource, []));
      var se' := se.(toSource := got.s.input);
      if got.err.Some? then Some(SourceStops(se', got.err))
      else if se.src.rest == [] then Some(SourceStops(se', None))
      else Some(se'.(src := Writing(ChunkBytes(se.src.rest[0]), se.src.rest[1..])))
  }

  /** The source cannot read what it has to send next after an ack, or cannot read on in a file it is sending. */
  function DoSourceFails(se: Session): Option<Session> {
    if se.src.Writing? && InContent(se.src.left) then Some(SourceStops(se, Some(LocalFailure)))
    else if !se.src.Waiting? || se.src.rest == [] || AckIncomplete(se.toSource) then None
    else
      var got := GetAck(SourceState([], se.toSource, []));
      if got.err.Some? then None else Some(SourceStops(se.(toSource := got.s.input), Some(LocalFailure)))
  }

  /** Lines end in a newline, and contents in a zero byte. */
  predicate InContent(left: bytes) {
    left != [] && left[|left| - 1] == 0
  }

  function DoSinkLine(se: Session): Option<Session> {
    if !se.snk.Reading? || NEWLINE !in se.toSink then None
    else
      var n := LineLength(se.toSink);
      var se' := se.(toSink := se.toSink[n..]);
      match Parse(se.toSink[..n])
      case Err(e) => Some(SinkStops(se', BadLine(e)))
      case Ok(m) =>
        match StateStep(se.snk.state, se.snk.depth, m)
        case None => Some(SinkStops(se', UnexpectedMessage(se.snk.state)))
        case Some(move) => Some(if m.CMsg? then SinkOpens(se', m, move) else SinkHandles(se', m, move))
  }

  /** A C message, as far as the ack for the opened file. */
  function SinkOpens(se: Session, m: Message, move: Move): Session
    requires m.CMsg?
  {
    var p := TargetPath(se.mem.dir, m.name);
    match OpenFile(se.mem.disk, p, m.mode)
    case None => SinkStops(se, OpenFailed)
    case Some(d) => SinkGoesOn(se, Copying(p, CopyLimit(m.length), move.state, move.depth), Ack(se.mem.(disk := d)))
  }

  /** A D, E or T message. */
  function SinkHandles(se: Session, m: Message, move: Move): Session
    requires !m.CMsg?
  {
    var done := Process(se.mem, m);
    if done.err.Some? then SinkStops(se.(mem := done.s), done.err.value)
    else SinkGoesOn(se, Reading(move.state, move.depth), done.s)
  }

  function DoSinkCopy(se: Session, k: nat): Option<Session> {
    if !se.snk.Copying? || k == 0 || k > se.snk.left || k > |se.toSink| then None
    else
      var w := Write(se.mem.disk, se.snk.p, se.toSink[..k]);
      var se' := se.(mem := se.mem.(disk := w.disk), toSink := se.toSink[k..]);
      if w.ok then Some(se'.(snk := se.snk.(left := se.snk.left - k))) else Some(SinkStops(se', WriteFailed))
  }

  function DoSinkZero(se: Session): Option<Session> {
    if !se.snk.Closing? || se.toSink == [] then None
    else
      var b, se' := se.toSink[0], se.(toSink := se.toSink[1..]);
      if b != 0 then Some(SinkStops(se', BadTerminator(b)))
      else Some(SinkGoesOn(se', Reading(se.snk.state, se.snk.depth), Ack(se.mem)))
  }

  /** A schedule of steps; None if one of them was not enabled. */
  function Play(se: Session, steps: seq<Step>): Option<Session>
    decreases |steps|
  {
    if steps == [] then Some(se)
    else
      match Play(se, steps[..|steps| - 1])
      case None => None
      case Some(se') => Do(se', steps[|steps| - 1])
  }

  /** Both processes before their first step. */
  function Begin(script: seq<Chunk>, recursive: bool, times: bool, mem: SinkState): Session {
    Session(Waiting(script), Unstarted(recursive, times), mem, [], [], [], [])
  }

  predicate Over(se: Session) {
    se.src.SourceDone? && se.snk.SinkDone?
  }
}
