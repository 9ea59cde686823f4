/**
 The receiving end: a loop that reads a line, parses it, drives the eight-state machine that knows which
 message may come next, and lets the message act on directory, times, input, output and disk.
 */
module ScpSink {
  import opened Options
  import opened ScpUtf8
  import opened ScpStrconv
  import opened ScpMessages
  import opened ScpPaths
  import opened ScpDisk

  datatype SinkError =
    | InputEnded
    | BadLine(error: ParseError)
    | UnexpectedMessage(state: ParserState)
    | InvalidLength
    | OpenFailed
    | MkdirFailed
    | WriteFailed
    | BadTerminator(found: byte)

  datatype ParserState =
    | NoRecurseTimesCT | NoRecurseTimesC | NoRecurseNoTimesC
    | RecurseTimesCDT | RecurseTimesCDET | RecurseTimesCD
    | RecurseNoTimesCD | RecurseNoTimesCDE

  /** Everything a sink reads and changes. */
  datatype SinkState = SinkState(dir: Path, timeSet: bool, aTime: int64, mTime: int64,
                                 input: bytes, output: bytes, disk: Disk)

  datatype Done = Done(s: SinkState, err: Option<SinkError>)

  // ---- the machine

  function ParserStart(recursive: bool, times: bool): ParserState {
    if recursive then (if times then RecurseTimesCDT else RecurseNoTimesCD)
    else (if times then NoRecurseTimesCT else NoRecurseNoTimesC)
  }

  datatype Move = Move(state: ParserState, depth: int)

  /** Which message each state accepts, and where it leads. */
  function StateStep(state: ParserState, depth: int, m: Message): Option<Move> {
    match state
    case NoRecurseTimesCT =>
      (match m
       case CMsg(_, _, _) => Some(Move(NoRecurseTimesCT, depth))
       case TMsg(_, _) => Some(Move(NoRecurseTimesC, depth))
       case _ => None)
    case NoRecurseTimesC => if m.CMsg? then Some(Move(NoRecurseTimesCT, depth)) else None
    case NoRecurseNoTimesC => if m.CMsg? then Some(Move(NoRecurseNoTimesC, depth)) else None
    case RecurseTimesCDT =>
      (match m
       case CMsg(_, _, _) => Some(Move(RecurseTimesCDT, depth))
       case DMsg(_, _, _) => Some(Move(RecurseTimesCDET, depth + 1))
       case TMsg(_, _) => Some(Move(RecurseTimesCD, depth))
       case EMsg => None)
    case RecurseTimesCDET =>
      (match m
       case CMsg(_, _, _) => Some(Move(RecurseTimesCDET, depth))
       case DMsg(_, _, _) => Some(Move(RecurseTimesCDET, depth + 1))
       case EMsg => Some(Move(if depth - 1 == 0 then RecurseTimesCDT else RecurseTimesCDET, depth - 1))
       case TMsg(_, _) => Some(Move(RecurseTimesCD, depth)))
    case RecurseTimesCD =>
      (match m
       case CMsg(_, _, _) => Some(Move(RecurseTimesCDET, depth))
       case DMsg(_, _, _) => Some(Move(RecurseTimesCDET, depth + 1))
       case _ => None)
    case RecurseNoTimesCD =>
      (match m
       case CMsg(_, _, _) => Some(Move(RecurseNoTimesCD, depth))
       case DMsg(_, _, _) => Some(Move(RecurseNoTimesCDE, depth + 1))
       case _ => None)
    case RecurseNoTimesCDE =>
      (match m
       case CMsg(_, _, _) => Some(Move(RecurseNoTimesCDE, depth))
       case DMsg(_, _, _) => Some(Move(RecurseNoTimesCDE, depth + 1))
       case EMsg => Some(Move(if depth - 1 == 0 then RecurseNoTimesCD else RecurseNoTimesCDE, depth - 1))
       case TMsg(_, _) => None)
  }

  // ---- what messages do

  function Ack(s: SinkState): SinkState {
    s.(output := s.output + [0])
  }

  /** filePath: a directory that is its own parent gets the name joined to it. */
  function FilePath(commandPath: Path, name: bytes): Path {
    if Parent(commandPath) == commandPath then Join(commandPath, name) else commandPath
  }

  /** The path a C message writes to. */
  function TargetPath(dir: Path, name: bytes): Path {
    Join(FilePath(dir, name), name)
  }

  /** int64(length): lengths of 2^63 and more become negative, and then nothing is copied. */
  function CopyLimit(length: uint64): nat {
    if length < TWO_TO_THE_63 then length else 0
  }

  function SetPendingTimes(s: SinkState, p: Path): SinkState {
    if s.timeSet then s.(disk := Chtimes(s.disk, p, Times(s.aTime, s.mTime)), timeSet := false) else s
  }

  function ProcessC(s: SinkState, m: Message): Done
    requires m.CMsg?
  {
    var p := TargetPath(s.dir, m.name);
    match OpenFile(s.disk, p, m.mode)
    case None => Done(s, Some(OpenFailed))
    case Some(d) => CopyContent(Ack(s.(disk := d)), p, CopyLimit(m.length))
  }

  /** Copies up to limit bytes; a short input is no error here. */
  function CopyContent(s: SinkState, p: Path, limit: nat): Done {
    var n := if limit < |s.input| then limit else |s.input|;
    var w := Write(s.disk, p, s.input[..n]);
    var s' := s.(disk := w.disk, input := s.input[n..]);
    if !w.ok then Done(s', Some(WriteFailed)) else FinishC(SetPendingTimes(s', p))
  }

  /** The zero byte that ends the content. */
  function FinishC(s: SinkState): Done {
    if s.input == [] then Done(s, Some(InputEnded))
    else
      var s' := s.(input := s.input[1..]);
      if s.input[0] != 0 then Done(s', Some(BadTerminator(s.input[0]))) else Done(Ack(s'), None)
  }

  function ProcessD(s: SinkState, m: Message): Done
    requires m.DMsg?
  {
    if m.length != 0 then Done(s, Some(InvalidLength))
    else
      var s' := s.(dir := Join(s.dir, m.name));
      match MkdirAll(s'.disk, s'.dir, m.mode)
      case None => Done(s', Some(MkdirFailed))
      case Some(d) => Done(Ack(SetPendingTimes(s'.(disk := d), s'.dir)), None)
  }

  function ProcessE(s: SinkState): Done {
    Done(Ack(s.(dir := Parent(s.dir))), None)
  }

  function ProcessT(s: SinkState, m: Message): Done
    requires m.TMsg?
  {
    Done(Ack(s.(aTime := m.aTime, mTime := m.mTime, timeSet := true)), None)
  }

  function Process(s: SinkState, m: Message): Done {
    match m
    case CMsg(_, _, _) => ProcessC(s, m)
    case DMsg(_, _, _) => ProcessD(s, m)
    case EMsg => ProcessE(s)
    case TMsg(_, _) => ProcessT(s, m)
  }

  // ---- the loop

  /** The length of the first line with its newline; 0 if there is no newline. */
  function LineLength(b: bytes): (n: nat)
    ensures n <= |b|
    ensures n == 0 <==> NEWLINE !in b
    ensures n > 0 ==> b[n - 1] == NEWLINE && NEWLINE !in b[..n - 1]
  {
    if b == [] then 0
    else if b[0] == NEWLINE then 1
    else
      var n := LineLength(b[1..]);
      assert n > 0 ==> b[..n] == [b[0]] + b[1..][..n - 1];
      if n == 0 then 0 else n + 1
  }

  /** Processing never makes the input longer. */
  lemma ProcessConsumes(s: SinkState, m: Message)
    ensures |Process(s, m).s.input| <= |s.input|
  {
  }

  /** runSink's loop. An input that ends before a newline is the regular end. */
  function SinkLoop(state: ParserState, depth: int, s: SinkState): Done
    decreases |s.input|
  {
    var n := LineLength(s.input);
    if n == 0 then Done(s.(input := []), None)
    else
      var s' := s.(input := s.input[n..]);
      match Parse(s.input[..n])
      case Err(e) => Done(s', Some(BadLine(e)))
      case Ok(m) =>
        match StateStep(state, depth, m)
        case None => Done(s', Some(UnexpectedMessage(state)))
        case Some(move) =>
          var done := Process(s', m);
          ProcessConsumes(s', m);
          if done.err.Some? then done else SinkLoop(move.state, move.depth, done.s)
  }

  function SinkRun(recursive: bool, times: bool, s: SinkState): Done {
    SinkLoop(ParserStart(recursive, times), 0, Ack(s))
  }

  class Sink {
    const recursive: bool
    const times: bool
    var dir: Path
    var timeSet: bool
    var aTime: int64
    var mTime: int64
    var input: bytes
    var output: bytes
    var disk: Disk

    ghost function State(): SinkState
      reads this
    {
      SinkState(dir, timeSet, aTime, mTime, input, output, disk)
    }

    constructor (recursive: bool, times: bool, dir: Path, input: bytes, disk: Disk)
      ensures this.recursive == recursive && this.times == times
      ensures State() == SinkState(dir, false, 0, 0, input, [], disk)
    {
      this.recursive, this.times := recursive, times;
      this.dir, this.input, this.output, this.disk := dir, input, [], disk;
      timeSet, aTime, mTime := false, 0, 0;
    }

    method SendAck()
      modifies this
      ensures State() == Ack(old(State()))
    {
      output := output + [0];
    }

    method HandleC(m: Message) returns (err: Option<SinkError>)
      requires m.CMsg?
      modifies this
      ensures Done(State(), err) == ProcessC(old(State()), m)
    {
      var p := Join(FilePath(dir, m.name), m.name);
      var file := OpenFile(disk, p, m.mode);
      if file.None? {
        return Some(OpenFailed);
      }
      disk := file.value;
      SendAck();
      var limit := CopyLimit(m.length);
      var n := if limit < |input| then limit else |input|;
      var written := Write(disk, p, input[..n]);
      disk, input := written.disk, input[n..];
      if !written.ok {
        return Some(WriteFailed);
      }
      if timeSet {
        disk := Chtimes(disk, p, Times(aTime, mTime));
        timeSet := false;
      }
      if input == [] {
        return Some(InputEnded);
      }
      var r := input[0];
      input := input[1..];
      if r != 0 {
        return Some(BadTerminator(r));
      }
      SendAck();
      err := None;
    }

    method HandleD(m: Message) returns (err: Option<SinkError>)
      requires m.DMsg?
      modifies this
      ensures Done(State(), err) == ProcessD(old(State()), m)
    {
      if m.length != 0 {
        return Some(InvalidLength);
      }
      dir := Join(dir, m.name);
      var made := MkdirAll(disk, dir, m.mode);
      if made.None? {
        return Some(MkdirFailed);
      }
      disk := made.value;
      if timeSet {
        disk := Chtimes(disk, dir, Times(aTime, mTime));
        timeSet := false;
      }
      SendAck();
      err := None;
    }

    method Handle(m: Message) returns (err: Option<SinkError>)
      modifies this
      ensures Done(State(), err) == Process(old(State()), m)
    {
      match m {
        case CMsg(_, _, _) => err := HandleC(m);
        case DMsg(_, _, _) => err := HandleD(m);
        case EMsg =>
          dir := Parent(dir);
          SendAck();
          err := None;
        case TMsg(_, _) =>
          aTime, mTime, timeSet := m.aTime, m.mTime, true;
          SendAck();
          err := None;
      }
    }

    method RunSink() returns (err: Option<SinkError>)
      modifies this
      ensures Done(State(), err) == SinkRun(recursive, times, old(State()))
    {
      SendAck();
      var state, depth := ParserStart(recursive, times), 0;
      while true
        invariant SinkLoop(state, depth, State()) == SinkRun(recursive, times, old(State()))
        decreases |input|
      {
        var n := LineLength(input);
        if n == 0 {
          input := [];
          return None;
        }
        var line := input[..n];
        input := input[n..];
        var parsed := ParseSCPMessage(line);
        if parsed.Err? {
          return Some(BadLine(parsed.error));
        }
        var move := StateStep(state, depth, parsed.m);
        if move.None? {
          return Some(UnexpectedMessage(state));
        }
        state, depth := move.value.state, move.value.depth;
        ProcessConsumes(State(), parsed.m);
        err := Handle(parsed.m);
        if err.Some? {
          return;
        }
      }
    }
  }
}
