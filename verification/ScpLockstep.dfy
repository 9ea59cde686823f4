/**
 What every schedule of a session keeps: source and sink move in lockstep, one write and one answer at a
 time. So every session ends or gets stuck, and how it can end is decided by the first file whose length is not
 the one that was announced.
 */
module ScpLockstep {
  import opened Options
  import opened ScpUtf8
  import opened ScpLex
  import opened ScpMessages
  import opened ScpRoundTrip
  import opened ScpDisk
  import opened ScpSink
  import opened ScpSource
  import opened ScpReceive
  import opened ScpSession

  // ---- scripts

  /**
   How a content compares with the length announced for it. One that is longer may have a zero byte where its end
   was announced, and then it spills: what follows is taken for messages.
   */
  datatype Misfit = AllFit | Shorter | Longer | Spills

  function Fitting(limit: nat, content: bytes): Misfit {
    if |content| == limit then AllFit
    else if |content| < limit then Shorter
    else if content[limit] != 0 then Longer
    else Spills
  }

  /** The chunks after a line: the content a C line announced, and then another script. */
  predicate Follow(m: Message, rest: seq<Chunk>, first: Misfit)
    decreases |rest|, 1
  {
    && OnOneLine(m)
    && if m.CMsg? then
         rest != [] && rest[0].Content? && Contents(CopyLimit(m.length), rest[0].b, rest[1..], first)
       else Good(rest, first)
  }

  /** A content for which limit bytes were announced, and the chunks after it. */
  predicate Contents(limit: nat, content: bytes, rest: seq<Chunk>, first: Misfit)
    decreases |rest|, 1
  {
    match Fitting(limit, content)
    case AllFit => Good(rest, first)
    case Spills => first == Spills && rest == []
    case misfit => first == misfit
  }

  /** A script whose first misfit is the given one; it may spill with its last content only. */
  predicate Good(cs: seq<Chunk>, first: Misfit)
    decreases |cs|, 0
  {
    if cs == [] then first == AllFit else cs[0].Line? && Follow(cs[0].m, cs[1..], first)
  }

  /** No name holds a newline. */
  predicate OneLineNames(n: Node)
    decreases n
  {
    NEWLINE !in n.name && (n.Dir? ==> forall c :: c in n.children ==> OneLineNames(c))
  }

  /** The first misfit among the files of a tree, in the order they are sent. */
  function FirstMisfit(n: Node): Misfit
    decreases n
  {
    if n.File? then Fitting(CopyLimit(AsLength(n.size)), n.content) else FirstMisfitOf(n.children)
  }

  function FirstMisfitOf(ns: seq<Node>): Misfit
    decreases ns
  {
    if ns == [] then AllFit
    else if FirstMisfit(ns[0]) != AllFit then FirstMisfit(ns[0])
    else FirstMisfitOf(ns[1..])
  }

  /** In a directory no file spills before another one misfits. */
  predicate Contained(n: Node) {
    FirstMisfit(n) == Spills ==> n.File?
  }

  lemma GoodCons(m: Message, rest: seq<Chunk>, first: Misfit)
    requires Follow(m, rest, first)
    ensures Good([Line(m)] + rest, first)
  {
    assert ([Line(m)] + rest)[1..] == rest;
  }

  lemma {:induction false} ScriptIsGood(times: bool, n: Node, tail: seq<Chunk>, first: Misfit)
    requires OneLineNames(n) && if FirstMisfit(n) == AllFit then Good(tail, first) else first == FirstMisfit(n)
    requires first == Spills && FirstMisfit(n) == Spills ==> n.File? && tail == []
    ensures Good(Script(times, n) + tail, first)
    decreases n
  {
    var body := Body(times, n, tail);
    if n.File? {
      assert ([Content(n.content)] + tail)[1..] == tail;
      GoodCons(FileMessage(n), [Content(n.content)] + tail, first);
    } else {
      if FirstMisfit(n) == AllFit {
        GoodCons(EMsg, tail, first);
      }
      ScriptsAreGood(times, n.children, [Line(EMsg)] + tail, first);
      GoodCons(DirMessage(n), ScriptAll(times, n.children) + ([Line(EMsg)] + tail), first);
    }
    ScriptSplit(times, n, tail);
    if times {
      GoodCons(TimesMessage(n), body, first);
    }
  }

  /** A node's script without its times, and then tail. */
  function Body(times: bool, n: Node, tail: seq<Chunk>): seq<Chunk> {
    if n.File? then [Line(FileMessage(n))] + ([Content(n.content)] + tail)
    else [Line(DirMessage(n))] + (ScriptAll(times, n.children) + ([Line(EMsg)] + tail))
  }

  lemma ScriptSplit(times: bool, n: Node, tail: seq<Chunk>)
    ensures Script(times, n) + tail ==
            if times then [Line(TimesMessage(n))] + Body(times, n, tail) else Body(times, n, tail)
  {
    if n.Dir? {
      var all := ScriptAll(times, n.children);
      assert [Line(DirMessage(n))] + (all + [Line(EMsg)]) + tail == Body(times, n, tail);
    }
  }

  lemma {:induction false} ScriptsAreGood(times: bool, ns: seq<Node>, tail: seq<Chunk>, first: Misfit)
    requires forall c :: c in ns ==> OneLineNames(c)
    requires if FirstMisfitOf(ns) == AllFit then Good(tail, first) else first == FirstMisfitOf(ns)
    requires first == Spills ==> FirstMisfitOf(ns) == AllFit
    ensures Good(ScriptAll(times, ns) + tail, first)
    decreases ns
  {
    if ns == [] {
      assert ScriptAll(times, ns) + tail == tail;
    } else {
      if FirstMisfit(ns[0]) == AllFit {
        ScriptsAreGood(times, ns[1..], tail, first);
      }
      ScriptIsGood(times, ns[0], ScriptAll(times, ns[1..]) + tail, first);
      assert ScriptAll(times, ns) + tail == Script(times, ns[0]) + (ScriptAll(times, ns[1..]) + tail);
    }
  }

  // ---- what the sink makes of a line of the script

  /** Whatever a printed line parses to, it is the same kind of message, and a C message has the same length. */
  lemma ParsedKind(m: Message)
    requires Parse(Print(m)).Ok?
    ensures var m' := Parse(Print(m)).m;
            Letter(m') == Letter(m) && (m.CMsg? <==> m'.CMsg?) && (m.CMsg? ==> m'.length == m.length)
  {
    if m.CMsg? || m.DMsg? {
      var p := HeaderLexes(m);
      var rest := Tokens(Items(AfterSpace, m.name + [NEWLINE], p));
      ParsedHeader(m, Tokens(Items(Start, Print(m), 0)), rest);
      BindKeepsKind(m.(name := []), NAME_BINDERS, rest);
      NameBinding(m.(name := []), rest);
    } else {
      var c := Letter(m);
      var line := Print(m);
      assert line == [c] + line[1..];
      var p := TypeToken(c, line[1..], 0);
      var tokens := Tokens(Items(Start, line, 0));
      assert tokens[0].val == [c];
      var blank := Blank([c]).m;
      BindKeepsKind(blank, Binders(blank), tokens[1..]);
    }
  }

  /** Binding a name changes nothing but the name. */
  lemma NameBinding(m: Message, rest: seq<Token>)
    requires m.CMsg? || m.DMsg?
    ensures BindAll(m, NAME_BINDERS, rest).Ok? ==> BindAll(m, NAME_BINDERS, rest).m == m.(name := rest[0].val)
  {
    assert NAME_BINDERS[1..] == [Binder(EndItem, NoField)] && NAME_BINDERS[1..][1..] == [];
  }

  // ---- the invariant

  predicate AllZero(b: bytes) {
    forall i :: 0 <= i < |b| ==> b[i] == 0
  }

  /** The sink has sent all acks due when the chunks in rest are still to be answered. */
  predicate Acknowledged(se: Session, total: nat, rest: nat) {
    AllZero(se.mem.output) && |se.mem.output| + rest == total + 1
  }

  /** The sink is between two chunks, its last ack not read. */
  predicate AckPending(se: Session, total: nat, rest: seq<Chunk>, first: Misfit) {
    && se.toSource == [0] && se.toSink == []
    && Acknowledged(se, total, |rest|)
    && match se.snk
       case Reading(_, _) => Good(rest, first)
       case Copying(_, left, _, _) => rest != [] && rest[0].Content? && Contents(left, rest[0].b, rest[1..], first)
       case Closing(_, _) => rest != [] && rest[0].Content? && Contents(0, rest[0].b, rest[1..], first)
       case _ => false
  }

  /** Of a content and its zero byte, bytes are left to be taken by the sink, for which left have been announced. */
  predicate Coming(left: nat, bytes: bytes, rest: seq<Chunk>, first: Misfit) {
    && bytes != [] && bytes[|bytes| - 1] == 0
    && Contents(left, bytes[..|bytes| - 1], rest, first)
  }

  /** The sink owes an answer to the chunk of which bytes are left. */
  ghost predicate ChunkPending(se: Session, total: nat, bytes: bytes, rest: seq<Chunk>, first: Misfit) {
    && se.toSource == []
    && Acknowledged(se, total, |rest| + 1)
    && match se.snk
       case Reading(_, _) => exists m :: bytes == Print(m) && Follow(m, rest, first)
       case Copying(_, left, _, _) => Coming(left, bytes, rest, first)
       case Closing(_, _) => Coming(0, bytes, rest, first)
       case _ => false
  }

  /** The sink has failed before it has answered all chunks. */
  predicate Failed(se: Session, total: nat) {
    && se.snk.SinkDone? && se.snk.err.Some? && se.toSource == Reply(SINK_TEXT(se.snk.err.value))
    && |se.mem.output| <= total
  }

  /** The sink waits for the rest of a content, and the source for its answer. */
  predicate Starved(se: Session) {
    se.toSource == [] && se.toSink == [] && (se.snk.Copying? || se.snk.Closing?)
  }

  /** The sink has answered the last chunk, and goes on with what has spilled. */
  predicate Answered(se: Session) {
    se.toSource != [] && se.toSource[0] == 0 && !se.snk.Unstarted?
  }

  /** The source has given up in the middle of its script, and the sink cannot but fail on what is left for it. */
  predicate Broken(se: Session) {
    match se.snk
    case Reading(_, _) => NEWLINE in se.toSink && se.toSink[0] == 2
    case Copying(_, left, _, _) => |se.toSink| > left ==> se.toSink[left] != 0
    case Closing(_, _) => se.toSink != [] ==> se.toSink[0] != 0
    case _ => false
  }

  /** Lockstep, for a session over a script of total chunks whose first misfit is the given one. */
  ghost predicate Lockstep(se: Session, total: nat, first: Misfit) {
    match se.src
    case Waiting(rest) =>
      || (se.snk.Unstarted? && se.toSink == [] && se.toSource == [] && se.mem.output == [] && Good(rest, first)
          && |rest| == total)
      || AckPending(se, total, rest, first)
      || ChunkPending(se, total, se.toSink, rest, first)
      || Failed(se, total)
      || (first == Shorter && Starved(se))
      || (first == Spills && rest == [] && Answered(se))
    case Writing(left, rest) =>
      && left != []
      && (|| ChunkPending(se, total, se.toSink + left, rest, first)
          || Failed(se, total)
          || (first == Spills && rest == [] && Answered(se)))
    case SourceDone(err) =>
      || (first == Spills && (err.None? || err.value.LocalFailure?) && !se.snk.Unstarted?)
      || (if err.Some? then
            || (se.snk.SinkDone? && se.snk.err.Some? && (err.value.LocalFailure? || |se.mem.output| <= total))
            || (err.value.LocalFailure? && Broken(se))
          else
            && first == AllFit && (se.snk.Reading? || se.snk == SinkDone(None))
            && se.toSink == [] && se.toSource == [] && Acknowledged(se, total, 0))
  }

  lemma SourceWriteKeeps(se: Session, total: nat, first: Misfit, k: nat)
    requires Lockstep(se, total, first) && DoSourceWrite(se, k).Some?
    ensures Lockstep(DoSourceWrite(se, k).value, total, first)
  {
    var left, rest := se.src.left, se.src.rest;
    assert (se.toSink + left[..k]) + left[k..] == se.toSink + left;
    if left[k..] == [] {
      assert se.toSink + left[..k] == se.toSink + left;
    }
  }

  lemma SourceReadKeeps(se: Session, total: nat, first: Misfit)
    requires Lockstep(se, total, first) && DoSourceRead(se).Some?
    ensures Lockstep(DoSourceRead(se).value, total, first)
  {
    var rest := se.src.rest;
    if AckPending(se, total, rest, first) {
      assert [0][1..] == [];
      if rest != [] {
        NextChunkPending(se, total, first);
      }
    } else {
      AckComes(se, total, first);
    }
  }

  /** The source reads an ack and begins with the next chunk. */
  lemma NextChunkPending(se: Session, total: nat, first: Misfit)
    requires se.src.Waiting? && se.src.rest != [] && AckPending(se, total, se.src.rest, first)
    ensures DoSourceRead(se).Some?
    ensures var se' := DoSourceRead(se).value;
            && se'.src == Writing(ChunkBytes(se.src.rest[0]), se.src.rest[1..]) && se'.src.left != []
            && ChunkPending(se', total, se'.toSink + se'.src.left, se.src.rest[1..], first)
  {
    assert [0][1..] == [];
    var rest := se.src.rest;
    var se', chunk := DoSourceRead(se).value, ChunkBytes(rest[0]);
    assert [] + chunk == chunk;
    if rest[0].Line? {
      assert Good(rest, first) && Follow(rest[0].m, rest[1..], first);
      PrintedIsALine(rest[0].m);
      assert chunk == Print(rest[0].m);
    } else {
      assert chunk[..|chunk| - 1] == rest[0].b;
    }
  }

  /** Where no ack is pending, the source reads a failure, or the answer to the last chunk. */
  lemma AckComes(se: Session, total: nat, first: Misfit)
    requires Lockstep(se, total, first) && se.src.Waiting? && !AckIncomplete(se.toSource)
    requires !AckPending(se, total, se.src.rest, first)
    ensures Failed(se, total) || (first == Spills && se.src.rest == [] && Answered(se))
  {
  }

  lemma ReplyHasNoZero()
    ensures 0 !in Reply(LOCAL_TEXT)
  {
  }

  /** A source that cannot read leaves the sink with something that makes it fail, unless a content has spilled. */
  lemma SourceFailsKeeps(se: Session, total: nat, first: Misfit)
    requires Lockstep(se, total, first) && DoSourceFails(se).Some?
    ensures Lockstep(DoSourceFails(se).value, total, first)
  {
    hide GetAck, Print, Contents, Good;
    ReplyHasNoZero();
    var reply, se' := Reply(LOCAL_TEXT), DoSourceFails(se).value;
    assert se'.toSink == se.toSink + reply && se'.src == SourceDone(Some(LocalFailure));
    match se.src
    case Waiting(rest) =>
      if AckPending(se, total, rest, first) {
        assert se'.toSink == reply && reply[|reply| - 1] == NEWLINE;
      } else {
        AckComes(se, total, first);
      }
    case Writing(left, rest) =>
      if ChunkPending(se, total, se.toSink + left, rest, first) && first != Spills {
        NotInALine(se, total, left, rest, first);
        BrokenInContent(se, se', total, left, rest, first);
      }
  }

  lemma BrokenInContent(se: Session, se': Session, total: nat, left: bytes, rest: seq<Chunk>, first: Misfit)
    requires ChunkPending(se, total, se.toSink + left, rest, first) && left != [] && first != Spills
    requires se.snk.Copying? || se.snk.Closing?
    requires se'.snk == se.snk && se'.toSink == se.toSink + Reply(LOCAL_TEXT)
    ensures Broken(se')
  {
    ReplyHasNoZero();
    var n := if se.snk.Copying? then se.snk.left else 0;
    var b := se.toSink + left;
    if |se.toSink| > n {
      assert b[..|b| - 1][n] == se.toSink[n] == se'.toSink[n];
    } else if |se'.toSink| > n {
      assert se'.toSink[n] == Reply(LOCAL_TEXT)[n - |se.toSink|];
    }
  }

  /** The sink is at the content whose end is still to be written. */
  lemma NotInALine(se: Session, total: nat, left: bytes, rest: seq<Chunk>, first: Misfit)
    requires ChunkPending(se, total, se.toSink + left, rest, first) && InContent(left)
    ensures se.snk.Copying? || se.snk.Closing?
  {
    var b := se.toSink + left;
    assert b[|b| - 1] == 0;
    if se.snk.Reading? {
      var m :| b == Print(m) && Follow(m, rest, first);
      PrintedIsALine(m);
    }
  }

  /** What a source says that gives up is no message. */
  lemma ReplyIsNoMessage(line: bytes)
    requires line != [] && line[0] == 2
    ensures Parse(line).Err?
  {
  }

  /** A sink that reads what a source said when it gave up fails. */
  lemma BrokenLine(se: Session)
    requires Broken(se) && DoSinkLine(se).Some?
    ensures var se' := DoSinkLine(se).value; se'.src == se.src && se'.snk.SinkDone? && se'.snk.err.Some?
  {
    hide Parse;
    ReplyIsNoMessage(se.toSink[..LineLength(se.toSink)]);
  }

  /** Opening a file sends one ack, or ends the sink. */
  lemma OpensKeeps(se: Session, total: nat, m: Message, move: Move, rest: seq<Chunk>, first: Misfit)
    requires m.CMsg? && se.toSource == [] && se.toSink == [] && Acknowledged(se, total, |rest| + 1)
    requires rest != [] && rest[0].Content? && Contents(CopyLimit(m.length), rest[0].b, rest[1..], first)
    ensures var r := SinkOpens(se, m, move);
            r.src == se.src && (AckPending(r, total, rest, first) || Failed(r, total))
  {
    hide Contents;
  }

  /** Handling a D, E or T message sends one ack, or ends the sink. */
  lemma HandlesKeeps(se: Session, total: nat, m: Message, move: Move, rest: seq<Chunk>, first: Misfit)
    requires !m.CMsg? && se.toSource == [] && se.toSink == []
    requires Acknowledged(se, total, |rest| + 1) && Good(rest, first)
    ensures var r := SinkHandles(se, m, move);
            r.src == se.src && (AckPending(r, total, rest, first) || Failed(r, total))
  {
    hide Good;
  }

  /** The sink answers a whole line. */
  lemma SinkLineKeeps(se: Session, total: nat, m: Message, rest: seq<Chunk>, first: Misfit)
    requires ChunkPending(se, total, Print(m), rest, first) && se.toSink == Print(m) && se.snk.Reading?
    requires Follow(m, rest, first)
    ensures var r := DoSinkLine(se);
            r.Some? ==> r.value.src == se.src && (AckPending(r.value, total, rest, first) || Failed(r.value, total))
  {
    hide Print, Parse, StateStep, Process, SinkOpens, SinkHandles, Contents;
    PrintedIsALine(m);
    LineLengthOf(Print(m), []);
    assert Print(m) + [] == Print(m);
    var n := |Print(m)|;
    assert se.toSink[..n] == Print(m) && se.toSink[n..] == [];
    if Parse(Print(m)).Ok? {
      ParsedKind(m);
      var m' := Parse(Print(m)).m;
      var move := StateStep(se.snk.state, se.snk.depth, m');
      if move.Some? {
        if m'.CMsg? {
          OpensKeeps(se.(toSink := []), total, m', move.value, rest, first);
        } else {
          HandlesKeeps(se.(toSink := []), total, m', move.value, rest, first);
        }
      }
    }
  }

  /** Taking a part of a content leaves the rest of it coming; if nothing is left, too much was announced. */
  lemma CopiedPart(left: nat, bytes: bytes, rest: seq<Chunk>, first: Misfit, k: nat)
    requires Coming(left, bytes, rest, first) && k <= left && k <= |bytes|
    ensures if k < |bytes| then Coming(left - k, bytes[k..], rest, first) else first == Shorter
  {
    hide Good;
    if k < |bytes| {
      var b := bytes[k..];
      assert b[..|b| - 1] == bytes[..|bytes| - 1][k..];
    }
  }

  lemma SinkCopyKeeps(se: Session, total: nat, bytes: bytes, rest: seq<Chunk>, first: Misfit, k: nat)
    requires ChunkPending(se, total, bytes, rest, first) && se.toSink <= bytes && DoSinkCopy(se, k).Some?
    ensures var se' := DoSinkCopy(se, k).value;
            && se'.src == se.src && se'.toSink == se.toSink[k..]
            && (|| Failed(se', total)
                || (if k < |bytes| then ChunkPending(se', total, bytes[k..], rest, first)
                    else first == Shorter && Starved(se')))
  {
    hide Coming, Write;
    CopiedPart(se.snk.left, bytes, rest, first, k);
  }

  /** Every step keeps the lockstep. */
  lemma StepKeeps(se: Session, total: nat, first: Misfit, step: Step)
    requires Lockstep(se, total, first) && Do(se, step).Some?
    ensures Lockstep(Do(se, step).value, total, first)
  {
    hide Lockstep, DoSourceWrite, DoSourceRead, DoSourceFails, DoSinkLine, DoSinkCopy, DoSinkZero;
    match step
    case SourceWrite(k) => SourceWriteKeeps(se, total, first, k);
    case SourceRead => SourceReadKeeps(se, total, first);
    case SourceEof => NoEof(se, total, first);
    case SourceFails => SourceFailsKeeps(se, total, first);
    case SinkStart => SinkStartKeeps(se, total, first);
    case SinkLine => LineStepKeeps(se, total, first);
    case SinkCopy(k) => CopyStepKeeps(se, total, first, k);
    case SinkCopied => CopiedKeeps(se, total, first);
    case SinkZero => ZeroKeeps(se, total, first);
    case SinkEof => SinkEofKeeps(se, total, first);
  }

  /** A source never waits in vain for a sink that is done. */
  lemma NoEof(se: Session, total: nat, first: Misfit)
    requires Lockstep(se, total, first)
    ensures Do(se, SourceEof).None?
  {
    if Failed(se, total) {
      ReplyIsComplete(se, total);
    }
  }

  lemma SinkStartKeeps(se: Session, total: nat, first: Misfit)
    requires Lockstep(se, total, first) && Do(se, SinkStart).Some?
    ensures Lockstep(Do(se, SinkStart).value, total, first)
  {
    hide Good;
  }

  lemma SinkEofKeeps(se: Session, total: nat, first: Misfit)
    requires Lockstep(se, total, first) && Do(se, SinkEof).Some?
    ensures Lockstep(Do(se, SinkEof).value, total, first)
  {
  }

  lemma ReplyIsComplete(se: Session, total: nat)
    requires Failed(se, total)
    ensures !AckIncomplete(se.toSource)
  {
    var text := SINK_TEXT(se.snk.err.value);
    assert se.toSource[1..] == text + [NEWLINE];
    assert (text + [NEWLINE])[|text|] == NEWLINE;
  }

  /** As long as some of a line is not written, its newline is not. */
  lemma NoLineYet(se: Session, total: nat, left: bytes, rest: seq<Chunk>, first: Misfit)
    requires ChunkPending(se, total, se.toSink + left, rest, first) && se.snk.Reading? && left != []
    ensures NEWLINE !in se.toSink
  {
    var m :| se.toSink + left == Print(m) && Follow(m, rest, first);
    PrintedIsALine(m);
    StrictPrefixHasNoNewline(Print(m), se.toSink);
  }

  /** What a sink has answered stays answered, whatever it makes of the rest. */
  lemma SinkStepsStayAnswered(se: Session, step: Step)
    requires Answered(se) && !BySource(step) && Do(se, step).Some?
    ensures Answered(Do(se, step).value) && Do(se, step).value.src == se.src
  {
    hide Parse, Process, Write, StateStep, OpenFile;
  }

  /** A sink that has started has always started. */
  lemma SinkStaysStarted(se: Session, step: Step)
    requires !se.snk.Unstarted? && !BySource(step) && Do(se, step).Some?
    ensures !Do(se, step).value.snk.Unstarted? && Do(se, step).value.src == se.src
  {
    hide Parse, Process, Write, StateStep, OpenFile;
  }

  /** Where the last content has spilled and is answered, or its source has given up, the sink's steps keep it so. */
  predicate Spilt(se: Session, first: Misfit) {
    && first == Spills
    && match se.src
       case Waiting(rest) => rest == [] && Answered(se)
       case Writing(left, rest) => left != [] && rest == [] && Answered(se)
       case SourceDone(err) => (err.None? || err.value.LocalFailure?) && !se.snk.Unstarted?
  }

  lemma SpiltKept(se: Session, total: nat, first: Misfit, step: Step)
    requires Spilt(se, first) && !BySource(step) && Do(se, step).Some?
    ensures Lockstep(Do(se, step).value, total, first)
  {
    hide Do;
    SinkStaysStarted(se, step);
    if !se.src.SourceDone? {
      SinkStepsStayAnswered(se, step);
    }
  }

  lemma LineStepKeeps(se: Session, total: nat, first: Misfit)
    requires Lockstep(se, total, first) && DoSinkLine(se).Some?
    ensures Lockstep(DoSinkLine(se).value, total, first)
  {
    hide DoSinkLine, Print, Good, Follow;
    if Spilt(se, first) {
      SpiltKept(se, total, first, SinkLine);
      return;
    }
    match se.src
    case Waiting(rest) =>
      AtALine(se);
      var m :| se.toSink == Print(m) && Follow(m, rest, first);
      SinkLineKeeps(se, total, m, rest, first);
    case Writing(left, rest) =>
      AtALine(se);
      NoLineYet(se, total, left, rest, first);
    case SourceDone(_) =>
      AtALine(se);
      BrokenLine(se);
  }

  lemma AtALine(se: Session)
    requires DoSinkLine(se).Some?
    ensures se.snk.Reading? && NEWLINE in se.toSink
  {
    hide Parse, StateStep;
  }

  lemma CopyStepKeeps(se: Session, total: nat, first: Misfit, k: nat)
    requires Lockstep(se, total, first) && DoSinkCopy(se, k).Some?
    ensures Lockstep(DoSinkCopy(se, k).value, total, first)
  {
    hide Good, Follow, Coming, Contents, Write;
    if Spilt(se, first) {
      SpiltKept(se, total, first, SinkCopy(k));
      return;
    }
    match se.src
    case Waiting(rest) => SinkCopyKeeps(se, total, se.toSink, rest, first, k);
    case Writing(left, rest) =>
      SinkCopyKeeps(se, total, se.toSink + left, rest, first, k);
      assert (se.toSink + left)[k..] == se.toSink[k..] + left;
    case SourceDone(_) =>
  }

  lemma CopiedKeeps(se: Session, total: nat, first: Misfit)
    requires Lockstep(se, total, first) && Do(se, SinkCopied).Some?
    ensures Lockstep(Do(se, SinkCopied).value, total, first)
  {
    hide Good, Follow, Coming, Contents;
  }

  lemma ZeroKeeps(se: Session, total: nat, first: Misfit)
    requires Lockstep(se, total, first) && DoSinkZero(se).Some?
    ensures Lockstep(DoSinkZero(se).value, total, first)
  {
    hide Good, Follow, Coming, Contents;
    if Spilt(se, first) {
      SpiltKept(se, total, first, SinkZero);
      return;
    }
    match se.src
    case Waiting(rest) => ZeroAnswers(se, total, se.toSink, rest, first);
    case Writing(left, rest) => ZeroAnswers(se, total, se.toSink + left, rest, first);
    case SourceDone(_) =>
  }

  /** The byte after a content is its zero byte, or the content is too long. */
  lemma ZeroAnswers(se: Session, total: nat, bytes: bytes, rest: seq<Chunk>, first: Misfit)
    requires ChunkPending(se, total, bytes, rest, first) && se.toSink <= bytes && DoSinkZero(se).Some?
    ensures var se' := DoSinkZero(se).value;
            && se'.src == se.src
            && (|| Failed(se', total)
                || (se.toSink == bytes && AckPending(se', total, rest, first))
                || (first == Spills && rest == [] && Answered(se')))
  {
    hide Good;
    var content := bytes[..|bytes| - 1];
    assert bytes[0] == se.toSink[0];
    if content != [] {
      assert content[0] == bytes[0];
    }
  }

  // ---- whole sessions

  /** Every schedule of a session keeps the lockstep. */
  lemma {:induction false} AlwaysLockstep(script: seq<Chunk>, se0: Session, steps: seq<Step>, first: Misfit)
    requires Good(script, first) && se0.mem.output == []
    requires se0.snk.Unstarted? && se0 == Begin(script, se0.snk.recursive, se0.snk.times, se0.mem)
    requires Play(se0, steps).Some?
    ensures Lockstep(Play(se0, steps).value, |script|, first)
    decreases |steps|
  {
    if steps != [] {
      var init := steps[..|steps| - 1];
      AlwaysLockstep(script, se0, init, first);
      StepKeeps(Play(se0, init).value, |script|, first, steps[|steps| - 1]);
    }
  }

  /** The sink's step when the source is done. */
  function NextOfSink(se: Session): Step {
    match se.snk
    case Unstarted(_, _) => SinkStart
    case Reading(_, _) => if NEWLINE in se.toSink then SinkLine else SinkEof
    case Copying(_, left, _, _) => if left == 0 || se.toSink == [] then SinkCopied else SinkCopy(1)
    case _ => if se.toSink == [] then SinkEof else SinkZero
  }

  /** When the source is done, the sink can go on until it is done too. */
  lemma SinkNotStuck(se: Session)
    requires se.src.SourceDone? && !se.snk.SinkDone?
    ensures Do(se, NextOfSink(se)).Some?
  {
    hide Parse, Process, Write, StateStep;
  }

  /** When the source waits for an ack, the sink can go on, or the ack has come; but not if too much was announced. */
  lemma NotStuckForAck(se: Session, total: nat, first: Misfit) returns (step: Step)
    requires Lockstep(se, total, first) && se.src.Waiting? && first != Shorter
    ensures step != SourceFails && Do(se, step).Some?
  {
    hide Parse, Process, Write, StateStep, Print, Good, Follow, Contents, GetAck;
    var rest := se.src.rest;
    if se.snk.Unstarted? {
      return SinkStart;
    }
    if AckPending(se, total, rest, first) || Answered(se) {
      return SourceRead;
    }
    if Failed(se, total) {
      ReplyIsComplete(se, total);
      return SourceRead;
    }
    match se.snk
    case Reading(_, _) =>
      var m :| se.toSink == Print(m) && Follow(m, rest, first);
      PrintedOnALine(m, rest, first);
      return SinkLine;
    case Copying(_, left, _, _) => return if left == 0 then SinkCopied else SinkCopy(1);
    case Closing(_, _) => return SinkZero;
  }

  lemma PrintedOnALine(m: Message, rest: seq<Chunk>, first: Misfit)
    requires Follow(m, rest, first)
    ensures NEWLINE in Print(m)
  {
    PrintedIsALine(m);
  }

  /**
   Unless it is over, a session in lockstep has an enabled step other than a failure to read, if the first misfit is
   not a content that is shorter than announced.
   */
  lemma NeverStuck(se: Session, total: nat, first: Misfit) returns (step: Step)
    requires Lockstep(se, total, first) && !Over(se) && first != Shorter
    ensures step != SourceFails && Do(se, step).Some?
  {
    hide DoSourceRead, DoSinkLine, DoSinkCopy, DoSinkZero, GetAck, ChunkPending, Failed, Answered, AckPending, Good;
    match se.src
    case Writing(_, _) => return SourceWrite(1);
    case SourceDone(_) =>
      SinkNotStuck(se);
      return NextOfSink(se);
    case Waiting(_) =>
      step := NotStuckForAck(se, total, first);
  }

  /**
   When a session is over and nothing has spilled, either both ends succeeded, with an ack for each chunk and one
   more, or both failed; and they fail if any content misfits.
   */
  lemma EndsAgree(se: Session, total: nat, first: Misfit)
    requires Lockstep(se, total, first) && Over(se) && first != Spills
    ensures se.src.err == None <==> se.snk.err == None
    ensures se.src.err == None ==> first == AllFit
    ensures se.src.err == None ==> AllZero(se.mem.output) && |se.mem.output| == total + 1
    ensures se.src.err == None ==> se.toSink == [] && se.toSource == []
  {
  }

  function Unwritten(src: SourceProc): nat {
    match src
    case Waiting(rest) => ScriptLength(rest)
    case Writing(left, rest) => |left| + ScriptLength(rest)
    case SourceDone(_) => 0
  }

  function ScriptLength(cs: seq<Chunk>): nat {
    if cs == [] then 0 else |ChunkBytes(cs[0])| + ScriptLength(cs[1..])
  }

  /** An upper bound for the number of steps that are left. */
  function StepsLeft(se: Session): nat {
    6 * Unwritten(se.src) + (if se.src.SourceDone? then 0 else 4 * |Reply(LOCAL_TEXT)|) +
    (match se.src
     case Waiting(rest) => 2 * |rest| + 2
     case Writing(_, rest) => 2 * |rest| + 2
     case SourceDone(_) => 0) +
    (match se.snk
     case Unstarted(_, _) => 3 + 4 * |se.toSink|
     case Copying(_, _, _, _) => 2 + 4 * |se.toSink|
     case SinkDone(_) => 0
     case _ => 1 + 4 * |se.toSink|)
  }

  lemma StepsGetFewer(se: Session, total: nat, first: Misfit, step: Step)
    requires Lockstep(se, total, first) && Do(se, step).Some?
    ensures StepsLeft(Do(se, step).value) < StepsLeft(se)
  {
    hide GetAck, Parse, Print, Process, StateStep, Write, DoSourceFails, DoSourceRead, DoSinkLine, Lockstep;
    var se' := Do(se, step).value;
    match step
    case SourceWrite(k) =>
    case SourceRead => SourceReadGetsFewer(se, total, first);
    case SourceEof => NoEof(se, total, first);
    case SourceFails => SourceFailsGetsFewer(se);
    case SinkStart =>
    case SinkLine => SinkLineGetsFewer(se);
    case SinkCopy(k) =>
    case SinkCopied =>
    case SinkZero =>
    case SinkEof =>
  }

  lemma SourceFailsGetsFewer(se: Session)
    requires DoSourceFails(se).Some?
    ensures StepsLeft(DoSourceFails(se).value) < StepsLeft(se)
  {
    hide GetAck;
  }

  lemma SinkLineGetsFewer(se: Session)
    requires DoSinkLine(se).Some?
    ensures StepsLeft(DoSinkLine(se).value) < StepsLeft(se)
  {
    hide Parse, StateStep, Process;
  }

  lemma SourceReadGetsFewer(se: Session, total: nat, first: Misfit)
    requires Lockstep(se, total, first) && DoSourceRead(se).Some?
    ensures StepsLeft(DoSourceRead(se).value) < StepsLeft(se)
  {
    hide Good, Contents;
    if AckPending(se, total, se.src.rest, first) {
      assert [0][1..] == [];
    } else {
      AckComes(se, total, first);
    }
  }

  /** No schedule is longer than the bound for the beginning: every session comes to an end, or to a halt. */
  lemma {:induction false} SessionsEnd(script: seq<Chunk>, se0: Session, steps: seq<Step>, first: Misfit)
    requires Good(script, first) && se0.mem.output == []
    requires se0.snk.Unstarted? && se0 == Begin(script, se0.snk.recursive, se0.snk.times, se0.mem)
    requires Play(se0, steps).Some?
    ensures |steps| + StepsLeft(Play(se0, steps).value) <= StepsLeft(se0)
    decreases |steps|
  {
    if steps != [] {
      var init := steps[..|steps| - 1];
      SessionsEnd(script, se0, init, first);
      AlwaysLockstep(script, se0, init, first);
      StepsGetFewer(Play(se0, init).value, |script|, first, steps[|steps| - 1]);
    }
  }

  /** The number of messages of each kind, and the acks they ask for. */
  function Count(n: Node): nat
    decreases n
  {
    1 + if n.Dir? then CountAll(n.children) else 0
  }

  function CountAll(ns: seq<Node>): nat
    decreases ns
  {
    if ns == [] then 0 else Count(ns[0]) + CountAll(ns[1..])
  }

  /** A script has two chunks for each node (C and content, or D and E), and one more for each with times. */
  lemma {:induction false} ScriptCount(times: bool, n: Node)
    ensures |Script(times, n)| == (if times then 3 else 2) * Count(n)
    decreases n
  {
    if n.Dir? {
      ScriptCounts(times, n.children);
    }
  }

  lemma {:induction false} ScriptCounts(times: bool, ns: seq<Node>)
    ensures |ScriptAll(times, ns)| == (if times then 3 else 2) * CountAll(ns)
    decreases ns
  {
    if ns != [] {
      ScriptCount(times, ns[0]);
      ScriptCounts(times, ns[1..]);
    }
  }

  /** The script of a tree has the tree's first misfit. */
  lemma TreeScriptIsGood(times: bool, n: Node)
    requires OneLineNames(n) && Contained(n)
    ensures Good(Script(times, n), FirstMisfit(n))
  {
    hide Script;
    ScriptIsGood(times, n, [], FirstMisfit(n));
    assert Script(times, n) + [] == Script(times, n);
  }

  /**
   A session over a tree, with a sink of any kind on any disk. It takes boundedly many steps. Unless the first misfit
   is a file that is shorter than announced, it can always go on until both ends are done. Unless a file has spilled,
   both have then succeeded or both have failed; if they succeeded, no file misfits, and the sink has sent one ack at
   the start, one for each T, D and E message and two for each C message.
   */
  lemma SessionOverATree(times: bool, n: Node, recursive: bool, sinkTimes: bool, mem: SinkState, steps: seq<Step>)
    requires OneLineNames(n) && Contained(n) && mem.output == []
    requires Play(Begin(Script(times, n), recursive, sinkTimes, mem), steps).Some?
    ensures var se0 := Begin(Script(times, n), recursive, sinkTimes, mem);
            var se := Play(se0, steps).value;
            && |steps| <= StepsLeft(se0)
            && (!Over(se) && FirstMisfit(n) != Shorter ==> exists step :: step != SourceFails && Do(se, step).Some?)
            && (Over(se) && FirstMisfit(n) != Spills ==> (se.src.err == None <==> se.snk.err == None))
            && (Over(se) && FirstMisfit(n) != Spills && se.snk.err == None ==>
                  && FirstMisfit(n) == AllFit && AllZero(se.mem.output)
                  && |se.mem.output| == 1 + (if times then 3 else 2) * Count(n))
  {
    hide Lockstep, Script, Do;
    var script, first := Script(times, n), FirstMisfit(n);
    var se0 := Begin(script, recursive, sinkTimes, mem);
    var se := Play(se0, steps).value;
    TreeScriptIsGood(times, n);
    AlwaysLockstep(script, se0, steps, first);
    SessionsEnd(script, se0, steps, first);
    ScriptCount(times, n);
    if Over(se) {
      if first != Spills {
        EndsAgree(se, |script|, first);
      }
    } else if first != Shorter {
      var step := NeverStuck(se, |script|, first);
    }
  }
}
