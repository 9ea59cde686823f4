/**
 What a session brings about, in whatever order its steps come: the sink ends as it would if it had all bytes
 from the start, the script is what the source would send, and so a session transfers the tree.
 */
module ScpSessionResults {
  import opened Options
  import opened ScpUtf8
  import opened ScpMessages
  import opened ScpPaths
  import opened ScpDisk
  import opened ScpSink
  import opened ScpSource
  import opened ScpSend
  import opened ScpReceive
  import opened ScpTransfer
  import opened ScpSession
  import opened ScpLockstep

  // ---- the script is what the source sends

  /** Writing the chunks one after the other, each with its ack. */
  function RunScript(cs: seq<Chunk>, s: SourceState): (r: Sent)
    ensures r.s.dir == s.dir
    decreases |cs|
  {
    if cs == [] then Sent(s, None)
    else
      var c := Send(s, ChunkBytes(cs[0]));
      if c.err.Some? then c else RunScript(cs[1..], c.s)
  }

  lemma {:induction false} RunScriptConcat(a: seq<Chunk>, b: seq<Chunk>, s: SourceState)
    ensures var r := RunScript(a, s);
            RunScript(a + b, s) == if r.err.Some? then r else RunScript(b, r.s)
    decreases |a|
  {
    if a == [] {
      assert a + b == b;
    } else {
      assert (a + b)[1..] == a[1..] + b;
      RunScriptConcat(a[1..], b, Send(s, ChunkBytes(a[0])).s);
    }
  }

  lemma {:induction false} RunScriptElsewhere(cs: seq<Chunk>, s: SourceState, dir: Path)
    ensures RunScript(cs, s.(dir := dir)) == RunScript(cs, s).(s := RunScript(cs, s).s.(dir := dir))
    decreases |cs|
  {
    if cs != [] {
      RunScriptElsewhere(cs[1..], Send(s, ChunkBytes(cs[0])).s, dir);
    }
  }

  lemma RunScriptOne(c: Chunk, s: SourceState)
    ensures RunScript([c], s) == Send(s, ChunkBytes(c))
  {
    assert [c][1..] == [];
  }

  /** The same, but for the directory, which is left where it is when something goes wrong. */
  ghost predicate SameSent(r: Sent, q: Sent) {
    r.err == q.err && r.s.input == q.s.input && r.s.output == q.s.output && (r.err == None ==> r.s.dir == q.s.dir)
  }

  lemma TimesAreScript(times: bool, s: SourceState, f: Node)
    ensures SendTimes(times, s, f) == RunScript(if times then [Line(TimesMessage(f))] else [], s)
  {
    RunScriptOne(Line(TimesMessage(f)), s);
  }

  lemma FileIsScript(fs: SourceFs, times: bool, s: SourceState, f: Node)
    requires f.File? && ReadFile(fs, SourcePath(s.dir, f.name)) == Some(f.content)
    ensures SendFile(fs, times, s, f) == RunScript(Script(times, f), s)
  {
    var first, rest := if times then [Line(TimesMessage(f))] else [], [Line(FileMessage(f)), Content(f.content)];
    assert Script(times, f) == first + rest;
    TimesAreScript(times, s, f);
    RunScriptConcat(first, rest, s);
    var t := SendTimes(times, s, f);
    assert rest[1..] == [Content(f.content)];
    RunScriptOne(Content(f.content), Send(t.s, Print(FileMessage(f))).s);
  }

  lemma {:induction false} DirectoryIsScript(fs: SourceFs, times: bool, s: SourceState, f: Node)
    requires At(fs, s.dir, f) && Readable(fs, s.dir, f)
    ensures SameSent(SendDirectory(fs, times, s, f), RunScript(Script(times, f), s))
    decreases f, 1
  {
    var first, last := if times then [Line(TimesMessage(f))] else [], [Line(EMsg)];
    var body := ScriptAll(times, f.children);
    assert Script(times, f) == first + ([Line(DirMessage(f))] + (body + last));
    TimesAreScript(times, s, f);
    RunScriptConcat(first, [Line(DirMessage(f))] + (body + last), s);
    var t := SendTimes(times, s, f);
    if t.err.None? {
      RunScriptConcat([Line(DirMessage(f))], body + last, t.s);
      RunScriptOne(Line(DirMessage(f)), t.s);
      var d := Send(t.s, Print(DirMessage(f)));
      if d.err.None? {
        assert f.children[0..] == f.children;
        ChildrenAreScript(fs, times, d.s, f, 0);
        RunScriptConcat(body, last, d.s);
        RunScriptOne(Line(EMsg), RunScript(body, d.s).s);
      }
    }
  }

  lemma {:induction false} ChildrenAreScript(fs: SourceFs, times: bool, s: SourceState, d: Node, i: nat)
    requires At(fs, s.dir, d) && i <= |d.children| && AllReadable(fs, s.dir, d.children)
    ensures SameSent(SendChildren(fs, times, s, d, i), RunScript(ScriptAll(times, d.children[i..]), s))
    decreases d, 0, 1 + |d.children| - i
  {
    hide Script, SendChild, Readable, Lookup, WellFormed, RunScript;
    if i == |d.children| {
      NothingIsScript(s);
    } else {
      var rest := d.children[i..];
      assert rest[0] == d.children[i] && rest[1..] == d.children[i + 1..];
      ChildIsScript(fs, times, s, d, i);
      RunScriptConcat(Script(times, rest[0]), ScriptAll(times, rest[1..]), s);
      var sent := SendChild(fs, times, s, d, i);
      if sent.err.None? {
        ChildrenAreScript(fs, times, sent.s, d, i + 1);
      }
    }
  }

  lemma NothingIsScript(s: SourceState)
    ensures RunScript([], s) == Sent(s, None)
  {
  }

  lemma {:induction false} ChildIsScript(fs: SourceFs, times: bool, s: SourceState, d: Node, i: nat)
    requires At(fs, s.dir, d) && i < |d.children| && AllReadable(fs, s.dir, d.children)
    ensures SameSent(SendChild(fs, times, s, d, i), RunScript(Script(times, d.children[i]), s))
    decreases d, 0, 0
  {
    hide Script, Lookup, WellFormed, RunScript, SendFile, SendDirectory;
    var c := d.children[i];
    assert c in d.children && Readable(fs, PathFor(s.dir, c), c);
    LookupChild(fs.root, s.dir, i);
    JoinPlain(s.dir, c.name);
    if c.Dir? {
      var inner := s.(dir := Join(s.dir, c.name));
      DirectoryIsScript(fs, times, inner, c);
      RunScriptElsewhere(Script(times, c), s, inner.dir);
    } else {
      assert SourcePath(s.dir, c.name) == s.dir + [c.name];
      FileIsScript(fs, times, s, c);
    }
  }

  /** A source whose reads succeed waits for an ack and then runs its tree's script, whatever acks it gets. */
  lemma SourceRunsScript(fs: SourceFs, recursive: bool, times: bool, s: SourceState, n: Node)
    requires WellFormed(fs.root) && fs.root.Dir? && Stat(fs, s.dir) == Some(n)
    requires n.Dir? ==> recursive && Readable(fs, s.dir, n)
    ensures var a := GetAck(s);
            SameSent(SourceRun(fs, recursive, times, s), if a.err.Some? then a else RunScript(Script(times, n), a.s))
  {
    var a := GetAck(s);
    if a.err.None? {
      if n.File? {
        LookupName(fs.root, s.dir);
        FileIsScript(fs, times, a.s, n);
      } else {
        DirectoryIsScript(fs, times, a.s, n);
      }
    }
  }

  function ScriptBytes(cs: seq<Chunk>): bytes {
    if cs == [] then [] else ChunkBytes(cs[0]) + ScriptBytes(cs[1..])
  }

  lemma {:induction false} ScriptBytesConcat(a: seq<Chunk>, b: seq<Chunk>)
    ensures ScriptBytes(a + b) == ScriptBytes(a) + ScriptBytes(b)
    decreases |a|
  {
    if a == [] {
      assert a + b == b;
    } else {
      assert (a + b)[1..] == a[1..] + b;
      ScriptBytesConcat(a[1..], b);
    }
  }

  lemma ScriptBytesOne(c: Chunk)
    ensures ScriptBytes([c]) == ChunkBytes(c)
  {
    assert [c][1..] == [];
  }

  /** The script's bytes are the tree's. */
  lemma {:induction false} ScriptIsStream(times: bool, n: Node)
    ensures ScriptBytes(Script(times, n)) == Stream(times, n)
    decreases n
  {
    var first := if times then [Line(TimesMessage(n))] else [];
    ScriptBytesOne(Line(TimesMessage(n)));
    assert ScriptBytes(first) == Stamp(times, n);
    match n
    case File(_, _, _, _, content) =>
      var c, d := Line(FileMessage(n)), Content(content);
      ScriptBytesOne(c);
      ScriptBytesOne(d);
      ScriptBytesConcat([c], [d]);
      ScriptBytesConcat(first, [c] + [d]);
      assert Script(times, n) == first + ([c] + [d]);
    case Dir(_, _, _, children) =>
      var d, e, body := Line(DirMessage(n)), Line(EMsg), ScriptAll(times, children);
      ScriptsAreStreams(times, children);
      ScriptBytesOne(d);
      ScriptBytesOne(e);
      ScriptBytesConcat(body, [e]);
      ScriptBytesConcat([d], body + [e]);
      ScriptBytesConcat(first, [d] + (body + [e]));
      assert Script(times, n) == first + ([d] + (body + [e]));
  }

  lemma {:induction false} ScriptsAreStreams(times: bool, ns: seq<Node>)
    ensures ScriptBytes(ScriptAll(times, ns)) == StreamAll(times, ns)
    decreases ns
  {
    if ns != [] {
      ScriptIsStream(times, ns[0]);
      ScriptsAreStreams(times, ns[1..]);
      ScriptBytesConcat(Script(times, ns[0]), ScriptAll(times, ns[1..]));
    }
  }

  // ---- the sink ends as if it had had all bytes at once

  /** done, and then the loop if all is well. */
  function Then(done: Done, state: ParserState, depth: int): Done {
    if done.err.Some? then done else SinkLoop(state, depth, done.s)
  }

  /** Where the sink ends, if rest is all it will still read. */
  function Future(snk: SinkProc, mem: SinkState, rest: bytes): Done {
    var s := mem.(input := rest);
    match snk
    case Unstarted(recursive, times) => SinkRun(recursive, times, s)
    case Reading(state, depth) => SinkLoop(state, depth, s)
    case Copying(p, left, state, depth) => Then(CopyContent(s, p, left), state, depth)
    case Closing(state, depth) => Then(FinishC(s), state, depth)
    case SinkDone(err) => Done(s, err)
  }

  /** The same end, whatever is left unread. */
  ghost predicate SameEnd(a: Done, b: Done) {
    a.err == b.err && a.s.(input := []) == b.s.(input := [])
  }

  /** An open file that has not outgrown its room. */
  predicate Writable(d: Disk, p: Path) {
    p in d.nodes && d.nodes[p].FileEntry? && (p in d.room ==> |d.nodes[p].content| <= d.room[p])
  }

  lemma WriteNothing(d: Disk, p: Path)
    requires Writable(d, p)
    ensures Write(d, p, []) == Written(d, true)
  {
    assert d.nodes[p].content + [] == d.nodes[p].content;
    assert d.nodes[p := d.nodes[p]] == d.nodes;
  }

  /** Writing in two parts is writing at once. */
  lemma WriteTwice(d: Disk, p: Path, a: bytes, b: bytes)
    requires Writable(d, p)
    ensures var w := Write(d, p, a);
            && (w.ok ==> Writable(w.disk, p) && Write(d, p, a + b) == Write(w.disk, p, b))
            && (!w.ok ==> Write(d, p, a + b) == w)
  {
    var c, w := d.nodes[p].content, Write(d, p, a);
    assert c + (a + b) == c + a + b;
    if !w.ok {
      assert (c + a + b)[..d.room[p]] == (c + a)[..d.room[p]];
    }
  }

  /** Copying a piece first. */
  lemma CopyPiece(s: SinkState, p: Path, left: nat, k: nat)
    requires Writable(s.disk, p) && k <= left && k <= |s.input|
    ensures var w := Write(s.disk, p, s.input[..k]);
            if w.ok then CopyContent(s, p, left) == CopyContent(s.(disk := w.disk, input := s.input[k..]), p, left - k)
            else SameEnd(CopyContent(s, p, left), Done(s.(disk := w.disk), Some(WriteFailed)))
  {
    hide FinishC, Write, Writable;
    var n := if left < |s.input| then left else |s.input|;
    WriteTwice(s.disk, p, s.input[..k], s.input[k..n]);
    assert s.input[..k] + s.input[k..n] == s.input[..n];
    assert s.input[k..][..n - k] == s.input[k..n] && s.input[k..][n - k..] == s.input[n..];
  }

  /** Where the sink will end depends only on what will have been sent. */
  ghost predicate OnCourse(se: Session, end: bytes -> Done) {
    && (se.snk.Copying? ==> Writable(se.mem.disk, se.snk.p))
    && forall z: bytes :: (se.src.SourceDone? ==> z == []) ==>
         SameEnd(Future(se.snk, se.mem, se.toSink + z), end(se.sent + z))
  }

  /** A step of the sink that leaves its future as it is. */
  lemma SinkStepKeeps(se: Session, se': Session, end: bytes -> Done)
    requires OnCourse(se, end) && se'.src == se.src && se'.sent == se.sent
    requires se'.snk.Copying? ==> Writable(se'.mem.disk, se'.snk.p)
    requires forall z: bytes :: (se.src.SourceDone? ==> z == []) ==>
               SameEnd(Future(se'.snk, se'.mem, se'.toSink + z), Future(se.snk, se.mem, se.toSink + z))
    ensures OnCourse(se', end)
  {
    hide Future;
    forall z: bytes | se.src.SourceDone? ==> z == []
      ensures SameEnd(Future(se'.snk, se'.mem, se'.toSink + z), end(se'.sent + z))
    {
    }
  }

  /** A step that sends b. */
  lemma SendKeeps(se: Session, se': Session, b: bytes, end: bytes -> Done)
    requires OnCourse(se, end) && !se.src.SourceDone?
    requires se'.snk == se.snk && se'.mem == se.mem && se'.toSink == se.toSink + b && se'.sent == se.sent + b
    ensures OnCourse(se', end)
  {
    hide Future, SameEnd;
    forall z: bytes | se'.src.SourceDone? ==> z == []
      ensures SameEnd(Future(se'.snk, se'.mem, se'.toSink + z), end(se'.sent + z))
    {
      assert se.toSink + (b + z) == se'.toSink + z && se.sent + (b + z) == se'.sent + z;
    }
  }

  lemma SourceStepKeeps(se: Session, step: Step, end: bytes -> Done)
    requires OnCourse(se, end) && BySource(step) && Do(se, step).Some?
    ensures OnCourse(Do(se, step).value, end)
  {
    hide Future, GetAck;
    var se' := Do(se, step).value;
    var b := se'.sent[|se.sent|..];
    assert se'.sent == se.sent + b && se'.toSink == se.toSink + b;
    SendKeeps(se, se', b, end);
  }

  lemma LinePrefix(b: bytes, z: bytes)
    requires NEWLINE in b
    ensures LineLength(b + z) == LineLength(b) > 0
    ensures (b + z)[..LineLength(b)] == b[..LineLength(b)] && (b + z)[LineLength(b)..] == b[LineLength(b)..] + z
  {
    hide LineLength;
    var n := LineLength(b);
    CutAppend(b, z, n);
    assert b[..n][..n - 1] == b[..n - 1] && b[..n][n - 1] == b[n - 1];
    LineLengthOf(b[..n], b[n..] + z);
  }

  lemma CutAppend(b: bytes, z: bytes, n: nat)
    requires n <= |b|
    ensures (b + z)[..n] == b[..n] && (b + z)[n..] == b[n..] + z && b[..n] + (b[n..] + z) == b + z
  {
  }

  /** A line leaves the sink's future as it is. */
  lemma LineKeepsFuture(se: Session, z: bytes)
    requires DoSinkLine(se).Some?
    ensures var se' := DoSinkLine(se).value;
            && (se'.snk.Copying? ==> Writable(se'.mem.disk, se'.snk.p))
            && SameEnd(Future(se'.snk, se'.mem, se'.toSink + z), Future(se.snk, se.mem, se.toSink + z))
  {
    hide Parse, LineLength, Process, CopyContent, SinkLoop, StateStep, OpenFile, TargetPath;
    LinePrefix(se.toSink, z);
    var n := LineLength(se.toSink);
    var m := Parse(se.toSink[..n]);
    if m.Ok? && !m.m.CMsg? {
      ProcessIgnoresInput(se.mem, m.m, se.toSink[n..] + z);
    }
    SinkLoopOnce(se.snk.state, se.snk.depth, se.mem.(input := se.toSink + z), n);
    if m.Ok? && m.m.CMsg? {
      OpensAsProcess(se.mem.(input := se.toSink[n..] + z), m.m);
    }
  }

  /** What the loop does with a line, and then. */
  function AfterLine(state: ParserState, depth: int, s: SinkState, line: ParseResult): Done {
    match line
    case Err(e) => Done(s, Some(BadLine(e)))
    case Ok(m) => AfterMessage(state, s, m, StateStep(state, depth, m))
  }

  function AfterMessage(state: ParserState, s: SinkState, m: Message, move: Option<Move>): Done {
    match move
    case None => Done(s, Some(UnexpectedMessage(state)))
    case Some(move) => Then(Process(s, m), move.state, move.depth)
  }

  /** One turn of the loop, on an input whose first line has n bytes. */
  lemma SinkLoopOnce(state: ParserState, depth: int, s: SinkState, n: nat)
    requires n == LineLength(s.input) > 0
    ensures SinkLoop(state, depth, s) == AfterLine(state, depth, s.(input := s.input[n..]), Parse(s.input[..n]))
  {
  }

  /** Messages other than C leave the input alone. */
  lemma ProcessIgnoresInput(s: SinkState, m: Message, input: bytes)
    requires !m.CMsg?
    ensures var a, b := Process(s, m), Process(s.(input := input), m);
            b.err == a.err && b.s == a.s.(input := input)
  {
  }

  lemma OpensAsProcess(s: SinkState, m: Message)
    requires m.CMsg?
    ensures var p := TargetPath(s.dir, m.name);
            var d := OpenFile(s.disk, p, m.mode);
            if d.None? then Process(s, m) == Done(s, Some(OpenFailed))
            else Writable(d.value, p) && Process(s, m) == CopyContent(Ack(s.(disk := d.value)), p, CopyLimit(m.length))
  {
  }

  lemma CopyKeepsFuture(se: Session, k: nat, z: bytes)
    requires DoSinkCopy(se, k).Some? && Writable(se.mem.disk, se.snk.p)
    ensures var se' := DoSinkCopy(se, k).value;
            && (se'.snk.Copying? ==> Writable(se'.mem.disk, se'.snk.p))
            && SameEnd(Future(se'.snk, se'.mem, se'.toSink + z), Future(se.snk, se.mem, se.toSink + z))
  {
    hide CopyContent, Write, Writable;
    var s := se.mem.(input := se.toSink + z);
    assert s.input[..k] == se.toSink[..k] && s.input[k..] == se.toSink[k..] + z;
    CopyPiece(s, se.snk.p, se.snk.left, k);
    WriteTwice(se.mem.disk, se.snk.p, se.toSink[..k], []);
  }

  lemma CopiedKeepsFuture(se: Session, z: bytes)
    requires Do(se, SinkCopied).Some? && Writable(se.mem.disk, se.snk.p) && (se.src.SourceDone? ==> z == [])
    ensures var se' := Do(se, SinkCopied).value;
            SameEnd(Future(se'.snk, se'.mem, se'.toSink + z), Future(se.snk, se.mem, se.toSink + z))
  {
    hide SinkLoop;
    var s := se.mem.(input := se.toSink + z);
    WriteNothing(s.disk, se.snk.p);
    assert s.input[..0] == [] && s.input[0..] == s.input;
    assert CopyContent(s, se.snk.p, se.snk.left) == FinishC(SetPendingTimes(s, se.snk.p));
  }

  lemma ZeroKeepsFuture(se: Session, z: bytes)
    requires DoSinkZero(se).Some?
    ensures var se' := DoSinkZero(se).value;
            SameEnd(Future(se'.snk, se'.mem, se'.toSink + z), Future(se.snk, se.mem, se.toSink + z))
  {
    hide SinkLoop;
    assert (se.toSink + z)[1..] == se.toSink[1..] + z;
  }

  lemma SinkEofKeepsFuture(se: Session)
    requires Do(se, SinkEof).Some?
    ensures var se' := Do(se, SinkEof).value;
            SameEnd(Future(se'.snk, se'.mem, se'.toSink + []), Future(se.snk, se.mem, se.toSink + []))
  {
    hide SinkLoop;
    assert se.toSink + [] == se.toSink;
    if se.snk.Reading? {
      LineMissing(se.snk.state, se.snk.depth, se.mem.(input := se.toSink));
    }
  }

  lemma SinkStepsKeepFuture(se: Session, step: Step, z: bytes)
    requires !BySource(step) && Do(se, step).Some?
    requires (se.snk.Copying? ==> Writable(se.mem.disk, se.snk.p)) && (se.src.SourceDone? ==> z == [])
    ensures var se' := Do(se, step).value;
            && (se'.snk.Copying? ==> Writable(se'.mem.disk, se'.snk.p))
            && SameEnd(Future(se'.snk, se'.mem, se'.toSink + z), Future(se.snk, se.mem, se.toSink + z))
  {
    hide SinkLoop, SameEnd, Write, Writable, Parse, CopyContent, FinishC;
    match step
    case SinkStart => SameEndItself(Future(se.snk, se.mem, se.toSink + z));
    case SinkLine => LineKeepsFuture(se, z);
    case SinkCopy(k) => CopyKeepsFuture(se, k, z);
    case SinkCopied => CopiedKeepsFuture(se, z);
    case SinkZero => ZeroKeepsFuture(se, z);
    case SinkEof => SinkEofKeepsFuture(se);
  }

  lemma SameEndItself(d: Done)
    ensures SameEnd(d, d)
  {
  }

  lemma StepKeepsCourse(se: Session, step: Step, end: bytes -> Done)
    requires OnCourse(se, end) && Do(se, step).Some?
    ensures OnCourse(Do(se, step).value, end)
  {
    if BySource(step) {
      SourceStepKeeps(se, step, end);
    } else {
      var se' := Do(se, step).value;
      SinkStepsKeepFuture(se, step, []);
      SinkStepsSendNothing(se, step);
      hide Do, Future, SameEnd, Writable;
      forall z: bytes | se.src.SourceDone? ==> z == []
        ensures SameEnd(Future(se'.snk, se'.mem, se'.toSink + z), Future(se.snk, se.mem, se.toSink + z))
      {
        SinkStepsKeepFuture(se, step, z);
      }
      SinkStepKeeps(se, se', end);
    }
  }

  lemma SinkStepsSendNothing(se: Session, step: Step)
    requires !BySource(step) && Do(se, step).Some?
    ensures Do(se, step).value.src == se.src && Do(se, step).value.sent == se.sent
            && Do(se, step).value.written == se.written
  {
    hide Parse, Process, Write;
  }

  /** The sink's end, as a function of all bytes it gets. */
  function EndOf(recursive: bool, times: bool, mem: SinkState): bytes -> Done {
    (b: bytes) => SinkRun(recursive, times, mem.(input := b))
  }

  lemma {:induction false} AlwaysOnCourse(script: seq<Chunk>, recursive: bool, times: bool, mem: SinkState,
                                          steps: seq<Step>)
    requires Play(Begin(script, recursive, times, mem), steps).Some?
    ensures OnCourse(Play(Begin(script, recursive, times, mem), steps).value, EndOf(recursive, times, mem))
    decreases |steps|
  {
    hide Do, Future, SinkRun;
    var se0 := Begin(script, recursive, times, mem);
    if steps == [] {
      BeginsOnCourse(script, recursive, times, mem);
    } else {
      AlwaysOnCourse(script, recursive, times, mem, steps[..|steps| - 1]);
      StepKeepsCourse(Play(se0, steps[..|steps| - 1]).value, steps[|steps| - 1], EndOf(recursive, times, mem));
    }
  }

  lemma BeginsOnCourse(script: seq<Chunk>, recursive: bool, times: bool, mem: SinkState)
    ensures OnCourse(Begin(script, recursive, times, mem), EndOf(recursive, times, mem))
  {
    hide SinkRun;
  }

  /** A session's sink ends just as the loop of the sink ends on all bytes that were sent, in one piece. */
  lemma SessionIsRun(script: seq<Chunk>, recursive: bool, times: bool, mem: SinkState, steps: seq<Step>, se: Session)
    requires Play(Begin(script, recursive, times, mem), steps) == Some(se) && Over(se)
    ensures SameEnd(Done(se.mem, se.snk.err), SinkRun(recursive, times, mem.(input := se.sent)))
  {
    AlwaysOnCourse(script, recursive, times, mem, steps);
    hide SinkRun;
    var end := EndOf(recursive, times, mem);
    assert SameEnd(Future(se.snk, se.mem, se.toSink + []), end(se.sent + []));
    assert se.sent + [] == se.sent;
  }

  // ---- what was sent

  /** What is written and what is still to be written make up the script. */
  predicate Underway(se: Session, script: seq<Chunk>) {
    match se.src
    case Waiting(rest) => se.written + ScriptBytes(rest) == ScriptBytes(script) && se.sent == se.written
    case Writing(left, rest) => se.written + (left + ScriptBytes(rest)) == ScriptBytes(script) && se.sent == se.written
    case SourceDone(None) => se.written == ScriptBytes(script) && se.sent == se.written
    case SourceDone(Some(_)) => se.written <= ScriptBytes(script)
  }

  lemma StepKeepsUnderway(se: Session, script: seq<Chunk>, step: Step)
    requires Underway(se, script) && Do(se, step).Some?
    ensures Underway(Do(se, step).value, script)
  {
    hide Do;
    match step
    case SourceWrite(k) => WriteKeepsUnderway(se, script, k);
    case SourceRead => ReadKeepsUnderway(se, script);
    case SourceEof => EofKeepsUnderway(se, script);
    case SourceFails => FailureKeepsUnderway(se, script);
    case _ => SinkStepsSendNothing(se, step);
  }

  lemma WriteKeepsUnderway(se: Session, script: seq<Chunk>, k: nat)
    requires Underway(se, script) && Do(se, SourceWrite(k)).Some?
    ensures Underway(Do(se, SourceWrite(k)).value, script)
  {
    hide ScriptBytes;
    var left, rest := se.src.left, ScriptBytes(se.src.rest);
    assert left == left[..k] + left[k..];
    assert se.written + (left + rest) == se.written + left[..k] + (left[k..] + rest);
    assert left[k..] == [] ==> left[k..] + rest == rest;
  }

  lemma ReadKeepsUnderway(se: Session, script: seq<Chunk>)
    requires Underway(se, script) && Do(se, SourceRead).Some?
    ensures Underway(Do(se, SourceRead).value, script)
  {
    hide GetAck, ChunkBytes;
    assert se.written + [] == se.written;
    assert se.src.rest != [] ==> ScriptBytes(se.src.rest) == ChunkBytes(se.src.rest[0]) + ScriptBytes(se.src.rest[1..]);
  }

  lemma EofKeepsUnderway(se: Session, script: seq<Chunk>)
    requires Underway(se, script) && Do(se, SourceEof).Some?
    ensures Underway(Do(se, SourceEof).value, script)
  {
    hide ScriptBytes;
  }

  lemma FailureKeepsUnderway(se: Session, script: seq<Chunk>)
    requires Underway(se, script) && Do(se, SourceFails).Some?
    ensures Underway(Do(se, SourceFails).value, script)
  {
    hide ScriptBytes, GetAck;
  }

  /** The source has failed to read. */
  predicate Broke(se: Session) {
    se.src.SourceDone? && se.src.err.Some? && se.src.err.value.LocalFailure?
  }

  /** A source has failed to read exactly if it took that step. */
  lemma {:induction false} BrokeExactlyIf(script: seq<Chunk>, se0: Session, steps: seq<Step>)
    requires se0.snk.Unstarted? && se0 == Begin(script, se0.snk.recursive, se0.snk.times, se0.mem)
    requires Play(se0, steps).Some?
    ensures Broke(Play(se0, steps).value) <==> SourceFails in steps
    decreases |steps|
  {
    hide Do;
    if steps != [] {
      var init, step := steps[..|steps| - 1], steps[|steps| - 1];
      BrokeExactlyIf(script, se0, init);
      BreaksExactlyBy(Play(se0, init).value, step);
      assert steps == init + [step];
    }
  }

  lemma BreaksExactlyBy(se: Session, step: Step)
    requires Do(se, step).Some?
    ensures Broke(Do(se, step).value) <==> Broke(se) || step == SourceFails
  {
    if !BySource(step) {
      SinkStepsSendNothing(se, step);
    }
  }

  predicate SourceSucceeded(se: Session) {
    se.src.SourceDone? && se.src.err.None?
  }

  /** Once the sink has failed, and the source is not done before it, no more bytes could have helped it. */
  ghost predicate FailedForGood(se: Session, end: bytes -> Done) {
    !Broke(se) && !SourceSucceeded(se) && se.snk.SinkDone? && se.snk.err.Some? ==>
      forall z: bytes :: end(se.written + z).err.Some? && end(se.written + z).s.output == se.mem.output
  }

  lemma StepKeepsFailure(se: Session, script: seq<Chunk>, total: nat, first: Misfit, step: Step, end: bytes -> Done)
    requires OnCourse(se, end) && Underway(se, script) && FailedForGood(se, end)
    requires Lockstep(se, total, first)
    requires Do(se, step).Some?
    requires OnCourse(Do(se, step).value, end) && Underway(Do(se, step).value, script)
    ensures FailedForGood(Do(se, step).value, end)
  {
    hide Do, Future, Lockstep, SameEnd, Writable, Underway;
    var se' := Do(se, step).value;
    BreaksExactlyBy(se, step);
    if !Broke(se') && !SourceSucceeded(se') && se'.snk.SinkDone? && se'.snk.err.Some? {
      if BySource(step) {
        SourceWritesOn(se, step);
        var b := se'.written[|se.written|..];
        forall z: bytes | true
          ensures end(se'.written + z).err.Some? && end(se'.written + z).s.output == se'.mem.output
        {
          assert se'.written + z == se.written + (b + z);
        }
      } else {
        SinkStepsSendNothing(se, step);
        FailsWhileSourceRuns(se, total, first, step);
        SentIsWritten(se, script);
        FailureIsFinal(se', end);
      }
    }
  }

  lemma SentIsWritten(se: Session, script: seq<Chunk>)
    requires Underway(se, script) && !se.src.SourceDone?
    ensures se.sent == se.written
  {
  }

  /** A sink that has failed while the source still runs fails whatever comes. */
  lemma FailureIsFinal(se: Session, end: bytes -> Done)
    requires OnCourse(se, end) && !se.src.SourceDone? && se.snk.SinkDone? && se.snk.err.Some? && se.sent == se.written
    ensures forall z: bytes :: end(se.written + z).err.Some? && end(se.written + z).s.output == se.mem.output
  {
    forall z: bytes | true
      ensures end(se.written + z).err.Some? && end(se.written + z).s.output == se.mem.output
    {
      assert SameEnd(Future(se.snk, se.mem, se.toSink + z), end(se.sent + z));
    }
  }

  lemma SourceWritesOn(se: Session, step: Step)
    requires BySource(step) && Do(se, step).Some?
    ensures se.written <= Do(se, step).value.written
    ensures Do(se, step).value.snk == se.snk && Do(se, step).value.mem == se.mem && !se.src.SourceDone?
  {
  }

  /** When the source has failed, the sink does not fail any more, unless the source could not read. */
  lemma FailsWhileSourceRuns(se: Session, total: nat, first: Misfit, step: Step)
    requires Lockstep(se, total, first) && !Broke(se) && !SourceSucceeded(se)
    requires Do(se, step).Some? && !BySource(step)
    ensures !se.src.SourceDone?
  {
    hide Do;
    SinkStepsNeedSink(se, step);
  }

  lemma SinkStepsNeedSink(se: Session, step: Step)
    requires Do(se, step).Some? && !BySource(step)
    ensures !se.snk.SinkDone?
  {
    hide Parse, Process, Write;
  }

  ghost predicate AllKept(se: Session, script: seq<Chunk>, end: bytes -> Done) {
    Underway(se, script) && FailedForGood(se, end)
  }

  lemma {:induction false} AlwaysKept(script: seq<Chunk>, recursive: bool, times: bool, mem: SinkState,
                                      steps: seq<Step>, first: Misfit)
    requires Good(script, first) && mem.output == []
    requires Play(Begin(script, recursive, times, mem), steps).Some?
    ensures AllKept(Play(Begin(script, recursive, times, mem), steps).value, script, EndOf(recursive, times, mem))
    decreases |steps|
  {
    hide Do, OnCourse, Lockstep, SinkRun, Good;
    var se0 := Begin(script, recursive, times, mem);
    if steps == [] {
      assert [] + ScriptBytes(script) == ScriptBytes(script);
    } else {
      var init, step := steps[..|steps| - 1], steps[|steps| - 1];
      var se, end := Play(se0, init).value, EndOf(recursive, times, mem);
      AlwaysKept(script, recursive, times, mem, init, first);
      AlwaysOnCourse(script, recursive, times, mem, init);
      AlwaysOnCourse(script, recursive, times, mem, steps);
      AlwaysLockstep(script, se0, init, first);
      StepKeepsUnderway(se, script, step);
      StepKeepsFailure(se, script, |script|, first, step, end);
    }
  }

  /** A tree that travels has files as long as announced. */
  lemma {:induction false} TravelsFits(times: bool, n: Node)
    requires Travels(times, n)
    ensures OneLineNames(n) && FirstMisfit(n) == AllFit
    decreases n
  {
    if n.Dir? {
      AllTravelFit(times, n.children);
    }
  }

  lemma {:induction false} AllTravelFit(times: bool, ns: seq<Node>)
    requires forall c :: c in ns ==> Travels(times, c)
    ensures (forall c :: c in ns ==> OneLineNames(c)) && FirstMisfitOf(ns) == AllFit
    decreases ns
  {
    if ns != [] {
      TravelsFits(times, ns[0]);
      AllTravelFit(times, ns[1..]);
      assert ns == [ns[0]] + ns[1..];
    }
  }

  /**
   The transfer of a tree between two processes, under every schedule: when both are done, either the source could
   not read something, and then both have failed, or both have succeeded, the sink's disk has gained exactly the
   tree, its directory is where it was, and it has sent the acks of the tree.
   */
  lemma SessionTransfersTree(n: Node, recursive: bool, times: bool, base: Path, disk: Disk, steps: seq<Step>,
                             se: Session)
    requires WellFormed(n) && Travels(times, n) && HasPlace(disk, base, n) && if n.Dir? then recursive else base != []
    requires var mem := SinkState(base, false, 0, 0, [], [], disk);
             Play(Begin(Script(times, n), recursive, times, mem), steps) == Some(se)
    requires Over(se)
    ensures se.src.err == None <==> SourceFails !in steps
    ensures se.snk.err == None <==> SourceFails !in steps
    ensures SourceFails !in steps ==>
              && se.sent == Stream(times, n) && se.toSink == [] && se.toSource == []
              && se.mem.dir == base && !se.mem.timeSet && se.mem.output == Zeros(1 + Acks(times, n))
              && se.mem.disk == disk.(nodes := disk.nodes + Image(times, base, n))
              && Copied(times, base, n, disk.nodes, se.mem.disk.nodes)
  {
    hide SinkRun, Do, Lockstep, Receive, Image, Stream, WellFormed, Good, OnCourse, Copied;
    ImageIsCopied(times, base, n, disk.nodes);
    var mem, script := SinkState(base, false, 0, 0, [], [], disk), Script(times, n);
    TravelsFits(times, n);
    TreeScriptIsGood(times, n);
    AlwaysLockstep(script, Begin(script, recursive, times, mem), steps, AllFit);
    EndsAgree(se, |script|, AllFit);
    BrokeExactlyIf(script, Begin(script, recursive, times, mem), steps);
    if SourceFails !in steps {
      TreeArrives(n, recursive, times, mem, steps, se);
    }
  }

  lemma TreeArrives(n: Node, recursive: bool, times: bool, mem: SinkState, steps: seq<Step>, se: Session)
    requires WellFormed(n) && Travels(times, n) && HasPlace(mem.disk, mem.dir, n)
    requires if n.Dir? then recursive else mem.dir != []
    requires mem == SinkState(mem.dir, false, 0, 0, [], [], mem.disk) && Good(Script(times, n), AllFit)
    requires Play(Begin(Script(times, n), recursive, times, mem), steps) == Some(se)
    requires Over(se) && !Broke(se) && (se.src.err == None <==> se.snk.err == None)
    requires se.src.err == None ==> se.toSink == [] && se.toSource == []
    ensures se.src.err == None && se.snk.err == None
    ensures se.sent == Stream(times, n) && se.toSink == [] && se.toSource == []
    ensures se.mem.dir == mem.dir && !se.mem.timeSet && se.mem.output == Zeros(1 + Acks(times, n))
    ensures se.mem.disk == mem.disk.(nodes := mem.disk.nodes + Image(times, mem.dir, n))
  {
    hide SinkRun, Do, Lockstep, Receive, Image, Stream, HasPlace, WellFormed, Good, OnCourse;
    var script := Script(times, n);
    ScriptIsStream(times, n);
    AlwaysKept(script, recursive, times, mem, steps, AllFit);
    SessionIsRun(script, recursive, times, mem, steps, se);
    var full := mem.(input := Stream(times, n));
    SinkTakesTree(recursive, times, n, full);
    NoFailure(se, script, EndOf(recursive, times, mem));
    Received(times, n, Ack(full));
    ZerosAdd(1, Acks(times, n));
    assert [] + [0] == Zeros(1);
  }

  /** A sink that would succeed on the whole script has not failed on a part of it. */
  lemma NoFailure(se: Session, script: seq<Chunk>, end: bytes -> Done)
    requires AllKept(se, script, end) && Over(se) && !Broke(se) && end(ScriptBytes(script)).err == None
    requires se.src.err == None <==> se.snk.err == None
    ensures se.src.err == None && se.snk.err == None
  {
    assert se.written <= ScriptBytes(script);
    var z := ScriptBytes(script)[|se.written|..];
    assert se.written + z == ScriptBytes(script);
    assert se.snk.err.Some? ==> end(se.written + z).err.Some?;
  }
}
