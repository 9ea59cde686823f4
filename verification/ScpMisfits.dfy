/**
 Sessions over files whose lengths are not the ones that stat reports, and that the source announces. A file that
 is shorter leaves both processes waiting for each other. One that is longer makes both fail, unless it has a zero
 byte where its end was announced: then the source succeeds, and the sink takes the rest for messages.
 */
module ScpMisfits {
  import opened Options
  import opened ScpUtf8
  import opened ScpMessages
  import opened ScpPaths
  import opened ScpDisk
  import opened ScpSink
  import opened ScpSource
  import opened ScpSend
  import opened ScpReceive
  import opened ScpTransfer
  import opened ScpSession
  import opened ScpLockstep
  import opened ScpSessionResults

  // ---- getting stuck

  /** Some process is not done, and none can take a step. */
  ghost predicate Stuck(se: Session) {
    !Over(se) && forall step :: Do(se, step).None?
  }

  /** Where the source may fail to read, it may also go on. */
  lemma NotOnlyFailure(se: Session)
    requires Do(se, SourceFails).Some?
    ensures Do(se, if se.src.Writing? then SourceWrite(1) else SourceRead).Some?
  {
    hide GetAck;
  }

  /** While no read fails, every session in lockstep can be taken to its end, or to a halt. */
  lemma {:induction false} GoesOn(se: Session, total: nat, first: Misfit) returns (more: seq<Step>, end: Session)
    requires Lockstep(se, total, first)
    ensures SourceFails !in more && PlayFrom(se, more) == Some(end) && (Over(end) || Stuck(end))
    decreases StepsLeft(se)
  {
    hide Lockstep, Do, StepsLeft;
    if Over(se) || Stuck(se) {
      more, end := [], se;
    } else {
      var step :| Do(se, step).Some?;
      if step == SourceFails {
        NotOnlyFailure(se);
        step := if se.src.Writing? then SourceWrite(1) else SourceRead;
      }
      var se' := Do(se, step).value;
      StepKeeps(se, total, first, step);
      StepsGetFewer(se, total, first, step);
      var rest;
      rest, end := GoesOn(se', total, first);
      more := [step] + rest;
      assert more[1..] == rest;
    }
  }

  /** A schedule, from its first step on. */
  function PlayFrom(se: Session, steps: seq<Step>): Option<Session>
    decreases |steps|
  {
    if steps == [] then Some(se)
    else
      match Do(se, steps[0])
      case None => None
      case Some(se') => PlayFrom(se', steps[1..])
  }

  lemma {:induction false} PlayOn(se: Session, first: seq<Step>, more: seq<Step>)
    requires Play(se, first).Some? && PlayFrom(Play(se, first).value, more).Some?
    ensures Play(se, first + more) == PlayFrom(Play(se, first).value, more)
    decreases |more|
  {
    hide Do;
    if more == [] {
      assert first + more == first;
    } else {
      var next := first + [more[0]];
      assert next[..|next| - 1] == first && next[|next| - 1] == more[0];
      assert first + more == next + more[1..];
      PlayOn(se, next, more[1..]);
    }
  }

  // ---- the tree that was announced

  /** As much of a content as was announced, with zero bytes for what is missing. */
  function Resized(limit: nat, content: bytes): (b: bytes)
    ensures |b| == limit
  {
    if |content| < limit then content + Zeros(limit - |content|) else content[..limit]
  }

  /** The tree in which all files are as long as announced. */
  function Announcement(n: Node): (a: Node)
    ensures a.name == n.name && a.mode == n.mode && a.times == n.times && (a.File? <==> n.File?)
    ensures n.File? ==> a.size == n.size
    decreases n
  {
    match n
    case File(_, _, _, size, content) => n.(content := Resized(CopyLimit(AsLength(size)), content))
    case Dir(_, _, _, children) => n.(children := Announcements(children))
  }

  function Announcements(ns: seq<Node>): (a: seq<Node>)
    ensures |a| == |ns| && forall i :: 0 <= i < |ns| ==> a[i] == Announcement(ns[i])
    decreases ns
  {
    if ns == [] then [] else [Announcement(ns[0])] + Announcements(ns[1..])
  }

  /** All messages can be read back. */
  predicate Legible(times: bool, n: Node)
    decreases n
  {
    Announced(times, n) && (n.Dir? ==> forall c :: c in n.children ==> Legible(times, c))
  }

  lemma {:induction false} AnnouncementTravels(times: bool, n: Node)
    requires Legible(times, n) && WellFormed(n)
    ensures Travels(times, Announcement(n)) && WellFormed(Announcement(n)) && OneLineNames(n)
    decreases n
  {
    if n.Dir? {
      var a := Announcement(n);
      forall i | 0 <= i < |n.children|
        ensures Travels(times, a.children[i]) && WellFormed(a.children[i]) && OneLineNames(n.children[i])
      {
        AnnouncementTravels(times, n.children[i]);
      }
    }
  }

  lemma {:induction false} FittingIsAnnounced(n: Node)
    requires FirstMisfit(n) == AllFit
    ensures Announcement(n) == n
    decreases n
  {
    if n.Dir? {
      AllFittingAreAnnounced(n.children);
    } else {
      assert n.content[..|n.content|] == n.content;
    }
  }

  lemma {:induction false} AllFittingAreAnnounced(ns: seq<Node>)
    requires FirstMisfitOf(ns) == AllFit
    ensures Announcements(ns) == ns
    decreases ns
  {
    if ns != [] {
      FittingIsAnnounced(ns[0]);
      AllFittingAreAnnounced(ns[1..]);
    }
  }

  // ---- shorter files: the session follows that of the announced tree, and never gets ahead of it

  /** Up to a chunk of which r has only a part, both scripts are the same. */
  predicate Partial(r: seq<Chunk>, full: seq<Chunk>)
    decreases |r|
  {
    && r != [] && full != []
    && if r[0] == full[0] then Partial(r[1..], full[1..]) else ChunkBytes(r[0]) < ChunkBytes(full[0])
  }

  lemma PartialCons(c: Chunk, r: seq<Chunk>, full: seq<Chunk>)
    requires Partial(r, full)
    ensures Partial([c] + r, [c] + full)
  {
    hide ChunkBytes;
    assert ([c] + r)[1..] == r && ([c] + full)[1..] == full;
  }

  lemma {:induction false} PartialAfter(first: seq<Chunk>, r: seq<Chunk>, full: seq<Chunk>)
    requires Partial(r, full)
    ensures Partial(first + r, first + full)
    decreases |first|
  {
    hide Partial;
    if first == [] {
      assert first + r == r && first + full == full;
    } else {
      PartialAfter(first[1..], r, full);
      PartialCons(first[0], first[1..] + r, first[1..] + full);
      assert first + r == [first[0]] + (first[1..] + r) && first + full == [first[0]] + (first[1..] + full);
    }
  }

  lemma ContentIsPartial(limit: nat, content: bytes)
    requires |content| < limit
    ensures ChunkBytes(Content(content)) < ChunkBytes(Content(Resized(limit, content)))
  {
    var a, b := content + [0], Resized(limit, content) + [0];
    assert b[..|a|] == a;
  }

  lemma {:induction false} ScriptIsPartial(times: bool, n: Node, tail: seq<Chunk>, tail': seq<Chunk>)
    requires FirstMisfit(n) == Shorter
    ensures Partial(Script(times, n) + tail, Script(times, Announcement(n)) + tail')
    decreases n
  {
    hide Partial;
    var a := Announcement(n);
    var body, body' := Body(times, n, tail), Body(times, a, tail');
    if n.File? {
      ContentIsPartial(CopyLimit(AsLength(n.size)), n.content);
      PartialContent(n.content, a.content, tail, tail');
      PartialAfter([Line(FileMessage(n))], [Content(n.content)] + tail, [Content(a.content)] + tail');
    } else {
      var end, end' := [Line(EMsg)] + tail, [Line(EMsg)] + tail';
      ScriptsArePartial(times, n.children, end, end');
      PartialAfter([Line(DirMessage(n))], ScriptAll(times, n.children) + end, ScriptAll(times, a.children) + end');
    }
    ScriptSplit(times, n, tail);
    ScriptSplit(times, a, tail');
    if times {
      PartialAfter([Line(TimesMessage(n))], body, body');
    }
  }

  lemma PartialContent(b: bytes, b': bytes, tail: seq<Chunk>, tail': seq<Chunk>)
    requires ChunkBytes(Content(b)) < ChunkBytes(Content(b'))
    ensures Partial([Content(b)] + tail, [Content(b')] + tail')
  {
  }

  lemma {:induction false} ScriptsArePartial(times: bool, ns: seq<Node>, tail: seq<Chunk>, tail': seq<Chunk>)
    requires FirstMisfitOf(ns) == Shorter
    ensures Partial(ScriptAll(times, ns) + tail, ScriptAll(times, Announcements(ns)) + tail')
    decreases ns
  {
    hide Partial;
    var all := Announcements(ns);
    assert all[1..] == Announcements(ns[1..]);
    var rest, rest' := ScriptAll(times, ns[1..]) + tail, ScriptAll(times, all[1..]) + tail';
    assert ScriptAll(times, ns) + tail == Script(times, ns[0]) + rest;
    assert ScriptAll(times, all) + tail' == Script(times, all[0]) + rest';
    if FirstMisfit(ns[0]) == AllFit {
      FittingIsAnnounced(ns[0]);
      ScriptsArePartial(times, ns[1..], tail, tail');
      PartialAfter(Script(times, ns[0]), rest, rest');
    } else {
      ScriptIsPartial(times, ns[0], rest, rest');
    }
  }

  /** The session t over the announced tree is where se is, but it may have more to write of its chunk. */
  ghost predicate Follows(se: Session, t: Session) {
    && se.snk == t.snk && se.mem == t.mem && se.toSink == t.toSink && se.toSource == t.toSource
    && match se.src
       case Waiting(rest) => t.src.Writing? || (t.src.Waiting? && Partial(rest, t.src.rest))
       case Writing(left, rest) =>
         t.src.Writing? && if left == t.src.left then Partial(rest, t.src.rest) else left < t.src.left
       case SourceDone(_) => false
  }

  /** The same step can be taken in both sessions, as long as the sink does not fail. */
  lemma StepFollows(se: Session, t: Session, total: nat, step: Step)
    requires Follows(se, t) && Lockstep(t, total, AllFit) && !t.snk.SinkDone?
    requires step != SourceFails && Do(se, step).Some?
    ensures Do(t, step).Some? && Follows(Do(se, step).value, Do(t, step).value)
  {
    hide Do, Lockstep, Partial, ChunkBytes;
    match step
    case SourceWrite(k) => WriteFollows(se, t, k);
    case SourceRead => ReadFollows(se, t, total);
    case SourceEof => EofNeedsSinkDone(se);
    case _ => SinkStepFollows(se, t, step);
  }

  lemma EofNeedsSinkDone(se: Session)
    ensures Do(se, SourceEof).Some? ==> se.snk.SinkDone?
  {
  }

  lemma WriteFollows(se: Session, t: Session, k: nat)
    requires Follows(se, t) && Do(se, SourceWrite(k)).Some?
    ensures Do(t, SourceWrite(k)).Some? && Follows(Do(se, SourceWrite(k)).value, Do(t, SourceWrite(k)).value)
  {
    hide Partial;
    var left, left' := se.src.left, t.src.left;
    assert left'[..k] == left[..k];
    assert left != left' ==> left'[k..][..|left| - k] == left[k..];
  }

  lemma ReadFollows(se: Session, t: Session, total: nat)
    requires Follows(se, t) && Lockstep(t, total, AllFit) && !t.snk.SinkDone? && Do(se, SourceRead).Some?
    ensures Do(t, SourceRead).Some? && Follows(Do(se, SourceRead).value, Do(t, SourceRead).value)
  {
    hide ChunkBytes, Good, Contents, Coming;
    assert t.src.Waiting?;
    assert [0][1..] == [];
    assert AckPending(t, total, t.src.rest, AllFit);
  }

  lemma SinkStepFollows(se: Session, t: Session, step: Step)
    requires Follows(se, t) && !BySource(step) && Do(se, step).Some?
    ensures Do(t, step).Some? && Follows(Do(se, step).value, Do(t, step).value)
  {
    hide Partial, ChunkBytes, DoSinkLine, DoSinkCopy, DoSinkZero;
    match step
    case SinkLine => SinkLineFollows(se, t);
    case SinkCopy(k) => SinkCopyFollows(se, t, k);
    case SinkZero => SinkZeroFollows(se, t);
    case _ =>
  }

  lemma SinkLineFollows(se: Session, t: Session)
    requires Follows(se, t) && DoSinkLine(se).Some?
    ensures DoSinkLine(t).Some? && Follows(DoSinkLine(se).value, DoSinkLine(t).value)
  {
    hide Partial, ChunkBytes, Parse, Process, StateStep, OpenFile, SinkOpens, SinkHandles;
    var n := LineLength(se.toSink);
    var m := Parse(se.toSink[..n]);
    if m.Ok? {
      var move := StateStep(se.snk.state, se.snk.depth, m.m);
      if move.Some? {
        var rest := se.toSink[n..];
        MessageFollows(se.(toSink := rest), t.(toSink := rest), m.m, move.value);
      }
    }
  }

  lemma MessageFollows(se: Session, t: Session, m: Message, move: Move)
    requires Follows(se, t)
    ensures m.CMsg? ==> Follows(SinkOpens(se, m, move), SinkOpens(t, m, move))
    ensures !m.CMsg? ==> Follows(SinkHandles(se, m, move), SinkHandles(t, m, move))
  {
    hide Partial, ChunkBytes, OpenFile;
  }

  lemma SinkCopyFollows(se: Session, t: Session, k: nat)
    requires Follows(se, t) && DoSinkCopy(se, k).Some?
    ensures DoSinkCopy(t, k).Some? && Follows(DoSinkCopy(se, k).value, DoSinkCopy(t, k).value)
  {
    hide Partial, ChunkBytes, Write;
  }

  lemma SinkZeroFollows(se: Session, t: Session)
    requires Follows(se, t) && DoSinkZero(se).Some?
    ensures DoSinkZero(t).Some? && Follows(DoSinkZero(se).value, DoSinkZero(t).value)
  {
    hide Partial, ChunkBytes;
  }

  function NewSink(base: Path, disk: Disk): SinkState {
    SinkState(base, false, 0, 0, [], [], disk)
  }

  /** While no read fails, the sink does not fail on a tree that travels. */
  lemma SinkDoesNotFail(n: Node, recursive: bool, times: bool, base: Path, disk: Disk, steps: seq<Step>, t: Session)
    requires WellFormed(n) && Travels(times, n) && HasPlace(disk, base, n) && if n.Dir? then recursive else base != []
    requires Play(Begin(Script(times, n), recursive, times, NewSink(base, disk)), steps) == Some(t)
    requires SourceFails !in steps && !t.src.SourceDone?
    ensures !t.snk.SinkDone? && Lockstep(t, |Script(times, n)|, AllFit)
  {
    hide SinkRun, Do, Receive, Image, Stream, HasPlace, WellFormed, Good, OnCourse, AckPending, ChunkPending;
    var mem, script := NewSink(base, disk), Script(times, n);
    TravelsFits(times, n);
    TreeScriptIsGood(times, n);
    AlwaysLockstep(script, Begin(script, recursive, times, mem), steps, AllFit);
    SinkDoneMeansFailed(t, |script|);
    ScriptIsStream(times, n);
    AlwaysKept(script, recursive, times, mem, steps, AllFit);
    var full := mem.(input := Stream(times, n));
    SinkTakesTree(recursive, times, n, full);
    WrittenIsPart(t, script);
    var z := ScriptBytes(script)[|t.written|..];
    assert t.written + z == ScriptBytes(script);
    assert EndOf(recursive, times, mem)(t.written + z) == SinkRun(recursive, times, full);
  }

  lemma SinkDoneMeansFailed(t: Session, total: nat)
    requires Lockstep(t, total, AllFit) && !t.src.SourceDone?
    ensures t.snk.SinkDone? ==> t.snk.err.Some?
  {
  }

  lemma WrittenIsPart(t: Session, script: seq<Chunk>)
    requires Underway(t, script)
    ensures t.written <= ScriptBytes(script)
  {
  }

  lemma {:induction false} PlayFollows(script: seq<Chunk>, n: Node, recursive: bool, times: bool, base: Path,
                                       disk: Disk, steps: seq<Step>)
    requires WellFormed(n) && Travels(times, n) && HasPlace(disk, base, n) && if n.Dir? then recursive else base != []
    requires Partial(script, Script(times, n)) && SourceFails !in steps
    requires Play(Begin(script, recursive, times, NewSink(base, disk)), steps).Some?
    ensures var t := Play(Begin(Script(times, n), recursive, times, NewSink(base, disk)), steps);
            && t.Some?
            && Follows(Play(Begin(script, recursive, times, NewSink(base, disk)), steps).value, t.value)
            && !t.value.src.SourceDone?
    decreases |steps|
  {
    hide Do, Script, Partial, WellFormed, Travels, HasPlace, ChunkBytes;
    if steps != [] {
      var init, step := steps[..|steps| - 1], steps[|steps| - 1];
      var se := Play(Begin(script, recursive, times, NewSink(base, disk)), init).value;
      PlayFollows(script, n, recursive, times, base, disk, init);
      var t := Play(Begin(Script(times, n), recursive, times, NewSink(base, disk)), init).value;
      SinkDoesNotFail(n, recursive, times, base, disk, init, t);
      StepFollows(se, t, |Script(times, n)|, step);
    }
  }

  /** A session over a tree with a file that is shorter than announced, and no misfit before it, never ends. */
  lemma ShorterNeverEnds(n: Node, recursive: bool, times: bool, base: Path, disk: Disk, steps: seq<Step>)
    requires WellFormed(n) && Legible(times, n) && HasPlace(disk, base, n) && if n.Dir? then recursive else base != []
    requires FirstMisfit(n) == Shorter && SourceFails !in steps
    requires Play(Begin(Script(times, n), recursive, times, NewSink(base, disk)), steps).Some?
    ensures !Over(Play(Begin(Script(times, n), recursive, times, NewSink(base, disk)), steps).value)
  {
    hide Do, Script, Partial, WellFormed, Legible, FirstMisfit;
    var a := Announcement(n);
    AnnouncementTravels(times, n);
    ScriptIsPartial(times, n, [], []);
    assert Script(times, n) + [] == Script(times, n) && Script(times, a) + [] == Script(times, a);
    PlayFollows(Script(times, n), a, recursive, times, base, disk, steps);
  }

  /** Whatever has happened, a session in which no read fails comes to its end or to a halt. */
  lemma SessionGoesOn(n: Node, recursive: bool, times: bool, base: Path, disk: Disk, steps: seq<Step>)
    returns (more: seq<Step>, end: Session)
    requires OneLineNames(n) && Contained(n)
    requires Play(Begin(Script(times, n), recursive, times, NewSink(base, disk)), steps).Some?
    ensures SourceFails !in more && (Over(end) || Stuck(end))
    ensures Play(Begin(Script(times, n), recursive, times, NewSink(base, disk)), steps + more) == Some(end)
  {
    hide Do, Script, Lockstep, OneLineNames, FirstMisfit, Stuck;
    var script := Script(times, n);
    var se0 := Begin(script, recursive, times, NewSink(base, disk));
    TreeScriptIsGood(times, n);
    AlwaysLockstep(script, se0, steps, FirstMisfit(n));
    more, end := GoesOn(Play(se0, steps).value, |script|, FirstMisfit(n));
    PlayOn(se0, steps, more);
  }

  /**
   A session over a tree whose messages can be read back can get stuck without a failure to read if and only if the
   first file that misfits is shorter than announced. Then every schedule without a failure to read can be
   continued until the session is stuck, and none ends.
   */
  lemma StuckExactlyIf(n: Node, recursive: bool, times: bool, base: Path, disk: Disk)
    requires WellFormed(n) && Legible(times, n) && HasPlace(disk, base, n) && if n.Dir? then recursive else base != []
    requires Contained(n)
    ensures var se0 := Begin(Script(times, n), recursive, times, NewSink(base, disk));
            (exists steps :: SourceFails !in steps && Play(se0, steps).Some? && Stuck(Play(se0, steps).value)) <==>
            FirstMisfit(n) == Shorter
  {
    hide Do, Script, Lockstep, OneLineNames, FirstMisfit, WellFormed, Legible, HasPlace, Stuck;
    var se0 := Begin(Script(times, n), recursive, times, NewSink(base, disk));
    AnnouncementTravels(times, n);
    if FirstMisfit(n) == Shorter {
      assert Play(se0, []) == Some(se0);
      var steps, end := SessionGoesOn(n, recursive, times, base, disk, []);
      assert [] + steps == steps;
      ShorterNeverEnds(n, recursive, times, base, disk, steps);
    } else {
      forall steps | Play(se0, steps).Some? ensures !Stuck(Play(se0, steps).value) {
        NotStuck(n, recursive, times, base, disk, steps);
      }
    }
  }

  /** If the first misfit is not shorter than announced, no schedule at all gets a session stuck. */
  lemma NotStuck(n: Node, recursive: bool, times: bool, base: Path, disk: Disk, steps: seq<Step>)
    requires OneLineNames(n) && Contained(n) && FirstMisfit(n) != Shorter
    requires Play(Begin(Script(times, n), recursive, times, NewSink(base, disk)), steps).Some?
    ensures !Stuck(Play(Begin(Script(times, n), recursive, times, NewSink(base, disk)), steps).value)
  {
    hide Do, Script, Lockstep, OneLineNames, FirstMisfit;
    SessionOverATree(times, n, recursive, times, NewSink(base, disk), steps);
  }

  /** Some file in the tree is shorter than announced. */
  predicate HasShorter(n: Node)
    decreases n
  {
    if n.File? then |n.content| < CopyLimit(AsLength(n.size)) else exists c :: c in n.children && HasShorter(c)
  }

  /** No file is longer than announced. */
  predicate NoneLonger(n: Node)
    decreases n
  {
    if n.File? then |n.content| <= CopyLimit(AsLength(n.size)) else forall c :: c in n.children ==> NoneLonger(c)
  }

  lemma {:induction false} ShorterSomewhere(n: Node)
    requires NoneLonger(n)
    ensures FirstMisfit(n) == if HasShorter(n) then Shorter else AllFit
    decreases n
  {
    if n.Dir? {
      ShorterAmong(n.children);
    }
  }

  lemma {:induction false} ShorterAmong(ns: seq<Node>)
    requires forall c :: c in ns ==> NoneLonger(c)
    ensures FirstMisfitOf(ns) == if exists c :: c in ns && HasShorter(c) then Shorter else AllFit
    decreases ns
  {
    if ns != [] {
      ShorterSomewhere(ns[0]);
      ShorterAmong(ns[1..]);
      assert ns == [ns[0]] + ns[1..];
    }
  }

  /** Where no file is longer than announced, a session can get stuck if and only if some file is shorter. */
  lemma StuckExactlyIfShorter(n: Node, recursive: bool, times: bool, base: Path, disk: Disk)
    requires WellFormed(n) && Legible(times, n) && HasPlace(disk, base, n) && if n.Dir? then recursive else base != []
    requires NoneLonger(n)
    ensures var se0 := Begin(Script(times, n), recursive, times, NewSink(base, disk));
            (exists steps :: SourceFails !in steps && Play(se0, steps).Some? && Stuck(Play(se0, steps).value)) <==>
            HasShorter(n)
  {
    hide Script, WellFormed, Legible, HasPlace, Stuck;
    ShorterSomewhere(n);
    StuckExactlyIf(n, recursive, times, base, disk);
  }

  // ---- longer files

  /** What the sink still gets of a file after as much as was announced and a zero byte. */
  function Spilling(n: Node): bytes
    requires n.File? && FirstMisfit(n) == Spills
  {
    n.content[CopyLimit(AsLength(n.size)) + 1..] + [0]
  }

  lemma ContentSplits(content: bytes, limit: nat)
    requires limit < |content| && content[limit] == 0
    ensures content + ([0] + []) == content[..limit] + ([0] + (content[limit + 1..] + [0]))
  {
  }

  /** The bytes of a file that spills are those of the announced file, and the rest. */
  lemma SpillingStream(times: bool, n: Node)
    requires n.File? && FirstMisfit(n) == Spills
    ensures Stream(times, n) == Stream(times, Announcement(n)) + Spilling(n)
  {
    hide Stream, Stamp, Print;
    FileStream(times, n, []);
    FileStream(times, Announcement(n), Spilling(n));
    assert Stream(times, n) + [] == Stream(times, n);
    ContentSplits(n.content, CopyLimit(AsLength(n.size)));
    SameAnnouncement(times, n);
  }

  lemma SameAnnouncement(times: bool, n: Node)
    requires n.File?
    ensures Stamp(times, Announcement(n)) == Stamp(times, n) && FileMessage(Announcement(n)) == FileMessage(n)
  {
  }

  /** The machine's state after a file. */
  function AfterFile(recursive: bool, times: bool): ParserState {
    if recursive && times then RecurseTimesCDET else ParserStart(recursive, times)
  }

  /** The sink's run on a file that spills: it takes the announced file, and goes on with the rest as messages. */
  function SpiltRun(recursive: bool, times: bool, n: Node, s: SinkState): Done
    requires n.File? && FirstMisfit(n) == Spills
  {
    SinkLoop(AfterFile(recursive, times), 0, Receive(times, Announcement(n), Ack(s)).(input := Spilling(n)))
  }

  lemma SinkTakesSpilling(recursive: bool, times: bool, n: Node, s: SinkState)
    requires s.input == Stream(times, n) && !s.timeSet && s.dir != []
    requires n.File? && FirstMisfit(n) == Spills && Announced(times, n) && HasPlace(s.disk, s.dir, n)
    ensures SinkRun(recursive, times, s) == SpiltRun(recursive, times, n, s)
  {
    hide SinkLoop, Stream, Receive, HasPlace, FirstMisfit, Travels, StateStep, Spilling;
    var a := Announcement(n);
    SpillingStream(times, n);
    AnnouncedFileTravels(times, n);
    var move := FileMoves(recursive, times, a);
    assert HasPlace(Ack(s).disk, Ack(s).dir, a) by { SamePlace(s, n); }
    FileReceived(times, a, ParserStart(recursive, times), 0, Ack(s), Spilling(n), move,
                 Move(AfterFile(recursive, times), 0));
  }

  lemma SamePlace(s: SinkState, n: Node)
    requires HasPlace(s.disk, s.dir, n)
    ensures HasPlace(s.disk, s.dir, Announcement(n))
  {
  }

  lemma AnnouncedFileTravels(times: bool, n: Node)
    requires n.File? && Announced(times, n)
    ensures Travels(times, Announcement(n))
  {
  }

  /** The machine's moves for a file outside of all directories. */
  lemma FileMoves(recursive: bool, times: bool, n: Node) returns (move: Move)
    requires n.File?
    ensures if times then StateStep(ParserStart(recursive, times), 0, TimesMessage(n)) == Some(move)
            else move == Move(ParserStart(recursive, times), 0)
    ensures StateStep(move.state, move.depth, FileMessage(n)) == Some(Move(AfterFile(recursive, times), 0))
  {
    var state := ParserStart(recursive, times);
    move := if times then StateStep(state, 0, TimesMessage(n)).value else Move(state, 0);
  }

  /** The loop never takes an ack back. */
  lemma {:induction false} OutputGrows(state: ParserState, depth: int, s: SinkState)
    ensures |SinkLoop(state, depth, s).s.output| >= |s.output|
    decreases |s.input|
  {
    hide Parse, StateStep;
    var n := LineLength(s.input);
    if n > 0 {
      var line := Parse(s.input[..n]);
      if line.Ok? {
        var move := StateStep(state, depth, line.m);
        var done := Process(s.(input := s.input[n..]), line.m);
        ProcessConsumes(s.(input := s.input[n..]), line.m);
        ProcessAcks(s.(input := s.input[n..]), line.m);
        if move.Some? && done.err.None? {
          OutputGrows(move.value.state, move.value.depth, done.s);
        }
      }
    }
  }

  lemma ProcessAcks(s: SinkState, m: Message)
    ensures |Process(s, m).s.output| >= |s.output|
  {
  }

  /**
   A session over a file that is longer than announced, with a zero byte where its end was announced. If no read
   fails, then under every schedule the source succeeds, and the sink ends as it does on the rest of the file when
   it takes that for messages.
   */
  lemma SpillingSession(n: Node, recursive: bool, times: bool, base: Path, disk: Disk, steps: seq<Step>, se: Session)
    requires n.File? && FirstMisfit(n) == Spills && Announced(times, n) && HasPlace(disk, base, n) && base != []
    requires Play(Begin(Script(times, n), recursive, times, NewSink(base, disk)), steps) == Some(se)
    requires SourceFails !in steps && Over(se)
    ensures se.src.err == None
    ensures SameEnd(Done(se.mem, se.snk.err), SpiltRun(recursive, times, n, NewSink(base, disk)))
  {
    hide SinkRun, SinkLoop, Do, Stream, Receive, Good, OnCourse, FirstMisfit, HasPlace;
    var mem, script := NewSink(base, disk), Script(times, n);
    TreeScriptIsGood(times, n);
    AlwaysLockstep(script, Begin(script, recursive, times, mem), steps, Spills);
    BrokeExactlyIf(script, Begin(script, recursive, times, mem), steps);
    AlwaysKept(script, recursive, times, mem, steps, Spills);
    ScriptIsStream(times, n);
    var full := mem.(input := Stream(times, n));
    SinkTakesSpilling(recursive, times, n, full);
    SpiltAcks(recursive, times, n, full);
    SpiltRunIgnoresInput(recursive, times, n, mem, Stream(times, n));
    AnsweredInTime(se, script, EndOf(recursive, times, mem));
    SessionIsRun(script, recursive, times, mem, steps, se);
  }

  /** A sink that answers the whole script does so before it fails. */
  lemma AnsweredInTime(se: Session, script: seq<Chunk>, end: bytes -> Done)
    requires AllKept(se, script, end) && Lockstep(se, |script|, Spills) && Over(se) && !Broke(se)
    requires |end(ScriptBytes(script)).s.output| > |script|
    ensures se.src.err == None && se.written == se.sent == ScriptBytes(script)
  {
    WrittenIsPart(se, script);
    var z := ScriptBytes(script)[|se.written|..];
    assert se.written + z == ScriptBytes(script);
    assert se.src.err.Some? ==> |end(se.written + z).s.output| <= |script|;
  }

  /** The sink has sent more acks than the source waits for after the first. */
  lemma SpiltAcks(recursive: bool, times: bool, n: Node, s: SinkState)
    requires n.File? && FirstMisfit(n) == Spills && s.output == []
    ensures |SpiltRun(recursive, times, n, s).s.output| > |Script(times, n)|
  {
    var a := Announcement(n);
    var r := Receive(times, a, Ack(s)).(input := Spilling(n));
    Received(times, a, Ack(s));
    OutputGrows(AfterFile(recursive, times), 0, r);
  }

  lemma SpiltRunIgnoresInput(recursive: bool, times: bool, n: Node, s: SinkState, input: bytes)
    requires n.File? && FirstMisfit(n) == Spills
    ensures SpiltRun(recursive, times, n, s.(input := input)) == SpiltRun(recursive, times, n, s)
  {
    hide SinkLoop;
    InputAsideOne(times, Announcement(n), Ack(s), input);
  }

  /** So both ends agree if and only if the sink takes the rest of the file without an error. */
  lemma SpillingAgreesExactlyIf(n: Node, recursive: bool, times: bool, base: Path, disk: Disk, steps: seq<Step>,
                                se: Session)
    requires n.File? && FirstMisfit(n) == Spills && Announced(times, n) && HasPlace(disk, base, n) && base != []
    requires Play(Begin(Script(times, n), recursive, times, NewSink(base, disk)), steps) == Some(se)
    requires SourceFails !in steps && Over(se)
    ensures (se.src.err == None <==> se.snk.err == None) <==>
            SpiltRun(recursive, times, n, NewSink(base, disk)).err == None
  {
    SpillingSession(n, recursive, times, base, disk, steps, se);
  }

  const LETTER_Q := 81 as byte

  /**
   A file of which stat says that it is empty, with a zero byte and a line after it that is no message: the session
   ends, the source has succeeded, and the sink has failed.
   */
  lemma EndsDisagree(n: Node, recursive: bool, times: bool, base: Path, disk: Disk)
    returns (steps: seq<Step>, se: Session)
    requires n.File? && n.size == 0 && n.content == [0, LETTER_Q, NEWLINE]
    requires Announced(times, n) && HasPlace(disk, base, n) && base != []
    ensures Play(Begin(Script(times, n), recursive, times, NewSink(base, disk)), steps) == Some(se)
    ensures SourceFails !in steps && Over(se) && se.src.err == None && se.snk.err.Some?
  {
    hide SinkLoop, Do, Script, Receive, HasPlace, Stuck;
    assert Play(Begin(Script(times, n), recursive, times, NewSink(base, disk)), []).Some?;
    steps, se := SessionGoesOn(n, recursive, times, base, disk, []);
    assert [] + steps == steps;
    NotStuck(n, recursive, times, base, disk, steps);
    SpillingSession(n, recursive, times, base, disk, steps, se);
    var s := Receive(times, Announcement(n), Ack(NewSink(base, disk))).(input := Spilling(n));
    assert Spilling(n) == [LETTER_Q, NEWLINE] + [0];
    NoMessageRefused(AfterFile(recursive, times), 0, s, [0]);
  }

  lemma NoMessageRefused(state: ParserState, depth: int, s: SinkState, rest: bytes)
    requires s.input == [LETTER_Q, NEWLINE] + rest
    ensures SinkLoop(state, depth, s).err.Some?
  {
    var line := [LETTER_Q, NEWLINE];
    assert line[..1] == [LETTER_Q];
    LineLengthOf(line, rest);
    assert s.input[..2] == line;
    assert Parse(line).Err?;
  }
}
