/**
 A whole transfer. A sink fed with the bytes of a tree ends well and has the tree, entry by entry, as it was;
 the acks it sends are the ones the source waits for; and so the two ends, run against each other, agree.
 */
module ScpTransfer {
  import opened Options
  import opened ScpUtf8
  import opened ScpMessages
  import opened ScpPaths
  import opened ScpDisk
  import opened ScpSink
  import opened ScpSource
  import opened ScpSend
  import opened ScpReceive
  import opened ScpFormat

  // ---- disks with room for a tree

  /** Nothing is at p or below it. */
  ghost predicate Fresh(nodes: map<Path, Entry>, p: Path) {
    forall q :: q in nodes ==> !(p <= q)
  }

  /** The disk takes whatever it is given. */
  predicate NoFaults(d: Disk) {
    d.openFails == {} && d.mkdirFails == {} && d.room == map[]
  }

  /** n can be put into the directory at dir. */
  ghost predicate HasPlace(d: Disk, dir: Path, n: Node) {
    NoFaults(d) && IsDir(d.nodes, dir) && Fresh(d.nodes, dir + [n.name])
  }

  /** All of ns can be put into the directory at dir, one after the other. */
  ghost predicate HavePlaces(d: Disk, dir: Path, ns: seq<Node>) {
    && (forall c :: c in ns ==> HasPlace(d, dir, c))
    && (forall i, j :: 0 <= i < j < |ns| ==> ns[i].name != ns[j].name)
  }

  lemma {:induction false} ImageIsBelow(times: bool, dir: Path, n: Node)
    ensures forall q :: q in Image(times, dir, n) ==> dir + [n.name] <= q
    decreases n
  {
    if n.Dir? {
      ImagesAreBelow(times, dir + [n.name], n.children);
    }
  }

  lemma {:induction false} ImagesAreBelow(times: bool, dir: Path, ns: seq<Node>)
    ensures forall q :: q in ImageAll(times, dir, ns) ==> dir <= q
    decreases ns
  {
    if ns != [] {
      ImageIsBelow(times, dir, ns[0]);
      ImagesAreBelow(times, dir, ns[1..]);
    }
  }

  lemma PrefixOfPrefix(p: Path, name: bytes, q: Path)
    ensures p + [name] <= q ==> p <= q
  {
  }

  /** A new directory has places for its entries. */
  lemma PlacesInside(d: Disk, dir: Path, n: Node, e: Entry)
    requires HasPlace(d, dir, n) && n.Dir? && WellFormed(n) && e.DirEntry?
    ensures HavePlaces(Put(d, dir + [n.name], e), dir + [n.name], n.children)
  {
    var p := dir + [n.name];
    forall c | c in n.children ensures Fresh(Put(d, p, e).nodes, p + [c.name]) {
      forall q | q in Put(d, p, e).nodes && q != p ensures !(p + [c.name] <= q) {
        assert !(p <= q);
        PrefixOfPrefix(p, c.name, q);
      }
    }
  }

  /** Putting one tree into a directory leaves the places of its siblings. */
  lemma PlacesLeft(times: bool, d: Disk, dir: Path, ns: seq<Node>)
    requires ns != [] && HavePlaces(d, dir, ns)
    ensures HavePlaces(d.(nodes := d.nodes + Image(times, dir, ns[0])), dir, ns[1..])
  {
    ImageIsBelow(times, dir, ns[0]);
    var image := Image(times, dir, ns[0]);
    forall i | 0 < i < |ns| ensures HasPlace(d.(nodes := d.nodes + image), dir, ns[i]) {
      assert HasPlace(d, dir, ns[i]);
      forall q | q in image ensures !(dir + [ns[i].name] <= q) {
        assert q[|dir|] == ns[0].name;
      }
      assert dir !in image;
    }
  }

  // ---- the sink, one node at a time

  /** The sink reads the times of n, if they are sent. */
  lemma StampRead(times: bool, n: Node, state: ParserState, depth: int, s: SinkState, rest: bytes, move: Move)
    requires s.input == Stamp(times, n) + rest && Dated(times, n)
    requires if times then StateStep(state, depth, TimesMessage(n)) == Some(move) else move == Move(state, depth)
    ensures SinkLoop(state, depth, s) == SinkLoop(move.state, move.depth, Stamped(times, n, s.(input := rest)))
  {
    if times {
      OneMessage(state, depth, s, TimesMessage(n), rest);
    } else {
      assert s.input == rest;
    }
  }

  /** What opening, copying and setting the times of a file come to. */
  lemma FileWritten(times: bool, n: Node, s: SinkState, tail: bytes)
    requires n.File? && Travels(times, n) && !s.timeSet && s.dir != [] && HasPlace(s.disk, s.dir, n)
    requires s.input == n.content + ([0] + tail)
    ensures ProcessC(Stamped(times, n, s), FileMessage(n)) == Done(Receive(times, n, s).(input := tail), None)
  {
    var p, st, m := s.dir + [n.name], Stamped(times, n, s), FileMessage(n);
    JoinPlain(s.dir, n.name);
    assert Parent(p) == s.dir by { assert p[..|s.dir|] == s.dir; }
    assert TargetPath(s.dir, n.name) == p;
    assert p !in s.disk.nodes;
    var d := Put(s.disk, p, FileEntry(m.mode, [], None));
    assert OpenFile(st.disk, p, m.mode) == Some(d);
    assert CopyLimit(m.length) == |n.content| && s.input[..|n.content|] == n.content;
    assert s.input[|n.content|..] == [0] + tail && ([0] + tail)[1..] == tail;
    assert [] + n.content == n.content;
    assert Write(d, p, n.content).disk == Put(s.disk, p, FileEntry(m.mode, n.content, None));
  }

  lemma FileStream(times: bool, n: Node, tail: bytes)
    requires n.File?
    ensures Stream(times, n) + tail == Stamp(times, n) + (Print(FileMessage(n)) + (n.content + ([0] + tail)))
  {
    var a, b, c := Stamp(times, n), Print(FileMessage(n)), n.content;
    assert (c + [0]) + tail == c + ([0] + tail);
    assert (b + (c + [0])) + tail == b + ((c + [0]) + tail);
    assert (a + (b + (c + [0]))) + tail == a + ((b + (c + [0])) + tail);
  }

  lemma DirStream(times: bool, n: Node, tail: bytes)
    requires n.Dir?
    ensures Stream(times, n) + tail ==
            Stamp(times, n) + (Print(DirMessage(n)) + (StreamAll(times, n.children) + (Print(EMsg) + tail)))
  {
    var a, b, c, e := Stamp(times, n), Print(DirMessage(n)), StreamAll(times, n.children), Print(EMsg);
    assert (c + e) + tail == c + (e + tail);
    assert (b + (c + e)) + tail == b + ((c + e) + tail);
    assert (a + (b + (c + e))) + tail == a + ((b + (c + e)) + tail);
  }

  /** The sink reads a file, in any state of the machine that accepts it. */
  lemma FileReceived(times: bool, n: Node, state: ParserState, depth: int, s: SinkState, tail: bytes, move: Move,
                     move': Move)
    requires s.input == Stream(times, n) + tail
    requires n.File? && Travels(times, n) && !s.timeSet && s.dir != [] && HasPlace(s.disk, s.dir, n)
    requires if times then StateStep(state, depth, TimesMessage(n)) == Some(move) else move == Move(state, depth)
    requires StateStep(move.state, move.depth, FileMessage(n)) == Some(move')
    ensures SinkLoop(state, depth, s) == SinkLoop(move'.state, move'.depth, Receive(times, n, s).(input := tail))
  {
    hide SinkLoop;
    var rest := n.content + ([0] + tail);
    FileStream(times, n, tail);
    var s1 := s.(input := Print(FileMessage(n)) + rest);
    StampRead(times, n, state, depth, s, s1.input, move);
    OneMessage(move.state, move.depth, Stamped(times, n, s1), FileMessage(n), rest);
    var s2 := s.(input := rest);
    assert Stamped(times, n, s1).(input := rest) == Stamped(times, n, s2);
    FileWritten(times, n, s2, tail);
    assert Receive(times, n, s2).(input := tail) == Receive(times, n, s).(input := tail);
  }

  /** What making a directory and setting its times come to. */
  lemma DirectoryMade(times: bool, n: Node, s: SinkState)
    requires n.Dir? && Announced(times, n) && !s.timeSet && HasPlace(s.disk, s.dir, n)
    ensures ProcessD(Stamped(times, n, s), DirMessage(n)) == Done(Entered(times, n, s).(dir := s.dir + [n.name]), None)
  {
    var p, m := s.dir + [n.name], DirMessage(n);
    JoinPlain(s.dir, n.name);
    assert p !in s.disk.nodes && Parent(p) == s.dir;
    assert MkdirAll(s.disk, s.dir, m.mode) == Some(s.disk);
    assert MkdirAll(s.disk, p, m.mode) == Some(Put(s.disk, p, DirEntry(m.mode, None)));
  }

  /** The sink reads a directory's announcement, in any state that accepts it. */
  lemma DirectoryEntered(times: bool, n: Node, state: ParserState, depth: int, s: SinkState, rest: bytes, move: Move,
                         move': Move)
    requires s.input == Stamp(times, n) + (Print(DirMessage(n)) + rest)
    requires n.Dir? && Announced(times, n) && !s.timeSet && HasPlace(s.disk, s.dir, n)
    requires if times then StateStep(state, depth, TimesMessage(n)) == Some(move) else move == Move(state, depth)
    requires StateStep(move.state, move.depth, DirMessage(n)) == Some(move')
    ensures SinkLoop(state, depth, s) ==
            SinkLoop(move'.state, move'.depth, Entered(times, n, s).(dir := s.dir + [n.name], input := rest))
  {
    hide SinkLoop;
    var s1, s2 := s.(input := Print(DirMessage(n)) + rest), s.(input := rest);
    StampRead(times, n, state, depth, s, s1.input, move);
    OneMessage(move.state, move.depth, Stamped(times, n, s1), DirMessage(n), rest);
    assert Stamped(times, n, s1).(input := rest) == Stamped(times, n, s2);
    DirectoryMade(times, n, s2);
  }

  /** The state of a recursive sink inside a directory. */
  function Inside(times: bool): ParserState {
    if times then RecurseTimesCDET else RecurseNoTimesCDE
  }

  /** Inside a directory, a node leaves state and depth of the machine as they were. */
  lemma {:induction false} NodeReceived(times: bool, n: Node, depth: int, s: SinkState, tail: bytes)
    requires s.input == Stream(times, n) + tail && depth >= 1 && s.dir != []
    requires WellFormed(n) && Travels(times, n) && !s.timeSet && HasPlace(s.disk, s.dir, n)
    ensures SinkLoop(Inside(times), depth, s) == SinkLoop(Inside(times), depth, Receive(times, n, s).(input := tail))
    decreases n, 1
  {
    hide SinkLoop, Stream, Receive, WellFormed, Travels, HasPlace;
    var move := if times then Move(RecurseTimesCD, depth) else Move(RecurseNoTimesCDE, depth);
    if n.File? {
      FileReceived(times, n, Inside(times), depth, s, tail, move, Move(Inside(times), depth));
    } else {
      DirectoryReceived(times, n, Inside(times), depth, s, tail, move);
    }
  }

  /** An E message goes back to the parent directory, and at depth 0 to the first state. */
  lemma DirectoryLeft(times: bool, depth: int, s: SinkState, tail: bytes)
    requires s.input == Print(EMsg) + tail && depth >= 0
    ensures SinkLoop(Inside(times), depth + 1, s) ==
            SinkLoop(if depth == 0 then ParserStart(true, times) else Inside(times), depth,
                     Ack(s.(dir := Parent(s.dir), input := tail)))
  {
    hide SinkLoop;
    OneMessage(Inside(times), depth + 1, s, EMsg, tail);
  }

  /** A directory read at depth 0 or more ends where it began. */
  lemma {:induction false} DirectoryReceived(times: bool, n: Node, state: ParserState, depth: int, s: SinkState,
                                             tail: bytes, move: Move)
    requires s.input == Stream(times, n) + tail && depth >= 0
    requires n.Dir? && WellFormed(n) && Travels(times, n) && !s.timeSet && HasPlace(s.disk, s.dir, n)
    requires if times then StateStep(state, depth, TimesMessage(n)) == Some(move) else move == Move(state, depth)
    requires StateStep(move.state, move.depth, DirMessage(n)) == Some(Move(Inside(times), depth + 1))
    ensures var end := if depth == 0 then ParserStart(true, times) else Inside(times);
            SinkLoop(state, depth, s) == SinkLoop(end, depth, Receive(times, n, s).(input := tail))
    decreases n, 0
  {
    hide SinkLoop;
    var p, body := s.dir + [n.name], StreamAll(times, n.children);
    var rest := body + (Print(EMsg) + tail);
    DirStream(times, n, tail);
    DirectoryEntered(times, n, state, depth, s, rest, move, Move(Inside(times), depth + 1));
    var s1 := Entered(times, n, s).(dir := p, input := rest);
    PlacesInside(s.disk, s.dir, n, EntryOf(times, n));
    ChildrenReceived(times, n.children, depth + 1, s1, Print(EMsg) + tail);
    var s2 := ReceiveAll(times, n.children, s1);
    ReceivedAll(times, n.children, s1);
    DirectoryLeft(times, depth, s2.(input := Print(EMsg) + tail), tail);
    assert Parent(p) == s.dir by { assert p[..|s.dir|] == s.dir; }
    InputAside(times, n.children, Entered(times, n, s).(dir := p), rest);
  }

  lemma {:induction false} ChildrenReceived(times: bool, ns: seq<Node>, depth: int, s: SinkState, tail: bytes)
    requires s.input == StreamAll(times, ns) + tail && depth >= 1 && s.dir != [] && !s.timeSet
    requires HavePlaces(s.disk, s.dir, ns) && forall c :: c in ns ==> WellFormed(c) && Travels(times, c)
    ensures SinkLoop(Inside(times), depth, s) ==
            SinkLoop(Inside(times), depth, ReceiveAll(times, ns, s).(input := tail))
    decreases ns
  {
    hide SinkLoop, Stream, Receive, Image;
    if ns == [] {
      assert StreamAll(times, ns) + tail == tail;
    } else {
      var rest := StreamAll(times, ns[1..]) + tail;
      assert StreamAll(times, ns) + tail == Stream(times, ns[0]) + rest;
      NodeReceived(times, ns[0], depth, s, rest);
      Received(times, ns[0], s);
      PlacesLeft(times, s.disk, s.dir, ns);
      var s1 := Receive(times, ns[0], s);
      ChildrenReceived(times, ns[1..], depth, s1.(input := rest), tail);
      InputAside(times, ns[1..], s1, rest);
    }
  }

  /** What is received does not depend on the rest of the input. */
  lemma {:induction false} InputAside(times: bool, ns: seq<Node>, s: SinkState, input: bytes)
    ensures ReceiveAll(times, ns, s.(input := input)) == ReceiveAll(times, ns, s).(input := input)
    decreases ns
  {
    if ns != [] {
      InputAsideOne(times, ns[0], s, input);
      InputAside(times, ns[1..], Receive(times, ns[0], s), input);
    }
  }

  lemma {:induction false} InputAsideOne(times: bool, n: Node, s: SinkState, input: bytes)
    ensures Receive(times, n, s.(input := input)) == Receive(times, n, s).(input := input)
    decreases n
  {
    if n.Dir? {
      InputAside(times, n.children, Entered(times, n, s).(dir := s.dir + [n.name]), input);
    }
  }

  // ---- the result is the tree

  lemma {:induction false} ImageLookup(times: bool, dir: Path, n: Node, q: Path)
    requires WellFormed(n)
    ensures var p, image := dir + [n.name] + q, Image(times, dir, n);
            && (p in image <==> Lookup(n, q).Some?)
            && (p in image ==> image[p] == EntryOf(times, Lookup(n, q).value))
    decreases n
  {
    var p0 := dir + [n.name];
    if q == [] {
      assert p0 + q == p0;
      if n.Dir? {
        OwnPathIsNotInside(times, p0, n.children);
      }
    } else if n.Dir? {
      ImagesLookup(times, p0, n.children, q);
    }
  }

  lemma {:induction false} OwnPathIsNotInside(times: bool, dir: Path, ns: seq<Node>)
    ensures dir !in ImageAll(times, dir, ns)
    decreases ns
  {
    if ns != [] {
      ImageIsBelow(times, dir, ns[0]);
      OwnPathIsNotInside(times, dir, ns[1..]);
    }
  }

  lemma {:induction false} ImagesLookup(times: bool, dir: Path, ns: seq<Node>, q: Path)
    requires q != [] && forall c :: c in ns ==> WellFormed(c)
    requires forall i, j :: 0 <= i < j < |ns| ==> ns[i].name != ns[j].name
    ensures var image, c := ImageAll(times, dir, ns), Child(ns, q[0]);
            && (dir + q in image <==> c.Some? && Lookup(c.value, q[1..]).Some?)
            && (dir + q in image ==> image[dir + q] == EntryOf(times, Lookup(c.value, q[1..]).value))
    decreases ns
  {
    if ns != [] {
      ImagesLookup(times, dir, ns[1..], q);
      if ns[0].name == q[0] {
        ImageLookup(times, dir, ns[0], q[1..]);
        assert dir + [ns[0].name] + q[1..] == dir + q;
        NameNotAmong(times, dir, ns[1..], q);
      } else {
        ImageIsBelow(times, dir, ns[0]);
        assert (dir + q)[|dir|] == q[0];
      }
    }
  }

  lemma {:induction false} NameNotAmong(times: bool, dir: Path, ns: seq<Node>, q: Path)
    requires q != [] && forall i :: 0 <= i < |ns| ==> ns[i].name != q[0]
    ensures dir + q !in ImageAll(times, dir, ns)
    decreases ns
  {
    if ns != [] {
      ImageIsBelow(times, dir, ns[0]);
      assert (dir + q)[|dir|] == q[0];
      NameNotAmong(times, dir, ns[1..], q);
    }
  }

  /** On the sink's disk entry is what n is on the source's: of its kind, with its permissions, content and times. */
  predicate Copies(times: bool, entry: Entry, n: Node) {
    && IsPermission(entry.mode, n.mode)
    && entry.times == (if times then Some(n.times) else None)
    && (if n.Dir? then entry.DirEntry? else entry.FileEntry? && entry.content == n.content)
  }

  lemma EntryCopies(times: bool, n: Node)
    ensures Copies(times, EntryOf(times, n), n)
  {
  }

  /** The image holds exactly the paths of the tree, below its new place, each with its mode, content and times. */
  lemma ImageIsTheTree(times: bool, dir: Path, n: Node)
    requires WellFormed(n)
    ensures forall q :: var p, image := dir + [n.name] + q, Image(times, dir, n);
                        (p in image <==> Lookup(n, q).Some?)
                        && (p in image ==> image[p] == EntryOf(times, Lookup(n, q).value)
                                           && Copies(times, image[p], Lookup(n, q).value))
    ensures forall p :: p in Image(times, dir, n) ==> exists q :: Lookup(n, q).Some? && p == dir + [n.name] + q
  {
    hide Copies, EntryOf, Image, WellFormed;
    forall q
      ensures var p, image := dir + [n.name] + q, Image(times, dir, n);
              (p in image <==> Lookup(n, q).Some?)
              && (p in image ==> image[p] == EntryOf(times, Lookup(n, q).value)
                                 && Copies(times, image[p], Lookup(n, q).value))
    {
      ImageLookup(times, dir, n, q);
      if Lookup(n, q).Some? {
        EntryCopies(times, Lookup(n, q).value);
      }
    }
    ImageIsBelow(times, dir, n);
    forall p | p in Image(times, dir, n) ensures exists q :: Lookup(n, q).Some? && p == dir + [n.name] + q {
      var q := p[|dir| + 1..];
      assert dir + [n.name] == p[..|dir| + 1];
      assert p == dir + [n.name] + q;
      ImageLookup(times, dir, n, q);
    }
  }

  /** From before to after the tree n was copied into the directory at dir, and nothing else was changed. */
  ghost predicate Copied(times: bool, dir: Path, n: Node, before: map<Path, Entry>, after: map<Path, Entry>) {
    && (forall q :: var p := dir + [n.name] + q;
                    Lookup(n, q).Some? ==> p in after && Copies(times, after[p], Lookup(n, q).value))
    && (forall p :: p in before ==> p in after && after[p] == before[p])
    && (forall p :: p in after && p !in before ==> exists q :: Lookup(n, q).Some? && p == dir + [n.name] + q)
  }

  lemma ImageIsCopied(times: bool, dir: Path, n: Node, before: map<Path, Entry>)
    requires WellFormed(n) && Fresh(before, dir + [n.name])
    ensures Copied(times, dir, n, before, before + Image(times, dir, n))
  {
    hide Copies, EntryOf, Image, WellFormed;
    ImageIsTheTree(times, dir, n);
    ImageIsBelow(times, dir, n);
  }

  // ---- both ends

  /** A sink fed with the bytes of a tree. */
  lemma SinkTakesTree(recursive: bool, times: bool, n: Node, s: SinkState)
    requires s.input == Stream(times, n) && !s.timeSet
    requires WellFormed(n) && Travels(times, n) && HasPlace(s.disk, s.dir, n)
    requires (n.Dir? && recursive) || (n.File? && s.dir != [])
    ensures SinkRun(recursive, times, s) == Done(Receive(times, n, Ack(s)).(input := []), None)
  {
    hide SinkLoop;
    var state, a := ParserStart(recursive, times), Ack(s);
    var move := if times then StateStep(state, 0, TimesMessage(n)).value else Move(state, 0);
    assert a.input == Stream(times, n) + [];
    assert HasPlace(a.disk, a.dir, n);
    var end := Receive(times, n, a).(input := []);
    if n.File? {
      var move' := StateStep(move.state, move.depth, FileMessage(n)).value;
      FileReceived(times, n, state, 0, a, [], move, move');
      LineMissing(move'.state, move'.depth, end);
    } else {
      DirectoryReceived(times, n, state, 0, a, [], move);
      LineMissing(state, 0, end);
    }
  }

  /** What is found under a path carries the path's last name. */
  lemma {:induction false} LookupName(n: Node, p: Path)
    requires p != [] && Lookup(n, p).Some?
    ensures Lookup(n, p).value.name == Base(p)
    decreases |p|
  {
    ChildIsMember(n.children, p[0]);
    if |p| > 1 {
      LookupName(Child(n.children, p[0]).value, p[1..]);
    }
  }

  lemma {:induction false} LookupWellFormed(n: Node, p: Path)
    requires WellFormed(n) && Lookup(n, p).Some?
    ensures WellFormed(Lookup(n, p).value)
    decreases |p|
  {
    if p != [] {
      ChildIsMember(n.children, p[0]);
      LookupWellFormed(Child(n.children, p[0]).value, p[1..]);
    }
  }

  /** A source that gets its acks; for a directory it succeeds just if all of it can be read. */
  lemma SourceSendsTree(fs: SourceFs, recursive: bool, times: bool, s: SourceState, n: Node)
    requires WellFormed(fs.root) && fs.root.Dir? && Stat(fs, s.dir) == Some(n) && (n.Dir? ==> recursive)
    requires s.input == Zeros(1 + Acks(times, n))
    ensures var r := SourceRun(fs, recursive, times, s);
            if n.File? || Readable(fs, s.dir, n) then
              r == Sent(SourceState(s.dir, [], s.output + Stream(times, n)), None)
            else r.err.Some?
  {
    var a := s.(input := s.input[1..]);
    assert a.input[Acks(times, n)..] == [];
    if n.File? {
      LookupName(fs.root, s.dir);
      FileSentFrom(fs, times, a, n);
    } else {
      DirectorySent(fs, times, a, n);
    }
  }

  /**
   The transfer of a tree: fed with the sink's acks the source writes the bytes of the tree, fed with those
   bytes the sink sends these acks; neither reports an error, both directories end where they began, and the
   sink's disk has gained exactly the tree.
   */
  lemma Transfer(fs: SourceFs, from: Path, n: Node, recursive: bool, times: bool, base: Path, disk: Disk)
    requires WellFormed(fs.root) && fs.root.Dir? && Stat(fs, from) == Some(n)
    requires if n.Dir? then recursive && Readable(fs, from, n) else base != []
    requires Travels(times, n) && HasPlace(disk, base, n)
    ensures var acks := Zeros(1 + Acks(times, n));
            var source := SourceRun(fs, recursive, times, SourceState(from, acks, []));
            var sink := SinkRun(recursive, times, SinkState(base, false, 0, 0, source.s.output, [], disk));
            && source.err == None && sink.err == None
            && source.s.dir == from && source.s.input == []
            && sink.s.dir == base && sink.s.input == [] && !sink.s.timeSet
            && sink.s.output == acks
            && sink.s.disk == disk.(nodes := disk.nodes + Image(times, base, n))
            && Copied(times, base, n, disk.nodes, sink.s.disk.nodes)
  {
    hide SinkRun, SourceRun, Receive, Stream, Copied;
    LookupWellFormed(fs.root, from);
    ImageIsCopied(times, base, n, disk.nodes);
    var acks := Zeros(1 + Acks(times, n));
    SourceSendsTree(fs, recursive, times, SourceState(from, acks, []), n);
    assert [] + Stream(times, n) == Stream(times, n);
    var s := SinkState(base, false, 0, 0, Stream(times, n), [], disk);
    SinkTakesTree(recursive, times, n, s);
    Received(times, n, Ack(s));
    ZerosAdd(1, Acks(times, n));
    assert [] + [0] == Zeros(1);
  }

  /**
   A recursive sink with times that gets a file and then an E message takes both without an error, and ends in the
   parent of its directory.
   */
  lemma EndAfterAFile(n: Node, s: SinkState)
    requires s.input == Stream(true, n) + Print(EMsg) && !s.timeSet && s.dir != []
    requires n.File? && Travels(true, n) && HasPlace(s.disk, s.dir, n)
    ensures var r := SinkRun(true, true, s);
            && r.err == None && r.s.dir == Parent(s.dir) != s.dir
            && r.s.disk == s.disk.(nodes := s.disk.nodes + Image(true, s.dir, n))
  {
    hide SinkLoop, Stream, HasPlace, Travels, Image;
    var a := Ack(s);
    FileReceived(true, n, RecurseTimesCDT, 0, a, Print(EMsg), Move(RecurseTimesCD, 0), Move(RecurseTimesCDET, 0));
    Received(true, n, a);
    var s1 := Receive(true, n, a).(input := Print(EMsg));
    assert Print(EMsg) + [] == Print(EMsg);
    OneMessage(RecurseTimesCDET, 0, s1, EMsg, []);
    LineMissing(RecurseTimesCDET, -1, Ack(s1.(dir := Parent(s1.dir), input := [])));
  }

  /**
   At the root the sink joins a file's name twice, and where nothing of that name was before, it cannot open the
   result.
   */
  lemma FileAtRoot(times: bool, recursive: bool, n: Node, s: SinkState)
    requires s.input == Stream(times, n) && !s.timeSet && s.dir == []
    requires n.File? && Travels(times, n) && HasPlace(s.disk, s.dir, n)
    ensures TargetPath(s.dir, n.name) == [n.name, n.name]
    ensures SinkRun(recursive, times, s).err == Some(OpenFailed)
  {
    hide SinkLoop;
    FileAtRootNotOpened(times, n, s);
    var state, a := ParserStart(recursive, times), Ack(s);
    var move := if times then StateStep(state, 0, TimesMessage(n)).value else Move(state, 0);
    var rest := n.content + ([0] + []);
    FileStream(times, n, []);
    assert a.input == Stream(times, n) + [];
    var a' := a.(input := Print(FileMessage(n)) + rest);
    StampRead(times, n, state, 0, a, a'.input, move);
    OneMessage(move.state, move.depth, Stamped(times, n, a'), FileMessage(n), rest);
    FileAtRootNotOpened(times, n, a.(input := rest));
    assert Stamped(times, n, a').(input := rest) == Stamped(times, n, a.(input := rest));
  }

  /** Where nothing of its name was before, a file is taken if and only if the sink's directory is not the root. */
  lemma FileTakenExactlyIf(times: bool, recursive: bool, n: Node, s: SinkState)
    requires s.input == Stream(times, n) && !s.timeSet
    requires n.File? && Travels(times, n) && HasPlace(s.disk, s.dir, n)
    ensures SinkRun(recursive, times, s).err == None <==> s.dir != []
  {
    if s.dir == [] {
      FileAtRoot(times, recursive, n, s);
    } else {
      SinkTakesTree(recursive, times, n, s);
    }
  }

  lemma FileAtRootNotOpened(times: bool, n: Node, s: SinkState)
    requires s.dir == [] && n.File? && Travels(times, n) && HasPlace(s.disk, s.dir, n)
    ensures TargetPath(s.dir, n.name) == [n.name, n.name]
    ensures ProcessC(Stamped(times, n, s), FileMessage(n)) == Done(Stamped(times, n, s), Some(OpenFailed))
  {
    JoinPlain([], n.name);
    JoinPlain([n.name], n.name);
    assert Parent([n.name, n.name]) == [n.name] == [] + [n.name];
  }
}
