/**
 What a sink makes of a tree where something is already: a file gets new content and keeps its mode, a directory is
 kept and gets the entries it has not, and where one is in the place of the other the sink fails.
 */
module ScpOverwrite {
  import opened Options
  import opened ScpUtf8
  import opened ScpMessages
  import opened ScpPaths
  import opened ScpDisk
  import opened ScpSink
  import opened ScpSource
  import opened ScpSend
  import opened ScpReceive
  import opened ScpTransfer

  type Nodes = map<Path, Entry>

  // ---- a tree put over what is there

  /** Neither is a file in the place of a directory, nor a directory in that of a file. */
  predicate Mergeable(nodes: Nodes, dir: Path, n: Node)
    decreases n
  {
    var p := dir + [n.name];
    match n
    case File(_, _, _, _, _) => p in nodes ==> nodes[p].FileEntry?
    case Dir(_, _, _, children) =>
      (p in nodes ==> nodes[p].DirEntry?) && forall c :: c in children ==> Mergeable(nodes, p, c)
  }

  /** What is at p after n has been put there. */
  function EntryOnto(times: bool, n: Node, nodes: Nodes, p: Path): Entry {
    if p !in nodes then EntryOf(times, n)
    else
      var t := if times then Some(n.times) else nodes[p].times;
      if n.File? then FileEntry(nodes[p].mode, n.content, t) else DirEntry(nodes[p].mode, t)
  }

  function Merge(times: bool, nodes: Nodes, dir: Path, n: Node): Nodes
    decreases n
  {
    var p := dir + [n.name];
    var nodes' := nodes[p := EntryOnto(times, n, nodes, p)];
    if n.File? then nodes' else MergeAll(times, nodes', p, n.children)
  }

  function MergeAll(times: bool, nodes: Nodes, dir: Path, ns: seq<Node>): Nodes
    decreases ns
  {
    if ns == [] then nodes else MergeAll(times, Merge(times, nodes, dir, ns[0]), dir, ns[1..])
  }

  /** The same at and below p. */
  ghost predicate SameFrom(a: Nodes, b: Nodes, p: Path) {
    forall q :: p <= q ==> (q in a <==> q in b) && (q in a ==> a[q] == b[q])
  }

  /** The same, but for what is at and below p. */
  ghost predicate SameBeside(a: Nodes, b: Nodes, p: Path) {
    forall q :: !(p <= q) ==> (q in a <==> q in b) && (q in a ==> a[q] == b[q])
  }

  lemma {:induction false} MergeStaysBelow(times: bool, nodes: Nodes, dir: Path, n: Node)
    ensures SameBeside(nodes, Merge(times, nodes, dir, n), dir + [n.name])
    decreases n
  {
    var p := dir + [n.name];
    var nodes' := nodes[p := EntryOnto(times, n, nodes, p)];
    assert SameBeside(nodes, nodes', p);
    if n.Dir? {
      MergesStayBelow(times, nodes', p, n.children);
    }
  }

  lemma {:induction false} MergesStayBelow(times: bool, nodes: Nodes, dir: Path, ns: seq<Node>)
    ensures SameBeside(nodes, MergeAll(times, nodes, dir, ns), dir)
    ensures var m := MergeAll(times, nodes, dir, ns);
            (dir in m <==> dir in nodes) && (dir in nodes ==> m[dir] == nodes[dir])
    decreases ns
  {
    if ns != [] {
      var nodes' := Merge(times, nodes, dir, ns[0]);
      MergeStaysBelow(times, nodes, dir, ns[0]);
      MergesStayBelow(times, nodes', dir, ns[1..]);
      forall q | !(dir <= q) ensures (q in nodes <==> q in nodes') && (q in nodes ==> nodes[q] == nodes'[q]) {
        PrefixOfPrefix(dir, ns[0].name, q);
      }
    }
  }

  lemma {:induction false} MergeableFrom(a: Nodes, b: Nodes, dir: Path, n: Node)
    requires SameFrom(a, b, dir + [n.name])
    ensures Mergeable(a, dir, n) <==> Mergeable(b, dir, n)
    decreases n
  {
    var p := dir + [n.name];
    if n.Dir? {
      forall c | c in n.children ensures Mergeable(a, p, c) <==> Mergeable(b, p, c) {
        SameFromFurther(a, b, p, c.name);
        MergeableFrom(a, b, p, c);
      }
    }
  }

  lemma SameFromFurther(a: Nodes, b: Nodes, p: Path, name: bytes)
    requires forall q :: p <= q && q != p ==> (q in a <==> q in b) && (q in a ==> a[q] == b[q])
    ensures SameFrom(a, b, p + [name])
  {
    forall q | p + [name] <= q ensures (q in a <==> q in b) && (q in a ==> a[q] == b[q]) {
      PrefixOfPrefix(p, name, q);
    }
  }

  /** A directory that has been entered has room for its entries exactly if it had. */
  lemma MergeableInside(times: bool, nodes: Nodes, dir: Path, n: Node, c: Node)
    requires n.Dir? && c in n.children
    ensures var p := dir + [n.name];
            Mergeable(nodes[p := EntryOnto(times, n, nodes, p)], p, c) <==> Mergeable(nodes, p, c)
  {
    var p := dir + [n.name];
    SameFromFurther(nodes, nodes[p := EntryOnto(times, n, nodes, p)], p, c.name);
    MergeableFrom(nodes, nodes[p := EntryOnto(times, n, nodes, p)], p, c);
  }

  lemma OneNameOnly(dir: Path, a: bytes, b: bytes, q: Path)
    requires a != b && dir + [a] <= q
    ensures !(dir + [b] <= q)
  {
    assert q[|dir|] == (dir + [a])[|dir|] == a && (dir + [b])[|dir|] == b;
  }

  /** Merging a tree leaves the room of its siblings. */
  lemma MergeableBeside(times: bool, nodes: Nodes, dir: Path, n: Node, c: Node)
    requires n.name != c.name
    ensures Mergeable(Merge(times, nodes, dir, n), dir, c) <==> Mergeable(nodes, dir, c)
  {
    var m := Merge(times, nodes, dir, n);
    MergeStaysBelow(times, nodes, dir, n);
    forall q | dir + [c.name] <= q ensures (q in nodes <==> q in m) && (q in nodes ==> nodes[q] == m[q]) {
      OneNameOnly(dir, c.name, n.name, q);
    }
    MergeableFrom(nodes, m, dir, c);
  }

  // ---- the result, path by path

  /** After merging, each path of the tree has its entry put over what was there, and all others are as before. */
  lemma {:induction false} MergeIsTheTree(times: bool, nodes: Nodes, dir: Path, n: Node, q: Path)
    requires WellFormed(n)
    ensures var p, m := dir + [n.name] + q, Merge(times, nodes, dir, n);
            if Lookup(n, q).Some? then p in m && m[p] == EntryOnto(times, Lookup(n, q).value, nodes, p)
            else (p in m <==> p in nodes) && (p in nodes ==> m[p] == nodes[p])
    decreases n
  {
    var p0 := dir + [n.name];
    var nodes' := nodes[p0 := EntryOnto(times, n, nodes, p0)];
    if q == [] {
      assert p0 + q == p0;
      if n.Dir? {
        MergesStayBelow(times, nodes', p0, n.children);
      }
    } else {
      assert p0 + q != p0;
      if n.Dir? {
        MergesAreTheTrees(times, nodes', p0, n.children, q);
      }
    }
  }

  lemma {:induction false} MergesAreTheTrees(times: bool, nodes: Nodes, dir: Path, ns: seq<Node>, q: Path)
    requires q != [] && forall c :: c in ns ==> WellFormed(c)
    requires forall i, j :: 0 <= i < j < |ns| ==> ns[i].name != ns[j].name
    ensures var p, m, c := dir + q, MergeAll(times, nodes, dir, ns), Child(ns, q[0]);
            if c.Some? && Lookup(c.value, q[1..]).Some?
            then p in m && m[p] == EntryOnto(times, Lookup(c.value, q[1..]).value, nodes, p)
            else (p in m <==> p in nodes) && (p in nodes ==> m[p] == nodes[p])
    decreases ns
  {
    if ns != [] {
      var p, nodes' := dir + q, Merge(times, nodes, dir, ns[0]);
      MergesAreTheTrees(times, nodes', dir, ns[1..], q);
      if ns[0].name == q[0] {
        NoSuchChild(ns[1..], q[0]);
        MergeIsTheTree(times, nodes, dir, ns[0], q[1..]);
        assert dir + [ns[0].name] + q[1..] == p;
      } else {
        MergeStaysBelow(times, nodes, dir, ns[0]);
        assert p[|dir|] == q[0];
        assert !(dir + [ns[0].name] <= p);
      }
    }
  }

  lemma {:induction false} NoSuchChild(ns: seq<Node>, name: bytes)
    requires forall i :: 0 <= i < |ns| ==> ns[i].name != name
    ensures Child(ns, name).None?
    decreases ns
  {
    if ns != [] {
      NoSuchChild(ns[1..], name);
    }
  }

  // ---- the sink

  /** The sink after the messages that announce n. */
  function EnteredOnto(times: bool, n: Node, s: SinkState): SinkState {
    var p := s.dir + [n.name];
    Ack(Stamped(times, n, s).(timeSet := false, disk := Put(s.disk, p, EntryOnto(times, n, s.disk.nodes, p))))
  }

  /** The sink's state after n, the input aside. */
  function ReceiveOnto(times: bool, n: Node, s: SinkState): SinkState
    decreases n
  {
    var s' := EnteredOnto(times, n, s);
    if n.File? then Ack(s')
    else Ack(ReceiveAllOnto(times, n.children, s'.(dir := s.dir + [n.name])).(dir := s.dir))
  }

  function ReceiveAllOnto(times: bool, ns: seq<Node>, s: SinkState): SinkState
    decreases ns
  {
    if ns == [] then s else ReceiveAllOnto(times, ns[1..], ReceiveOnto(times, ns[0], s))
  }

  /** From s to r, k acks were sent and the disk has become nodes; all else is as before. */
  ghost predicate Became(s: SinkState, r: SinkState, k: nat, nodes: Nodes) {
    && r.dir == s.dir && r.input == s.input && !r.timeSet
    && r.output == s.output + Zeros(k)
    && r.disk == s.disk.(nodes := nodes)
  }

  lemma {:induction false} ReceivedOnto(times: bool, n: Node, s: SinkState)
    ensures Became(s, ReceiveOnto(times, n, s), Acks(times, n), Merge(times, s.disk.nodes, s.dir, n))
    decreases n
  {
    var p, k := s.dir + [n.name], if times then 2 else 1;
    var s' := EnteredOnto(times, n, s);
    assert Zeros(1) == [0] && Zeros(2) == [0] + [0];
    assert s'.output == s.output + Zeros(k);
    if n.File? {
      ZerosAdd(k, 1);
      assert s.output + Zeros(k) + [0] == s.output + (Zeros(k) + [0]);
    } else {
      var ka := AcksAll(times, n.children);
      ReceivedAllOnto(times, n.children, s'.(dir := p));
      ZerosAdd(k, ka);
      ZerosAdd(k + ka, 1);
      assert s.output + Zeros(k) + Zeros(ka) + [0] == s.output + ((Zeros(k) + Zeros(ka)) + [0]);
    }
  }

  lemma {:induction false} ReceivedAllOnto(times: bool, ns: seq<Node>, s: SinkState)
    requires !s.timeSet
    ensures Became(s, ReceiveAllOnto(times, ns, s), AcksAll(times, ns), MergeAll(times, s.disk.nodes, s.dir, ns))
    decreases ns
  {
    if ns == [] {
      assert s.output + Zeros(0) == s.output;
    } else {
      var a, b := Acks(times, ns[0]), AcksAll(times, ns[1..]);
      ReceivedOnto(times, ns[0], s);
      ReceivedAllOnto(times, ns[1..], ReceiveOnto(times, ns[0], s));
      ZerosAdd(a, b);
      assert s.output + Zeros(a) + Zeros(b) == s.output + (Zeros(a) + Zeros(b));
    }
  }

  /** A disk that takes whatever it is given, with a directory at dir. */
  predicate Takes(d: Disk, dir: Path) {
    NoFaults(d) && IsDir(d.nodes, dir)
  }

  /** A file comes over another one, or where nothing is; over a directory it cannot be opened. */
  lemma FileOverwritten(times: bool, n: Node, s: SinkState, tail: bytes)
    requires n.File? && Travels(times, n) && !s.timeSet && s.dir != [] && Takes(s.disk, s.dir)
    requires s.input == n.content + ([0] + tail)
    ensures var done := ProcessC(Stamped(times, n, s), FileMessage(n));
            if Mergeable(s.disk.nodes, s.dir, n) then done == Done(ReceiveOnto(times, n, s).(input := tail), None)
            else done.err == Some(OpenFailed)
  {
    var p, st, m := s.dir + [n.name], Stamped(times, n, s), FileMessage(n);
    JoinPlain(s.dir, n.name);
    assert Parent(p) == s.dir by { assert p[..|s.dir|] == s.dir; }
    assert TargetPath(s.dir, n.name) == p && p != [];
    if Mergeable(s.disk.nodes, s.dir, n) {
      var e := if p in s.disk.nodes then s.disk.nodes[p].(content := []) else FileEntry(m.mode, [], None);
      var d := Put(s.disk, p, e);
      assert OpenFile(st.disk, p, m.mode) == Some(d);
      assert CopyLimit(m.length) == |n.content| && s.input[..|n.content|] == n.content;
      assert s.input[|n.content|..] == [0] + tail && ([0] + tail)[1..] == tail;
      assert [] + n.content == n.content;
      assert Write(d, p, n.content).disk == Put(s.disk, p, e.(content := n.content));
    }
  }

  /** A directory that is there is kept; where a file is, none can be made. */
  lemma DirectoryKept(times: bool, n: Node, s: SinkState)
    requires n.Dir? && Announced(times, n) && !s.timeSet && Takes(s.disk, s.dir)
    ensures var p, done := s.dir + [n.name], ProcessD(Stamped(times, n, s), DirMessage(n));
            if p in s.disk.nodes && s.disk.nodes[p].FileEntry? then done.err == Some(MkdirFailed)
            else done == Done(EnteredOnto(times, n, s).(dir := p), None)
  {
    var p, m := s.dir + [n.name], DirMessage(n);
    JoinPlain(s.dir, n.name);
    assert Parent(p) == s.dir && p != [];
    if p in s.disk.nodes {
      if s.disk.nodes[p].DirEntry? {
        assert MkdirAll(s.disk, p, m.mode) == Some(s.disk);
        assert Put(s.disk, p, s.disk.nodes[p]) == s.disk;
      }
    } else {
      assert MkdirAll(s.disk, s.dir, m.mode) == Some(s.disk);
      assert MkdirAll(s.disk, p, m.mode) == Some(Put(s.disk, p, DirEntry(m.mode, None)));
    }
  }

  /** Inside a directory, the sink merges a node into what is there, or fails if the two do not go together. */
  lemma {:induction false} NodeOnto(times: bool, n: Node, depth: int, s: SinkState, tail: bytes)
    requires s.input == Stream(times, n) + tail && depth >= 1 && s.dir != []
    requires WellFormed(n) && Travels(times, n) && !s.timeSet && Takes(s.disk, s.dir)
    ensures var r := SinkLoop(Inside(times), depth, s);
            if Mergeable(s.disk.nodes, s.dir, n) then
              r == SinkLoop(Inside(times), depth, ReceiveOnto(times, n, s).(input := tail))
            else r.err.Some?
    decreases n, 1
  {
    hide SinkLoop, Stream, ReceiveOnto, WellFormed, Travels, Takes, Mergeable;
    var move := if times then Move(RecurseTimesCD, depth) else Move(RecurseNoTimesCDE, depth);
    if n.File? {
      FileOnto(times, n, Inside(times), depth, s, tail, move, Move(Inside(times), depth));
    } else {
      DirectoryOnto(times, n, Inside(times), depth, s, tail, move);
    }
  }

  /** The sink reads a file, in any state of the machine that accepts it. */
  lemma FileOnto(times: bool, n: Node, state: ParserState, depth: int, s: SinkState, tail: bytes, move: Move,
                 move': Move)
    requires s.input == Stream(times, n) + tail
    requires n.File? && Travels(times, n) && !s.timeSet && s.dir != [] && Takes(s.disk, s.dir)
    requires if times then StateStep(state, depth, TimesMessage(n)) == Some(move) else move == Move(state, depth)
    requires StateStep(move.state, move.depth, FileMessage(n)) == Some(move')
    ensures var r := SinkLoop(state, depth, s);
            if Mergeable(s.disk.nodes, s.dir, n) then
              r == SinkLoop(move'.state, move'.depth, ReceiveOnto(times, n, s).(input := tail))
            else r.err.Some?
  {
    hide SinkLoop, Mergeable;
    var rest := n.content + ([0] + tail);
    FileStream(times, n, tail);
    var s1 := s.(input := Print(FileMessage(n)) + rest);
    StampRead(times, n, state, depth, s, s1.input, move);
    OneMessage(move.state, move.depth, Stamped(times, n, s1), FileMessage(n), rest);
    var s2 := s.(input := rest);
    assert Stamped(times, n, s1).(input := rest) == Stamped(times, n, s2);
    FileOverwritten(times, n, s2, tail);
    assert ReceiveOnto(times, n, s2).(input := tail) == ReceiveOnto(times, n, s).(input := tail);
  }

  /** The sink reads a directory's announcement, in any state that accepts it. */
  lemma DirectoryEnteredOnto(times: bool, n: Node, state: ParserState, depth: int, s: SinkState, rest: bytes,
                             move: Move, move': Move)
    requires s.input == Stamp(times, n) + (Print(DirMessage(n)) + rest)
    requires n.Dir? && Announced(times, n) && !s.timeSet && Takes(s.disk, s.dir)
    requires if times then StateStep(state, depth, TimesMessage(n)) == Some(move) else move == Move(state, depth)
    requires StateStep(move.state, move.depth, DirMessage(n)) == Some(move')
    ensures var p, r := s.dir + [n.name], SinkLoop(state, depth, s);
            if p in s.disk.nodes && s.disk.nodes[p].FileEntry? then r.err.Some?
            else r == SinkLoop(move'.state, move'.depth, EnteredOnto(times, n, s).(dir := p, input := rest))
  {
    hide SinkLoop;
    var s1, s2 := s.(input := Print(DirMessage(n)) + rest), s.(input := rest);
    StampRead(times, n, state, depth, s, s1.input, move);
    OneMessage(move.state, move.depth, Stamped(times, n, s1), DirMessage(n), rest);
    assert Stamped(times, n, s1).(input := rest) == Stamped(times, n, s2);
    DirectoryKept(times, n, s2);
  }

  /** A directory read at depth 0 or more ends where it began. */
  lemma {:induction false} DirectoryOnto(times: bool, n: Node, state: ParserState, depth: int, s: SinkState,
                                         tail: bytes, move: Move)
    requires s.input == Stream(times, n) + tail && depth >= 0
    requires n.Dir? && WellFormed(n) && Travels(times, n) && !s.timeSet && Takes(s.disk, s.dir)
    requires if times then StateStep(state, depth, TimesMessage(n)) == Some(move) else move == Move(state, depth)
    requires StateStep(move.state, move.depth, DirMessage(n)) == Some(Move(Inside(times), depth + 1))
    ensures var end := if depth == 0 then ParserStart(true, times) else Inside(times);
            var r := SinkLoop(state, depth, s);
            if Mergeable(s.disk.nodes, s.dir, n) then
              r == SinkLoop(end, depth, ReceiveOnto(times, n, s).(input := tail))
            else r.err.Some?
    decreases n, 0, 1
  {
    hide SinkLoop, Stream, StreamAll, Stamp, Print, ReceiveOnto, EnteredOnto, WellFormed, StateStep;
    var p := s.dir + [n.name];
    var rest := StreamAll(times, n.children) + (Print(EMsg) + tail);
    DirStream(times, n, tail);
    DirectoryEnteredOnto(times, n, state, depth, s, rest, move, Move(Inside(times), depth + 1));
    if !(p in s.disk.nodes && s.disk.nodes[p].FileEntry?) {
      EntriesOnto(times, n, depth, s, tail);
    }
  }

  /** The entries of a directory that has been entered, and its end. */
  lemma {:induction false} EntriesOnto(times: bool, n: Node, depth: int, s: SinkState, tail: bytes)
    requires n.Dir? && WellFormed(n) && Travels(times, n) && !s.timeSet && Takes(s.disk, s.dir) && depth >= 0
    requires var p := s.dir + [n.name]; p in s.disk.nodes ==> s.disk.nodes[p].DirEntry?
    ensures var p, rest := s.dir + [n.name], StreamAll(times, n.children) + (Print(EMsg) + tail);
            var r := SinkLoop(Inside(times), depth + 1, EnteredOnto(times, n, s).(dir := p, input := rest));
            var end := if depth == 0 then ParserStart(true, times) else Inside(times);
            if Mergeable(s.disk.nodes, s.dir, n) then
              r == SinkLoop(end, depth, ReceiveOnto(times, n, s).(input := tail))
            else r.err.Some?
    decreases n, 0, 0
  {
    hide SinkLoop, StreamAll, Print, Travels, WellFormed, Mergeable, EnteredOnto, ReceiveOnto, ReceiveAllOnto, Takes,
         ParserStart, Inside;
    var p, rest := s.dir + [n.name], StreamAll(times, n.children) + (Print(EMsg) + tail);
    var s1 := EnteredOnto(times, n, s).(dir := p, input := rest);
    EntriesMergeable(times, n, s);
    EntriesTravel(times, n);
    EnteredTakes(times, n, s);
    ChildrenOnto(times, n.children, depth + 1, s1, Print(EMsg) + tail);
    if Mergeable(s.disk.nodes, s.dir, n) {
      var s2 := ReceiveAllOnto(times, n.children, s1);
      DirectoryLeft(times, depth, s2.(input := Print(EMsg) + tail), tail);
      DirectoryDone(times, n, s, rest, tail);
    }
  }

  /** A directory can be merged if its entries can. */
  lemma EntriesMergeable(times: bool, n: Node, s: SinkState)
    requires n.Dir?
    requires var p := s.dir + [n.name]; p in s.disk.nodes ==> s.disk.nodes[p].DirEntry?
    ensures Mergeable(s.disk.nodes, s.dir, n) <==>
            forall c :: c in n.children ==> Mergeable(EnteredOnto(times, n, s).disk.nodes, s.dir + [n.name], c)
  {
    var p := s.dir + [n.name];
    forall c | c in n.children
      ensures Mergeable(EnteredOnto(times, n, s).disk.nodes, p, c) <==> Mergeable(s.disk.nodes, p, c)
    {
      MergeableInside(times, s.disk.nodes, s.dir, n, c);
    }
  }

  lemma EnteredTakes(times: bool, n: Node, s: SinkState)
    requires n.Dir? && Takes(s.disk, s.dir)
    requires var p := s.dir + [n.name]; p in s.disk.nodes ==> s.disk.nodes[p].DirEntry?
    ensures Takes(EnteredOnto(times, n, s).disk, s.dir + [n.name]) && !EnteredOnto(times, n, s).timeSet
  {
  }

  /** What the sink is after the entries and the E message of a directory. */
  lemma DirectoryDone(times: bool, n: Node, s: SinkState, rest: bytes, tail: bytes)
    requires n.Dir?
    ensures var p := s.dir + [n.name];
            var s2 := ReceiveAllOnto(times, n.children, EnteredOnto(times, n, s).(dir := p, input := rest));
            Ack(s2.(dir := Parent(s2.dir), input := tail)) == ReceiveOnto(times, n, s).(input := tail)
  {
    hide EnteredOnto, Merge, MergeAll, EntryOnto;
    var p := s.dir + [n.name];
    var s1 := EnteredOnto(times, n, s).(dir := p);
    InputAsideOnto(times, n.children, s1, rest);
    EnteredIsNotTimed(times, n, s);
    ReceivedAllOnto(times, n.children, s1);
    assert Parent(p) == s.dir by { assert p[..|s.dir|] == s.dir; }
  }

  lemma EnteredIsNotTimed(times: bool, n: Node, s: SinkState)
    ensures !EnteredOnto(times, n, s).timeSet
  {
  }

  lemma EntriesTravel(times: bool, n: Node)
    requires n.Dir? && Travels(times, n) && WellFormed(n)
    ensures forall c :: c in n.children ==> Travels(times, c) && WellFormed(c)
    ensures forall i, j :: 0 <= i < j < |n.children| ==> n.children[i].name != n.children[j].name
  {
  }

  lemma {:induction false} ChildrenOnto(times: bool, ns: seq<Node>, depth: int, s: SinkState, tail: bytes)
    requires s.input == StreamAll(times, ns) + tail && depth >= 1 && s.dir != [] && !s.timeSet
    requires Takes(s.disk, s.dir) && forall c :: c in ns ==> WellFormed(c) && Travels(times, c)
    requires forall i, j :: 0 <= i < j < |ns| ==> ns[i].name != ns[j].name
    ensures var r := SinkLoop(Inside(times), depth, s);
            if forall c :: c in ns ==> Mergeable(s.disk.nodes, s.dir, c) then
              r == SinkLoop(Inside(times), depth, ReceiveAllOnto(times, ns, s).(input := tail))
            else r.err.Some?
    decreases ns
  {
    hide SinkLoop, Stream, ReceiveOnto, Merge, Mergeable, WellFormed, Travels;
    if ns == [] {
      assert StreamAll(times, ns) + tail == tail;
    } else {
      var rest := StreamAll(times, ns[1..]) + tail;
      assert StreamAll(times, ns) + tail == Stream(times, ns[0]) + rest;
      NodeOnto(times, ns[0], depth, s, rest);
      if Mergeable(s.disk.nodes, s.dir, ns[0]) {
        var s1 := ReceiveOnto(times, ns[0], s);
        ReceivedOnto(times, ns[0], s);
        StillTakes(times, ns[0], s);
        SiblingsMergeable(times, ns, s);
        ChildrenOnto(times, ns[1..], depth, s1.(input := rest), tail);
        InputAsideOnto(times, ns[1..], s1, rest);
      } else {
        assert ns[0] in ns;
      }
    }
  }

  lemma StillTakes(times: bool, n: Node, s: SinkState)
    requires Takes(s.disk, s.dir)
    ensures Takes(s.disk.(nodes := Merge(times, s.disk.nodes, s.dir, n)), s.dir)
  {
    MergeStaysBelow(times, s.disk.nodes, s.dir, n);
    assert !(s.dir + [n.name] <= s.dir);
  }

  lemma SiblingsMergeable(times: bool, ns: seq<Node>, s: SinkState)
    requires ns != [] && Mergeable(s.disk.nodes, s.dir, ns[0])
    requires forall i, j :: 0 <= i < j < |ns| ==> ns[i].name != ns[j].name
    ensures var nodes := Merge(times, s.disk.nodes, s.dir, ns[0]);
            (forall c :: c in ns ==> Mergeable(s.disk.nodes, s.dir, c)) <==>
            (forall c :: c in ns[1..] ==> Mergeable(nodes, s.dir, c))
  {
    hide Merge, Mergeable;
    var nodes := Merge(times, s.disk.nodes, s.dir, ns[0]);
    forall c | c in ns[1..] ensures Mergeable(nodes, s.dir, c) <==> Mergeable(s.disk.nodes, s.dir, c) {
      MergeableBeside(times, s.disk.nodes, s.dir, ns[0], c);
    }
    assert ns == [ns[0]] + ns[1..];
    assert forall c :: c in ns <==> c == ns[0] || c in ns[1..];
  }

  lemma {:induction false} InputAsideOnto(times: bool, ns: seq<Node>, s: SinkState, input: bytes)
    ensures ReceiveAllOnto(times, ns, s.(input := input)) == ReceiveAllOnto(times, ns, s).(input := input)
    decreases ns
  {
    if ns != [] {
      InputAsideOneOnto(times, ns[0], s, input);
      InputAsideOnto(times, ns[1..], ReceiveOnto(times, ns[0], s), input);
    }
  }

  lemma {:induction false} InputAsideOneOnto(times: bool, n: Node, s: SinkState, input: bytes)
    ensures ReceiveOnto(times, n, s.(input := input)) == ReceiveOnto(times, n, s).(input := input)
    decreases n
  {
    if n.Dir? {
      InputAsideOnto(times, n.children, EnteredOnto(times, n, s).(dir := s.dir + [n.name]), input);
    }
  }

  /**
   A sink that gets the bytes of a tree, whatever is on its disk, ends without an error if and only if nowhere a file
   and a directory come in each other's place; then its disk has the tree merged into what was there (see
   MergeIsTheTree), its directory is where it was, and it has sent the acks of the tree.
   */
  lemma TreeMergedExactlyIf(recursive: bool, times: bool, n: Node, s: SinkState)
    requires s.input == Stream(times, n) && !s.timeSet
    requires WellFormed(n) && Travels(times, n) && Takes(s.disk, s.dir)
    requires (n.Dir? && recursive) || (n.File? && s.dir != [])
    ensures var r := SinkRun(recursive, times, s);
            && (r.err == None <==> Mergeable(s.disk.nodes, s.dir, n))
            && (r.err == None ==>
                  && r.s.dir == s.dir && r.s.input == [] && !r.s.timeSet
                  && r.s.output == s.output + Zeros(1 + Acks(times, n))
                  && r.s.disk == s.disk.(nodes := Merge(times, s.disk.nodes, s.dir, n)))
  {
    hide SinkLoop, Stream, ReceiveOnto, Merge, Mergeable, WellFormed, Travels;
    var state, a := ParserStart(recursive, times), Ack(s);
    var move := if times then StateStep(state, 0, TimesMessage(n)).value else Move(state, 0);
    assert a.input == Stream(times, n) + [];
    assert Takes(a.disk, a.dir);
    var end := ReceiveOnto(times, n, a).(input := []);
    ReceivedOnto(times, n, a);
    ZerosAdd(1, Acks(times, n));
    assert s.output + [0] + Zeros(Acks(times, n)) == s.output + (Zeros(1) + Zeros(Acks(times, n)));
    if n.File? {
      var move' := StateStep(move.state, move.depth, FileMessage(n)).value;
      FileOnto(times, n, state, 0, a, [], move, move');
      LineMissing(move'.state, move'.depth, end);
    } else {
      DirectoryOnto(times, n, state, 0, a, [], move);
      LineMissing(state, 0, end);
    }
  }
}
