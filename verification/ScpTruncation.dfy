/**
 A transfer that breaks off: whatever prefix of the bytes of a tree the sink gets, its disk gains a prefix of
 the tree's entries in the order they are sent, all complete but the last, which may be a file cut short.
 */
module ScpTruncation {
  import opened Options
  import opened ScpUtf8
  import opened ScpMessages
  import opened ScpRoundTrip
  import opened ScpPaths
  import opened ScpDisk
  import opened ScpSink
  import opened ScpSource
  import opened ScpSend
  import opened ScpReceive
  import opened ScpTransfer

  datatype Placed = Placed(path: Path, entry: Entry)

  /** The entries of n, in the order the source sends them, when n is put into the directory at dir. */
  function Entries(times: bool, dir: Path, n: Node): (es: seq<Placed>)
    ensures es != []
    decreases n
  {
    [Placed(dir + [n.name], EntryOf(times, n))] +
    if n.Dir? then EntriesOf(times, dir + [n.name], n.children) else []
  }

  function EntriesOf(times: bool, dir: Path, ns: seq<Node>): seq<Placed>
    decreases ns
  {
    if ns == [] then [] else Entries(times, dir, ns[0]) + EntriesOf(times, dir, ns[1..])
  }

  /** Putting the entries on a disk, one after the other. */
  function Overlay(nodes: map<Path, Entry>, es: seq<Placed>): map<Path, Entry>
    decreases |es|
  {
    if es == [] then nodes else Overlay(nodes[es[0].path := es[0].entry], es[1..])
  }

  lemma {:induction false} OverlayAppend(nodes: map<Path, Entry>, a: seq<Placed>, b: seq<Placed>)
    ensures Overlay(nodes, a + b) == Overlay(Overlay(nodes, a), b)
    decreases |a|
  {
    if a == [] {
      assert a + b == b;
    } else {
      OverlayAppend(nodes[a[0].path := a[0].entry], a[1..], b);
      assert (a + b)[1..] == a[1..] + b;
    }
  }

  /** All entries together are the image of the tree. */
  lemma {:induction false} EntriesAreTheImage(times: bool, dir: Path, n: Node, nodes: map<Path, Entry>)
    ensures Overlay(nodes, Entries(times, dir, n)) == nodes + Image(times, dir, n)
    decreases n
  {
    var p, e := dir + [n.name], EntryOf(times, n);
    var nodes' := nodes[p := e];
    assert nodes' == nodes + map[p := e];
    assert Entries(times, dir, n)[1..] == if n.Dir? then EntriesOf(times, p, n.children) else [];
    if n.Dir? {
      EntriesOfAreTheImage(times, p, n.children, nodes');
      MapAssoc(nodes, map[p := e], ImageAll(times, p, n.children));
    }
  }

  lemma MapAssoc(a: map<Path, Entry>, b: map<Path, Entry>, c: map<Path, Entry>)
    ensures (a + b) + c == a + (b + c)
  {
  }

  lemma {:induction false} EntriesOfAreTheImage(times: bool, dir: Path, ns: seq<Node>, nodes: map<Path, Entry>)
    ensures Overlay(nodes, EntriesOf(times, dir, ns)) == nodes + ImageAll(times, dir, ns)
    decreases ns
  {
    if ns != [] {
      OverlayAppend(nodes, Entries(times, dir, ns[0]), EntriesOf(times, dir, ns[1..]));
      EntriesAreTheImage(times, dir, ns[0], nodes);
      EntriesOfAreTheImage(times, dir, ns[1..], nodes + Image(times, dir, ns[0]));
      MapAssoc(nodes, Image(times, dir, ns[0]), ImageAll(times, dir, ns[1..]));
    }
  }

  /** b is the entry a, or the file a with only a first part of its content. */
  ghost predicate CutEntry(a: Placed, b: Placed) {
    a == b || (a.path == b.path && a.entry.FileEntry? && b.entry.FileEntry? &&
               b.entry == a.entry.(content := b.entry.content) && b.entry.content <= a.entry.content)
  }

  /** got is a prefix of all, but that its last entry may be a file cut short. */
  ghost predicate CutOf(all: seq<Placed>, got: seq<Placed>) {
    && |got| <= |all|
    && (forall i :: 0 <= i < |got| - 1 ==> got[i] == all[i])
    && (got != [] ==> CutEntry(all[|got| - 1], got[|got| - 1]))
  }

  /** The sink ended without noticing, or in the content of a file; its disk gained the entries in got. */
  ghost predicate BrokeOff(d: Done, s: SinkState, got: seq<Placed>) {
    && (d.err == None || d.err == Some(InputEnded))
    && d.s.disk == s.disk.(nodes := Overlay(s.disk.nodes, got))
  }

  lemma Nothing(d: Done, s: SinkState, all: seq<Placed>)
    requires d.err == None && d.s.disk == s.disk
    ensures BrokeOff(d, s, []) && CutOf(all, [])
  {
  }

  /** The times of n, if they are sent, are read, or the input ends within them. */
  lemma StampCut(times: bool, n: Node, state: ParserState, depth: int, s: SinkState, rest: bytes, move: Move)
    returns (ended: bool, q: bytes)
    requires s.input <= Stamp(times, n) + rest && Travels(times, n)
    requires if times then StateStep(state, depth, TimesMessage(n)) == Some(move) else move == Move(state, depth)
    ensures ended ==> SinkLoop(state, depth, s) == Done(s.(input := []), None)
    ensures !ended ==>
              && s.input == Stamp(times, n) + q && q <= rest
              && SinkLoop(state, depth, s) == SinkLoop(move.state, move.depth, Stamped(times, n, s.(input := q)))
  {
    hide SinkLoop;
    var stamp := Stamp(times, n);
    if |s.input| < |stamp| {
      PrintedIsALine(TimesMessage(n));
      StrictPrefixHasNoNewline(stamp, s.input);
      LineMissing(state, depth, s);
      return true, [];
    }
    q := s.input[|stamp|..];
    assert s.input == stamp + q;
    StampRead(times, n, state, depth, s, q, move);
    return false, q;
  }

  /** The announcement of n in the message m is read, or the input ends within it. */
  lemma AnnouncementCut(times: bool, n: Node, m: Message, state: ParserState, depth: int, s: SinkState, rest: bytes,
                        move: Move)
    returns (ended: bool, r: bytes)
    requires s.input <= Stamp(times, n) + (Print(m) + rest) && Travels(times, n) && Printable(m)
    requires if times then StateStep(state, depth, TimesMessage(n)) == Some(move) else move == Move(state, depth)
    ensures ended ==> SinkLoop(state, depth, s).err == None && SinkLoop(state, depth, s).s.disk == s.disk
    ensures !ended ==>
              && s.input == Stamp(times, n) + (Print(m) + r) && r <= rest
              && SinkLoop(state, depth, s) ==
                 SinkLoop(move.state, move.depth, Stamped(times, n, s.(input := Print(m) + r)))
  {
    hide SinkLoop;
    var line := Print(m);
    var q;
    ended, q := StampCut(times, n, state, depth, s, line + rest, move);
    r := [];
    if !ended {
      if |q| < |line| {
        PrintedIsALine(m);
        StrictPrefixHasNoNewline(line, q);
        LineMissing(move.state, move.depth, Stamped(times, n, s.(input := q)));
        ended := true;
      } else {
        r := q[|line|..];
        assert q == line + r;
      }
    }
  }

  /** What a file's content, cut short, comes to. */
  lemma ContentCut(times: bool, n: Node, s: SinkState) returns (got: seq<Placed>)
    requires n.File? && Travels(times, n) && !s.timeSet && s.dir != [] && HasPlace(s.disk, s.dir, n)
    requires s.input <= n.content
    ensures var d := ProcessC(Stamped(times, n, s), FileMessage(n));
            d.err == Some(InputEnded) && BrokeOff(d, s, got) && CutOf(Entries(times, s.dir, n), got)
  {
    hide ProcessC, HasPlace, Travels, Stamped;
    var p, e := s.dir + [n.name], FileEntry(Perm(n.mode), s.input, TimesOf(times, n));
    CutWritten(times, n, s);
    got := [Placed(p, e)];
    assert Overlay(s.disk.nodes, got) == Overlay(s.disk.nodes[p := e], got[1..]) == s.disk.nodes[p := e];
  }

  /** What opening, copying and setting the times come to when the content breaks off. */
  lemma CutWritten(times: bool, n: Node, s: SinkState)
    requires n.File? && Travels(times, n) && !s.timeSet && s.dir != [] && HasPlace(s.disk, s.dir, n)
    requires s.input <= n.content
    ensures var d := ProcessC(Stamped(times, n, s), FileMessage(n));
            && d.err == Some(InputEnded)
            && d.s.disk == Put(s.disk, s.dir + [n.name], FileEntry(Perm(n.mode), s.input, TimesOf(times, n)))
  {
    hide HasPlace, OpenFile, TargetPath, Announced;
    var p, m := s.dir + [n.name], FileMessage(n);
    OpensNew(times, n, s);
    var d := Put(s.disk, p, FileEntry(m.mode, [], None));
    assert s.input[..|s.input|] == s.input && s.input[|s.input|..] == [];
    assert [] + s.input == s.input;
    assert Write(d, p, s.input).disk == Put(s.disk, p, FileEntry(m.mode, s.input, None));
  }

  /** Where nothing is, a new file is opened. */
  lemma OpensNew(times: bool, n: Node, s: SinkState)
    requires n.File? && Announced(times, n) && s.dir != [] && HasPlace(s.disk, s.dir, n)
    ensures var p, m := s.dir + [n.name], FileMessage(n);
            && TargetPath(s.dir, n.name) == p && s.disk.room == map[]
            && OpenFile(s.disk, p, m.mode) == Some(Put(s.disk, p, FileEntry(m.mode, [], None)))
  {
    var p := s.dir + [n.name];
    JoinPlain(s.dir, n.name);
    assert Parent(p) == s.dir by { assert p[..|s.dir|] == s.dir; }
    assert p !in s.disk.nodes;
  }

  lemma FileCut(times: bool, n: Node, state: ParserState, depth: int, s: SinkState, move: Move, move': Move)
    returns (got: seq<Placed>)
    requires s.input <= Stream(times, n) && |s.input| < |Stream(times, n)|
    requires n.File? && Travels(times, n) && !s.timeSet && s.dir != [] && HasPlace(s.disk, s.dir, n)
    requires if times then StateStep(state, depth, TimesMessage(n)) == Some(move) else move == Move(state, depth)
    requires StateStep(move.state, move.depth, FileMessage(n)) == Some(move')
    ensures BrokeOff(SinkLoop(state, depth, s), s, got) && CutOf(Entries(times, s.dir, n), got)
  {
    hide SinkLoop, Entries;
    var ended, r := AnnouncementCut(times, n, FileMessage(n), state, depth, s, n.content + [0], move);
    got := [];
    if ended {
      Nothing(SinkLoop(state, depth, s), s, Entries(times, s.dir, n));
      return;
    }
    FileRest(times, n, s.input, r);
    var s1 := Stamped(times, n, s.(input := Print(FileMessage(n)) + r));
    OneMessage(move.state, move.depth, s1, FileMessage(n), r);
    assert s1.(input := r) == Stamped(times, n, s.(input := r));
    got := ContentCut(times, n, s.(input := r));
  }

  lemma FileRest(times: bool, n: Node, input: bytes, r: bytes)
    requires n.File? && input == Stamp(times, n) + (Print(FileMessage(n)) + r) && |input| < |Stream(times, n)|
    requires r <= n.content + [0]
    ensures r <= n.content
  {
  }

  lemma {:induction false} NodeCut(times: bool, n: Node, depth: int, s: SinkState) returns (got: seq<Placed>)
    requires s.input <= Stream(times, n) && |s.input| < |Stream(times, n)| && depth >= 1 && s.dir != []
    requires WellFormed(n) && Travels(times, n) && !s.timeSet && HasPlace(s.disk, s.dir, n)
    ensures BrokeOff(SinkLoop(Inside(times), depth, s), s, got) && CutOf(Entries(times, s.dir, n), got)
    decreases n, 1
  {
    hide SinkLoop, Stream, Entries;
    var move := if times then Move(RecurseTimesCD, depth) else Move(RecurseNoTimesCDE, depth);
    if n.File? {
      got := FileCut(times, n, Inside(times), depth, s, move, Move(Inside(times), depth));
    } else {
      got := DirectoryCut(times, n, Inside(times), depth, s, move);
    }
  }

  lemma AnnouncedFirst(times: bool, n: Node)
    requires Travels(times, n)
    ensures Announced(times, n) && Printable(if n.File? then FileMessage(n) else DirMessage(n))
  {
  }

  lemma {:induction false} DirectoryCut(times: bool, n: Node, state: ParserState, depth: int, s: SinkState, move: Move)
    returns (got: seq<Placed>)
    requires s.input <= Stream(times, n) && |s.input| < |Stream(times, n)| && depth >= 0
    requires n.Dir? && WellFormed(n) && Travels(times, n) && !s.timeSet && HasPlace(s.disk, s.dir, n)
    requires if times then StateStep(state, depth, TimesMessage(n)) == Some(move) else move == Move(state, depth)
    requires StateStep(move.state, move.depth, DirMessage(n)) == Some(Move(Inside(times), depth + 1))
    ensures BrokeOff(SinkLoop(state, depth, s), s, got) && CutOf(Entries(times, s.dir, n), got)
    decreases n, 0, 1
  {
    hide SinkLoop, StateStep, Image, ImageAll, WellFormed, Travels, HasPlace, Print, Stamp, StreamAll, CutOf;
    AnnouncedFirst(times, n);
    var p, body := s.dir + [n.name], StreamAll(times, n.children) + Print(EMsg);
    var ended, r := AnnouncementCut(times, n, DirMessage(n), state, depth, s, body, move);
    got := [];
    if ended {
      Nothing(SinkLoop(state, depth, s), s, Entries(times, s.dir, n));
      return;
    }
    DirectoryEntered(times, n, state, depth, s, r, move, Move(Inside(times), depth + 1));
    var s1 := Entered(times, n, s).(dir := p, input := r);
    var inner := InsideCut(times, n, depth + 1, s1, s);
    got := [Placed(p, EntryOf(times, n))] + inner;
    assert got[1..] == inner;
    CutCons(Placed(p, EntryOf(times, n)), EntriesOf(times, p, n.children), inner);
  }

  /** The part of a directory after its announcement. */
  lemma {:induction false} InsideCut(times: bool, n: Node, depth: int, s1: SinkState, s: SinkState)
    returns (got: seq<Placed>)
    requires n.Dir? && s1.input <= StreamAll(times, n.children) + Print(EMsg)
    requires |s1.input| < |StreamAll(times, n.children)| + |Print(EMsg)| && depth >= 1
    requires WellFormed(n) && Travels(times, n) && HasPlace(s.disk, s.dir, n)
    requires !s1.timeSet && s1.dir == s.dir + [n.name] && s1.disk == Put(s.disk, s1.dir, EntryOf(times, n))
    ensures BrokeOff(SinkLoop(Inside(times), depth, s1), s1, got) && CutOf(EntriesOf(times, s1.dir, n.children), got)
    decreases n, 0, 0
  {
    hide SinkLoop;
    PlacesInside(s.disk, s.dir, n, EntryOf(times, n));
    got := BodyCut(times, n.children, depth, s1);
  }

  lemma CutCons(e: Placed, all: seq<Placed>, got: seq<Placed>)
    requires CutOf(all, got)
    ensures CutOf([e] + all, [e] + got)
  {
  }

  /** A directory's entries and its E line, cut short. */
  lemma {:induction false} BodyCut(times: bool, ns: seq<Node>, depth: int, s: SinkState) returns (got: seq<Placed>)
    requires s.input <= StreamAll(times, ns) + Print(EMsg) && |s.input| < |StreamAll(times, ns)| + |Print(EMsg)|
    requires depth >= 1 && s.dir != [] && !s.timeSet
    requires HavePlaces(s.disk, s.dir, ns) && forall c :: c in ns ==> WellFormed(c) && Travels(times, c)
    ensures BrokeOff(SinkLoop(Inside(times), depth, s), s, got) && CutOf(EntriesOf(times, s.dir, ns), got)
    decreases ns
  {
    hide SinkLoop;
    if ns == [] {
      PrintedIsALine(EMsg);
      StrictPrefixHasNoNewline(Print(EMsg), s.input);
      LineMissing(Inside(times), depth, s);
      got := [];
      Nothing(SinkLoop(Inside(times), depth, s), s, []);
    } else if |s.input| < |Stream(times, ns[0])| {
      assert s.input <= Stream(times, ns[0]);
      got := NodeCut(times, ns[0], depth, s);
      CutOfFirst(Entries(times, s.dir, ns[0]), EntriesOf(times, s.dir, ns[1..]), got);
    } else {
      var rest := s.input[|Stream(times, ns[0])|..];
      assert s.input == Stream(times, ns[0]) + rest;
      assert rest <= StreamAll(times, ns[1..]) + Print(EMsg);
      NodeReceived(times, ns[0], depth, s, rest);
      Received(times, ns[0], s);
      PlacesLeft(times, s.disk, s.dir, ns);
      var s1 := Receive(times, ns[0], s).(input := rest);
      var more := BodyCut(times, ns[1..], depth, s1);
      var first := Entries(times, s.dir, ns[0]);
      got := first + more;
      EntriesAreTheImage(times, s.dir, ns[0], s.disk.nodes);
      OverlayAppend(s.disk.nodes, first, more);
      CutAppend(first, EntriesOf(times, s.dir, ns[1..]), more);
    }
  }

  lemma CutOfFirst(first: seq<Placed>, rest: seq<Placed>, got: seq<Placed>)
    requires CutOf(first, got)
    ensures CutOf(first + rest, got)
  {
  }

  lemma CutAppend(first: seq<Placed>, rest: seq<Placed>, more: seq<Placed>)
    requires CutOf(rest, more)
    ensures CutOf(first + rest, first + more)
  {
  }

  /** Every prefix of the bytes of a tree. */
  lemma Truncation(recursive: bool, times: bool, n: Node, s: SinkState) returns (got: seq<Placed>)
    requires s.input <= Stream(times, n) && !s.timeSet
    requires WellFormed(n) && Travels(times, n) && HasPlace(s.disk, s.dir, n)
    requires (n.Dir? && recursive) || (n.File? && s.dir != [])
    ensures CutOf(Entries(times, s.dir, n), got)
    ensures var d := SinkRun(recursive, times, s);
            && (d.err == None || d.err == Some(InputEnded))
            && d.s.disk == s.disk.(nodes := Overlay(s.disk.nodes, got))
    ensures s.input == Stream(times, n) ==> got == Entries(times, s.dir, n)
  {
    hide SinkLoop, Stream, Travels, WellFormed, HasPlace, Overlay, Entries, Image, Receive;
    var a := Ack(s);
    if s.input == Stream(times, n) {
      SinkTakesTree(recursive, times, n, s);
      Received(times, n, a);
      EntriesAreTheImage(times, s.dir, n, s.disk.nodes);
      got := Entries(times, s.dir, n);
    } else {
      var state := ParserStart(recursive, times);
      var move := if times then StateStep(state, 0, TimesMessage(n)).value else Move(state, 0);
      assert |s.input| < |Stream(times, n)|;
      if n.File? {
        var move' := StateStep(move.state, move.depth, FileMessage(n)).value;
        got := FileCut(times, n, state, 0, a, move, move');
      } else {
        got := DirectoryCut(times, n, state, 0, a, move);
      }
    }
  }
}
