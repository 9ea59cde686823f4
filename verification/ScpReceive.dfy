/**
 What a sink makes of the bytes of a tree, as a function of the tree alone.
 */
module ScpReceive {
  import opened Options
  import opened ScpUtf8
  import opened ScpStrconv
  import opened ScpMessages
  import opened ScpRoundTrip
  import opened ScpPaths
  import opened ScpDisk
  import opened ScpSink
  import opened ScpSource
  import opened ScpSend

  // ---- lines

  ghost predicate EndsLine(b: bytes) {
    |b| > 0 && b[|b| - 1] == NEWLINE && NEWLINE !in b[..|b| - 1]
  }

  lemma PrependToLine(a: bytes, b: bytes)
    requires NEWLINE !in a && EndsLine(b)
    ensures EndsLine(a + b)
  {
    assert (a + b)[..|a + b| - 1] == a + b[..|b| - 1];
  }

  lemma DigitsHaveNoNewline(s: bytes)
    requires AreDigits(s, 10)
    ensures NEWLINE !in s
  {
  }

  lemma PrintedTimeEndsLine(t: int64, rest: bytes)
    requires EndsLine(rest)
    ensures EndsLine(Decimal(t) + ([SPACE] + ([DIGIT_ZERO] + rest)))
  {
    PrependToLine([DIGIT_ZERO], rest);
    PrependToLine([SPACE], [DIGIT_ZERO] + rest);
    var a: nat := if t < 0 then 0 - (t as int) else t;
    DigitsHaveNoNewline(Digits(a, 10));
    PrependToLine(Decimal(t), [SPACE] + ([DIGIT_ZERO] + rest));
  }

  /** No newline is in the name, if the message has one. */
  predicate OnOneLine(m: Message) {
    m.CMsg? || m.DMsg? ==> NEWLINE !in m.name
  }

  /** A printed message is one line, unless its name holds a newline. */
  lemma PrintedIsALine(m: Message)
    requires OnOneLine(m)
    ensures EndsLine(Print(m))
  {
    assert EndsLine([NEWLINE]);
    match m
    case TMsg(mTime, aTime) =>
      PrintedTimeEndsLine(aTime, [NEWLINE]);
      var half := Decimal(aTime) + ([SPACE] + ([DIGIT_ZERO] + [NEWLINE]));
      PrependToLine([SPACE], half);
      PrintedTimeEndsLine(mTime, [SPACE] + half);
      PrependToLine([LETTER_T], Decimal(mTime) + ([SPACE] + ([DIGIT_ZERO] + ([SPACE] + half))));
    case EMsg => PrependToLine([LETTER_E], [NEWLINE]); assert [LETTER_E] + [NEWLINE] == Print(m);
    case _ =>
      PrependToLine(m.name, [NEWLINE]);
      var t := Digits(m.length, 10);
      DigitsHaveNoNewline(t);
      PrependToLine([SPACE], m.name + [NEWLINE]);
      PrependToLine(t, [SPACE] + (m.name + [NEWLINE]));
      PrependToLine([SPACE], t + ([SPACE] + (m.name + [NEWLINE])));
      var s := PadZero(Digits(m.mode, 8), 4);
      ParsePadded(Digits(m.mode, 8), 4, 8, 0);
      OctalDigitsAreDigits(s);
      DigitsHaveNoNewline(s);
      PrependToLine(s, [SPACE] + (t + ([SPACE] + (m.name + [NEWLINE]))));
      PrependToLine([Letter(m)], PrintHeader(m.mode, m.length, m.name));
  }

  lemma LineLengthOf(line: bytes, rest: bytes)
    requires EndsLine(line)
    ensures LineLength(line + rest) == |line|
  {
    var b, n := line + rest, LineLength(line + rest);
    assert b[|line| - 1] == NEWLINE && b[..|line| - 1] == line[..|line| - 1];
    assert forall k :: 0 <= k < |line| - 1 ==> b[k] == line[..|line| - 1][k];
    assert forall k :: 0 <= k < n - 1 ==> b[k] == b[..n - 1][k];
  }

  /** The sink reads a printed message, and goes on with what the message does. */
  lemma OneMessage(state: ParserState, depth: int, s: SinkState, m: Message, rest: bytes)
    requires s.input == Print(m) + rest && Printable(m) && StateStep(state, depth, m).Some?
    ensures var move := StateStep(state, depth, m).value;
            var done := Process(s.(input := rest), m);
            SinkLoop(state, depth, s) == if done.err.Some? then done else SinkLoop(move.state, move.depth, done.s)
  {
    hide LineLength, Parse, Print, Process, StateStep, EndsLine;
    PrintedIsALine(m);
    LineLengthOf(Print(m), rest);
    PrintParse(m);
    assert s.input[..|Print(m)|] == Print(m) && s.input[|Print(m)|..] == rest;
  }

  lemma StrictPrefixHasNoNewline(line: bytes, p: bytes)
    requires EndsLine(line) && p <= line && |p| < |line|
    ensures NEWLINE !in p
  {
    assert forall i :: 0 <= i < |p| ==> p[i] == line[..|line| - 1][i];
  }

  /** An input without a newline ends the sink. */
  lemma LineMissing(state: ParserState, depth: int, s: SinkState)
    requires NEWLINE !in s.input
    ensures SinkLoop(state, depth, s) == Done(s.(input := []), None)
  {
  }

  // ---- trees that a stream can carry

  predicate NameTravels(name: bytes) {
    Lexable(name) && Plain(name)
  }

  /** If times are sent, n's can be read back. */
  predicate Dated(times: bool, n: Node) {
    times ==> n.times.aTime >= 0 && n.times.mTime >= 0
  }

  /** The messages that announce n can be read back. */
  predicate Announced(times: bool, n: Node) {
    NameTravels(n.name) && Dated(times, n)
  }

  /** All messages can be read back, and files are as long as announced. */
  predicate Travels(times: bool, n: Node)
    decreases n
  {
    && Announced(times, n)
    && (match n
        case File(_, _, _, size, content) => CopyLimit(AsLength(size)) == |content|
        case Dir(_, _, _, children) => forall c :: c in children ==> Travels(times, c))
  }

  // ---- the result

  function TimesOf(times: bool, n: Node): Option<Times> {
    if times then Some(n.times) else None
  }

  function EntryOf(times: bool, n: Node): Entry {
    match n
    case File(_, mode, _, _, content) => FileEntry(Perm(mode), content, TimesOf(times, n))
    case Dir(_, mode, _, _) => DirEntry(Perm(mode), TimesOf(times, n))
  }

  /** The entries of n and everything below it, when n is put into the directory at dir. */
  function Image(times: bool, dir: Path, n: Node): map<Path, Entry>
    decreases n
  {
    map[dir + [n.name] := EntryOf(times, n)] +
    if n.Dir? then ImageAll(times, dir + [n.name], n.children) else map[]
  }

  function ImageAll(times: bool, dir: Path, ns: seq<Node>): map<Path, Entry>
    decreases ns
  {
    if ns == [] then map[] else Image(times, dir, ns[0]) + ImageAll(times, dir, ns[1..])
  }

  function Put(d: Disk, p: Path, e: Entry): Disk {
    d.(nodes := d.nodes[p := e])
  }

  function Stamped(times: bool, n: Node, s: SinkState): SinkState {
    if times then Ack(s.(aTime := n.times.aTime, mTime := n.times.mTime, timeSet := true)) else s
  }

  /** The sink after the messages that announce n: the new entry is there, and a directory is entered. */
  function Entered(times: bool, n: Node, s: SinkState): SinkState {
    var p := s.dir + [n.name];
    Ack(Stamped(times, n, s).(timeSet := false, disk := Put(s.disk, p, EntryOf(times, n))))
  }

  /** The sink's state after n, the input aside. */
  function Receive(times: bool, n: Node, s: SinkState): SinkState
    decreases n
  {
    var s' := Entered(times, n, s);
    if n.File? then Ack(s')
    else Ack(ReceiveAll(times, n.children, s'.(dir := s.dir + [n.name])).(dir := s.dir))
  }

  function ReceiveAll(times: bool, ns: seq<Node>, s: SinkState): SinkState
    decreases ns
  {
    if ns == [] then s else ReceiveAll(times, ns[1..], Receive(times, ns[0], s))
  }

  /** From s to r, k acks were sent and the entries of image were put on the disk; all else is as before. */
  ghost predicate Grew(s: SinkState, r: SinkState, k: nat, image: map<Path, Entry>) {
    && r.dir == s.dir && r.input == s.input && !r.timeSet
    && r.output == s.output + Zeros(k)
    && r.disk == s.disk.(nodes := s.disk.nodes + image)
  }

  lemma GrewTwice(s: SinkState, a: SinkState, r: SinkState, k1: nat, i1: map<Path, Entry>, k2: nat,
                  i2: map<Path, Entry>)
    requires Grew(s, a, k1, i1) && Grew(a, r, k2, i2)
    ensures Grew(s, r, k1 + k2, i1 + i2)
  {
    ZerosAdd(k1, k2);
    assert s.output + Zeros(k1) + Zeros(k2) == s.output + (Zeros(k1) + Zeros(k2));
    assert s.disk.nodes + i1 + i2 == s.disk.nodes + (i1 + i2);
  }

  lemma EnteredGrew(times: bool, n: Node, s: SinkState)
    ensures Grew(s, Entered(times, n, s), if times then 2 else 1, map[s.dir + [n.name] := EntryOf(times, n)])
  {
    var p, e := s.dir + [n.name], EntryOf(times, n);
    assert s.disk.nodes[p := e] == s.disk.nodes + map[p := e];
    assert Zeros(1) == [0] && Zeros(2) == [0] + [0];
  }

  lemma AckGrew(s: SinkState)
    requires !s.timeSet
    ensures Grew(s, Ack(s), 1, map[])
  {
    assert s.disk.nodes + map[] == s.disk.nodes && Zeros(1) == [0];
  }

  /** Directory and pending times are as before, there is an ack for each step, and the disk has the tree. */
  lemma {:induction false} Received(times: bool, n: Node, s: SinkState)
    ensures Grew(s, Receive(times, n, s), Acks(times, n), Image(times, s.dir, n))
    decreases n
  {
    var p := s.dir + [n.name];
    var k, e := if times then 2 else 1, map[p := EntryOf(times, n)];
    var s' := Entered(times, n, s);
    EnteredGrew(times, n, s);
    if n.File? {
      AckGrew(s');
      GrewTwice(s, s', Ack(s'), k, e, 1, map[]);
    } else {
      var r := ReceiveAll(times, n.children, s'.(dir := p));
      ReceivedAll(times, n.children, s'.(dir := p));
      var ka, image := AcksAll(times, n.children), ImageAll(times, p, n.children);
      assert Grew(s', r.(dir := s.dir), ka, image);
      GrewTwice(s, s', r.(dir := s.dir), k, e, ka, image);
      AckGrew(r.(dir := s.dir));
      GrewTwice(s, r.(dir := s.dir), Ack(r.(dir := s.dir)), k + ka, e + image, 1, map[]);
      assert e + image + map[] == e + image;
    }
  }

  lemma {:induction false} ReceivedAll(times: bool, ns: seq<Node>, s: SinkState)
    requires !s.timeSet
    ensures Grew(s, ReceiveAll(times, ns, s), AcksAll(times, ns), ImageAll(times, s.dir, ns))
    decreases ns
  {
    if ns == [] {
      assert s.output + Zeros(0) == s.output && s.disk.nodes + map[] == s.disk.nodes;
    } else {
      var a := Receive(times, ns[0], s);
      Received(times, ns[0], s);
      ReceivedAll(times, ns[1..], a);
      GrewTwice(s, a, ReceiveAll(times, ns[1..], a), Acks(times, ns[0]), Image(times, s.dir, ns[0]),
                AcksAll(times, ns[1..]), ImageAll(times, s.dir, ns[1..]));
    }
  }
}
