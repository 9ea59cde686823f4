/**
 What the source writes for a tree, as a function of the tree alone, and that a source which gets its acks
 writes exactly that, unless something cannot be read.
 */
module ScpSend {
  import opened Options
  import opened ScpUtf8
  import opened ScpMessages
  import opened ScpPaths
  import opened ScpSource

  // ---- the bytes of a tree

  function Stamp(times: bool, n: Node): bytes {
    if times then Print(TimesMessage(n)) else []
  }

  /** What the source writes for n. */
  function Stream(times: bool, n: Node): bytes {
    match n
    case File(_, _, _, _, content) => Stamp(times, n) + (Print(FileMessage(n)) + (content + [0]))
    case Dir(_, _, _, children) => Stamp(times, n) + (Print(DirMessage(n)) + (StreamAll(times, children) + Print(EMsg)))
  }

  function StreamAll(times: bool, ns: seq<Node>): bytes {
    if ns == [] then [] else Stream(times, ns[0]) + StreamAll(times, ns[1..])
  }

  /** The number of acks for n: one for each T, D and E message, two for each C message. */
  function Acks(times: bool, n: Node): (k: nat)
    ensures k >= 2
  {
    (if times then 1 else 0) + 2 + (if n.Dir? then AcksAll(times, n.children) else 0)
  }

  function AcksAll(times: bool, ns: seq<Node>): nat {
    if ns == [] then 0 else Acks(times, ns[0]) + AcksAll(times, ns[1..])
  }

  function Zeros(k: nat): (z: bytes)
    ensures |z| == k && forall i :: 0 <= i < k ==> z[i] == 0
  {
    if k == 0 then [] else [0] + Zeros(k - 1)
  }

  lemma ZerosAdd(a: nat, b: nat)
    ensures Zeros(a) + Zeros(b) == Zeros(a + b)
  {
  }

  // ---- the source

  /** The next k bytes are good acks. */
  predicate Acked(input: bytes, k: nat) {
    k <= |input| && forall i :: 0 <= i < k ==> input[i] == 0
  }

  /** s after it took k acks and wrote data. */
  function Advanced(s: SourceState, k: nat, data: bytes): SourceState
    requires k <= |s.input|
  {
    s.(input := s.input[k..], output := s.output + data)
  }

  lemma AdvancedTwice(s: SourceState, k1: nat, d1: bytes, k2: nat, d2: bytes)
    requires k1 + k2 <= |s.input|
    ensures Advanced(Advanced(s, k1, d1), k2, d2) == Advanced(s, k1 + k2, d1 + d2)
  {
    assert s.input[k1..][k2..] == s.input[k1 + k2..];
    assert s.output + d1 + d2 == s.output + (d1 + d2);
  }

  lemma SendAcked(s: SourceState, data: bytes)
    requires Acked(s.input, 1)
    ensures Send(s, data) == Sent(Advanced(s, 1, data), None)
  {
  }

  /** Where an entry c of the directory at dir is sent from: its own path, or for a file the directory's. */
  function PathFor(dir: Path, c: Node): Path {
    if c.Dir? then dir + [c.name] else dir
  }

  /** Everything at and below n can be read, and no file is named like its directory (see SourcePath). */
  predicate Readable(fs: SourceFs, dir: Path, n: Node)
    decreases n
  {
    match n
    case File(name, _, _, _, _) => Base(dir) != name && dir + [name] !in fs.denied
    case Dir(_, _, _, children) =>
      dir !in fs.denied && forall c :: c in children ==> Readable(fs, PathFor(dir, c), c)
  }

  /** A file in the directory at dir: it is sent just if it is readable. */
  lemma FileSent(fs: SourceFs, times: bool, s: SourceState, d: Node, i: nat)
    requires At(fs, s.dir, d) && i < |d.children| && d.children[i].File?
    requires Acked(s.input, Acks(times, d.children[i]))
    ensures var n := d.children[i];
            var r := SendFile(fs, times, s, n);
            if Readable(fs, s.dir, n) then r == Sent(Advanced(s, Acks(times, n), Stream(times, n)), None)
            else r.err.Some?
  {
    var n := d.children[i];
    LookupChild(fs.root, s.dir, i);
    JoinPlain(s.dir, n.name);
    FileSentFrom(fs, times, s, n);
  }

  /** A file is sent just if the path the source opens for it can be read. */
  lemma FileSentFrom(fs: SourceFs, times: bool, s: SourceState, n: Node)
    requires n.File? && Acked(s.input, Acks(times, n))
    ensures var content := ReadFile(fs, SourcePath(s.dir, n.name));
            var r := SendFile(fs, times, s, n);
            && (content == Some(n.content) ==> r == Sent(Advanced(s, Acks(times, n), Stream(times, n)), None))
            && (content.None? ==> r.err.Some?)
  {
    var k0 := if times then 1 else 0;
    var s0 := Advanced(s, k0, Stamp(times, n));
    SendTimesAcked(times, s, n);
    SendAcked(s0, Print(FileMessage(n)));
    var s1 := Advanced(s0, 1, Print(FileMessage(n)));
    SendAcked(s1, n.content + [0]);
    AdvancedTwice(s0, 1, Print(FileMessage(n)), 1, n.content + [0]);
    AdvancedTwice(s, k0, Stamp(times, n), 2, Print(FileMessage(n)) + (n.content + [0]));
  }

  lemma SendTimesAcked(times: bool, s: SourceState, n: Node)
    requires Acked(s.input, if times then 1 else 0)
    ensures SendTimes(times, s, n) == Sent(Advanced(s, if times then 1 else 0, Stamp(times, n)), None)
  {
    if times {
      SendAcked(s, Print(TimesMessage(n)));
    } else {
      assert s.input[0..] == s.input && s.output + [] == s.output;
    }
  }

  /** A directory, given all its acks, is sent completely if and only if all of it is readable. */
  lemma {:induction false} DirectorySent(fs: SourceFs, times: bool, s: SourceState, n: Node)
    requires At(fs, s.dir, n) && Acked(s.input, Acks(times, n))
    ensures var r := SendDirectory(fs, times, s, n);
            if Readable(fs, s.dir, n) then r == Sent(Advanced(s, Acks(times, n), Stream(times, n)), None)
            else r.err.Some?
    decreases n, 1
  {
    var k0, k := if times then 1 else 0, AcksAll(times, n.children);
    var m, body := Print(DirMessage(n)), StreamAll(times, n.children);
    var s0 := Advanced(s, k0, Stamp(times, n));
    var s1 := Advanced(s0, 1, m);
    SendTimesAcked(times, s, n);
    SendAcked(s0, m);
    if s.dir !in fs.denied {
      assert n.children[0..] == n.children;
      ChildrenSent(fs, times, s1, n, 0);
      if AllReadable(fs, s.dir, n.children) {
        SendAcked(Advanced(s1, k, body), Print(EMsg));
        AdvancedTwice(s1, k, body, 1, Print(EMsg));
        AdvancedTwice(s0, 1, m, k + 1, body + Print(EMsg));
        AdvancedTwice(s, k0, Stamp(times, n), k + 2, m + (body + Print(EMsg)));
      }
    }
  }

  predicate AllReadable(fs: SourceFs, dir: Path, ns: seq<Node>) {
    forall c :: c in ns ==> Readable(fs, PathFor(dir, c), c)
  }

  lemma {:induction false} ChildSent(fs: SourceFs, times: bool, s: SourceState, d: Node, i: nat)
    requires At(fs, s.dir, d) && i < |d.children| && Acked(s.input, Acks(times, d.children[i]))
    ensures var c := d.children[i];
            var r := SendChild(fs, times, s, d, i);
            if Readable(fs, PathFor(s.dir, c), c) then r == Sent(Advanced(s, Acks(times, c), Stream(times, c)), None)
            else r.err.Some?
    decreases d, 0, 0
  {
    var c := d.children[i];
    LookupChild(fs.root, s.dir, i);
    JoinPlain(s.dir, c.name);
    if c.Dir? {
      DirectorySent(fs, times, s.(dir := Join(s.dir, c.name)), c);
    } else {
      FileSent(fs, times, s, d, i);
    }
  }

  lemma {:induction false} ChildrenSent(fs: SourceFs, times: bool, s: SourceState, d: Node, i: nat)
    requires At(fs, s.dir, d) && i <= |d.children| && Acked(s.input, AcksAll(times, d.children[i..]))
    ensures var ns := d.children[i..];
            var r := SendChildren(fs, times, s, d, i);
            if AllReadable(fs, s.dir, ns) then r == Sent(Advanced(s, AcksAll(times, ns), StreamAll(times, ns)), None)
            else r.err.Some?
    decreases d, 0, 1 + |d.children| - i
  {
    hide SendChild, Stream, Readable, Acks, WellFormed, Lookup, PathFor;
    var ns := d.children[i..];
    if i == |d.children| {
      assert s.input[0..] == s.input && s.output + [] == s.output;
    } else {
      var c, rest := d.children[i], d.children[i + 1..];
      assert ns[1..] == rest && ns[0] == c;
      assert AllReadable(fs, s.dir, ns) <==> Readable(fs, PathFor(s.dir, c), c) && AllReadable(fs, s.dir, rest);
      ChildSent(fs, times, s, d, i);
      if Readable(fs, PathFor(s.dir, c), c) {
        var s1 := Advanced(s, Acks(times, c), Stream(times, c));
        ChildrenSent(fs, times, s1, d, i + 1);
        AdvancedTwice(s, Acks(times, c), Stream(times, c), AcksAll(times, rest), StreamAll(times, rest));
      }
    }
  }
}
