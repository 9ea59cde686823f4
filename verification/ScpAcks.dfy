/**
 What the bytes a source reads do to it: it succeeds if and only if it finds what it is asked for and gets a zero byte
 for each of its writes, and a byte that is no ack ends it right there, with what the sink had to say.
 */
module ScpAcks {
  import opened Options
  import opened ScpUtf8
  import opened ScpMessages
  import opened ScpPaths
  import opened ScpSource
  import opened ScpSink
  import opened ScpSend
  import opened ScpReceive
  import opened ScpTransfer
  import opened ScpSession
  import opened ScpSessionResults

  // ---- what a source has read when it succeeds

  /** With success, k bytes were read, all of them zero. */
  predicate Took(s: SourceState, r: Sent, k: nat) {
    r.err.None? ==> Acked(s.input, k) && r.s.input == s.input[k..]
  }

  lemma TookTwice(s: SourceState, a: Sent, r: Sent, k1: nat, k2: nat)
    requires a.err.None? && Took(s, a, k1) && Took(a.s, r, k2)
    ensures Took(s, r, k1 + k2)
  {
    if r.err.None? {
      assert s.input[k1..][k2..] == s.input[k1 + k2..];
      forall i | k1 <= i < k1 + k2 ensures s.input[i] == 0 {
        assert s.input[i] == s.input[k1..][i - k1];
      }
    }
  }

  lemma AckTaken(s: SourceState)
    ensures Took(s, GetAck(s), 1)
  {
  }

  lemma SendTook(s: SourceState, data: bytes)
    ensures Took(s, Send(s, data), 1) && Send(s, data).s.dir == s.dir
  {
  }

  lemma TimesTook(times: bool, s: SourceState, n: Node)
    ensures Took(s, SendTimes(times, s, n), if times then 1 else 0) && SendTimes(times, s, n).s.dir == s.dir
  {
    assert s.input[0..] == s.input;
  }

  lemma FailedTook(s: SourceState, r: Sent, k: nat)
    requires r.err.Some?
    ensures Took(s, r, k)
  {
  }

  lemma FileTook(fs: SourceFs, times: bool, s: SourceState, n: Node)
    requires n.File?
    ensures Took(s, SendFile(fs, times, s, n), Acks(times, n))
    ensures SendFile(fs, times, s, n).err.None? ==> ReadFile(fs, SourcePath(s.dir, n.name)).Some?
  {
    hide Print, Took, GetAck, Send, SendTimes, ReadFile, SourcePath;
    var r, k0 := SendFile(fs, times, s, n), if times then 1 else 0;
    if r.err.Some? {
      FailedTook(s, r, Acks(times, n));
    } else {
      var t := SendTimes(times, s, n);
      var c := Send(t.s, Print(FileMessage(n)));
      TimesTook(times, s, n);
      SendTook(t.s, Print(FileMessage(n)));
      TookTwice(s, t, c, k0, 1);
      SendTook(c.s, ReadFile(fs, SourcePath(s.dir, n.name)).value + [0]);
      TookTwice(s, c, r, k0 + 1, 1);
    }
  }

  lemma {:induction false} DirectoryTook(fs: SourceFs, times: bool, s: SourceState, n: Node)
    requires At(fs, s.dir, n)
    ensures var r := SendDirectory(fs, times, s, n);
            Took(s, r, Acks(times, n)) && (r.err.None? ==> Readable(fs, s.dir, n))
    decreases n, 1
  {
    hide Print, Took, GetAck, Send, SendTimes, SendChildren, Lookup, WellFormed;
    var r, k := SendDirectory(fs, times, s, n), Acks(times, n);
    var t, k0 := SendTimes(times, s, n), if times then 1 else 0;
    if r.err.Some? {
      FailedTook(s, r, k);
    } else {
      var d := Send(t.s, Print(DirMessage(n)));
      TimesTook(times, s, n);
      SendTook(t.s, Print(DirMessage(n)));
      TookTwice(s, t, d, k0, 1);
      var cs := SendChildren(fs, times, d.s, n, 0);
      ChildrenTook(fs, times, d.s, n, 0);
      assert n.children[0..] == n.children;
      TookTwice(s, d, cs, k0 + 1, AcksAll(times, n.children));
      SendTook(cs.s, Print(EMsg));
      TookTwice(s, cs, r, k - 1, 1);
    }
  }

  lemma {:induction false} ChildTook(fs: SourceFs, times: bool, s: SourceState, d: Node, i: nat)
    requires At(fs, s.dir, d) && i < |d.children|
    ensures var c := d.children[i];
            var r := SendChild(fs, times, s, d, i);
            Took(s, r, Acks(times, c)) && (r.err.None? ==> Readable(fs, PathFor(s.dir, c), c))
    decreases d, 0, 0
  {
    var c := d.children[i];
    LookupChild(fs.root, s.dir, i);
    JoinPlain(s.dir, c.name);
    if c.Dir? {
      DirectoryTook(fs, times, s.(dir := Join(s.dir, c.name)), c);
    } else {
      FileTook(fs, times, s, c);
    }
  }

  lemma {:induction false} ChildrenTook(fs: SourceFs, times: bool, s: SourceState, d: Node, i: nat)
    requires At(fs, s.dir, d) && i <= |d.children|
    ensures var ns := d.children[i..];
            var r := SendChildren(fs, times, s, d, i);
            Took(s, r, AcksAll(times, ns)) && (r.err.None? ==> AllReadable(fs, s.dir, ns))
    decreases d, 0, 1 + |d.children| - i
  {
    hide Took, SendChild, Readable, Acks, WellFormed, Lookup, PathFor;
    var ns, r := d.children[i..], SendChildren(fs, times, s, d, i);
    if i == |d.children| {
      NothingTook(s);
    } else if r.err.Some? {
      FailedTook(s, r, AcksAll(times, ns));
    } else {
      assert ns[1..] == d.children[i + 1..] && ns[0] == d.children[i];
      var sent := SendChild(fs, times, s, d, i);
      ChildTook(fs, times, s, d, i);
      ChildrenTook(fs, times, sent.s, d, i + 1);
      TookTwice(s, sent, r, Acks(times, ns[0]), AcksAll(times, ns[1..]));
    }
  }

  lemma NothingTook(s: SourceState)
    ensures Took(s, Sent(s, None), 0)
  {
    assert s.input[0..] == s.input;
  }

  /** What a source is asked for is there and can be read: a file, or with recursion also a directory. */
  predicate CanSend(fs: SourceFs, recursive: bool, path: Path) {
    var f := Stat(fs, path);
    f.Some? && (f.value.Dir? ==> recursive && Readable(fs, path, f.value))
  }

  /**
   A source succeeds if and only if it can read all it is asked for and the first bytes it reads, one and one for each
   of its writes, are all zero.
   */
  lemma SourceSucceedsExactlyIf(fs: SourceFs, recursive: bool, times: bool, s: SourceState)
    requires WellFormed(fs.root) && fs.root.Dir?
    ensures SourceRun(fs, recursive, times, s).err.None? <==>
            CanSend(fs, recursive, s.dir) && Acked(s.input, 1 + Acks(times, Stat(fs, s.dir).value))
  {
    hide Print, Took, Send, SendTimes, SendDirectory, SendFile, Readable, WellFormed;
    var a, f := GetAck(s), Stat(fs, s.dir);
    AckTaken(s);
    if a.err.None? && f.Some? {
      LookupWellFormed(fs.root, s.dir);
      var n, r := f.value, SourceRun(fs, recursive, times, s);
      if r.err.None? {
        if n.File? {
          FileTook(fs, times, a.s, n);
        } else {
          DirectoryTook(fs, times, a.s, n);
        }
        TookTwice(s, a, r, 1, Acks(times, n));
        SuccessTook(s, r, 1 + Acks(times, n));
      } else if CanSend(fs, recursive, s.dir) && Acked(s.input, 1 + Acks(times, n)) {
        if n.File? {
          LookupName(fs.root, s.dir);
          FileSentFrom(fs, times, a.s, n);
        } else {
          DirectorySent(fs, times, a.s, n);
        }
      }
    }
  }

  lemma SuccessTook(s: SourceState, r: Sent, k: nat)
    requires Took(s, r, k) && r.err.None?
    ensures Acked(s.input, k) && r.s.input == s.input[k..]
  {
  }

  /** Nothing is written if there is nothing, or a directory and no recursion. */
  lemma NothingWritten(fs: SourceFs, times: bool, s: SourceState)
    requires WellFormed(fs.root) && (Stat(fs, s.dir).Some? ==> Stat(fs, s.dir).value.Dir?)
    ensures var r := SourceRun(fs, false, times, s);
            r.err.Some? && r.s.output == s.output
  {
  }

  // ---- what ends a source

  /**
   input does not begin with an ack; err is what a source makes of it, and rest is what it leaves unread. The bytes 1
   and 2 come before a line that says what went wrong.
   */
  ghost predicate Tells(input: bytes, err: Option<SourceError>, rest: bytes) {
    if input == [] then err == Some(AcksEnded) && rest == []
    else if input[0] != 1 && input[0] != 2 then input[0] != 0 && err == Some(BadAck(input[0])) && rest == input[1..]
    else if 10 !in input[1..] then err == Some(AcksEnded) && rest == []
    else
      && err.Some? && err.value.Refused? && input[1..] == err.value.text + rest
      && EndsLine(err.value.text)
  }

  lemma NoAck(s: SourceState)
    requires s.input == [] || s.input[0] != 0
    ensures var r := GetAck(s);
            Tells(s.input, r.err, r.s.input) && r.s.output == s.output
  {
    if s.input != [] {
      var n, rest := LineLength(s.input[1..]), s.input[1..];
      assert rest == rest[..n] + rest[n..];
      if n > 0 {
        assert rest[..n][..n - 1] == rest[..n - 1];
      }
    }
  }

  /** k acks and then something else. */
  predicate AckedOnly(input: bytes, k: nat) {
    Acked(input, k) && (k < |input| ==> input[k] != 0)
  }

  lemma {:induction false} ScriptIsTold(cs: seq<Chunk>, s: SourceState, k: nat)
    requires k < |cs| && AckedOnly(s.input, k)
    ensures var r := RunScript(cs, s);
            Tells(s.input[k..], r.err, r.s.input) && r.s.output == s.output + ScriptBytes(cs[..k + 1])
    decreases k
  {
    hide Tells;
    var data := ChunkBytes(cs[0]);
    var c := Send(s, data);
    assert cs[..k + 1][0] == cs[0] && cs[..k + 1][1..] == cs[1..][..k];
    if k == 0 {
      assert s.input[0..] == s.input && ScriptBytes([]) == [];
      NoAck(s.(output := s.output + data));
      assert c.err.Some?;
    } else {
      assert c == Sent(s.(output := s.output + data, input := s.input[1..]), None);
      assert s.input[1..][k - 1..] == s.input[k..];
      ScriptIsTold(cs[1..], c.s, k - 1);
      assert s.output + data + ScriptBytes(cs[1..][..k]) == s.output + (data + ScriptBytes(cs[1..][..k]));
    }
  }

  /**
   A source that could send it all, but gets something else than an ack after k of them: it ends with what it was told,
   has made its first k writes and makes no other.
   */
  lemma SourceIsTold(fs: SourceFs, recursive: bool, times: bool, s: SourceState, k: nat)
    requires WellFormed(fs.root) && fs.root.Dir? && CanSend(fs, recursive, s.dir)
    requires k <= Acks(times, Stat(fs, s.dir).value) && AckedOnly(s.input, k)
    ensures var r, script := SourceRun(fs, recursive, times, s), Script(times, Stat(fs, s.dir).value);
            && k <= |script| && Tells(s.input[k..], r.err, r.s.input)
            && r.s.output == s.output + ScriptBytes(script[..k])
  {
    hide Tells, RunScript, SourceRun, Script, Readable;
    var n := Stat(fs, s.dir).value;
    ScriptHasAcks(times, n);
    SourceRunsScript(fs, recursive, times, s, n);
    if k == 0 {
      NoAck(s);
      assert s.input[0..] == s.input && Script(times, n)[..0] == [] && s.output + [] == s.output;
      assert GetAck(s).err.Some?;
    } else {
      ScriptIsTold(Script(times, n), GetAck(s).s, k - 1);
      assert s.input[1..][k - 1..] == s.input[k..];
    }
  }

  /** Before anything else is looked at, the first byte must be an ack. */
  lemma FirstByteTells(fs: SourceFs, recursive: bool, times: bool, s: SourceState)
    requires WellFormed(fs.root) && AckedOnly(s.input, 0)
    ensures var r := SourceRun(fs, recursive, times, s);
            Tells(s.input, r.err, r.s.input) && r.s.output == s.output
  {
    hide Tells;
    NoAck(s);
  }

  /** There are as many writes in a script as acks for them. */
  lemma {:induction false} ScriptHasAcks(times: bool, n: Node)
    ensures |Script(times, n)| == Acks(times, n)
    decreases n
  {
    if n.Dir? {
      ScriptsHaveAcks(times, n.children);
    }
  }

  lemma {:induction false} ScriptsHaveAcks(times: bool, ns: seq<Node>)
    ensures |ScriptAll(times, ns)| == AcksAll(times, ns)
    decreases ns
  {
    if ns != [] {
      ScriptHasAcks(times, ns[0]);
      ScriptsHaveAcks(times, ns[1..]);
    }
  }

  // ---- where a source stops that cannot read on

  function Announcement(u: Node): bytes {
    if u.File? then Print(FileMessage(u)) else Print(DirMessage(u))
  }

  /** u is what is to be read next when the directory field is dir, and it cannot be read. */
  predicate Unreadable(fs: SourceFs, dir: Path, u: Node) {
    if u.File? then Lookup(fs.root, dir + [u.name]) == Some(u) && ReadFile(fs, SourcePath(dir, u.name)).None?
    else Lookup(fs.root, dir) == Some(u) && dir in fs.denied
  }

  /** Of stream all has been written that comes before u, and the announcement of u, which cannot be read. */
  predicate StopsAt(fs: SourceFs, s: SourceState, r: Sent, stream: bytes, before: bytes, u: Node) {
    && r.err == Some(LocalFailure) && Unreadable(fs, r.s.dir, u)
    && before + Announcement(u) <= stream
    && r.s.output == s.output + before + Announcement(u)
  }

  lemma StopsFurther(fs: SourceFs, s: SourceState, s': SourceState, r: Sent, done: bytes, stream: bytes, more: bytes,
                     before: bytes, u: Node)
    requires StopsAt(fs, s', r, stream, before, u) && s'.output == s.output + done
    ensures StopsAt(fs, s, r, done + (stream + more), done + before, u)
  {
    var end := Announcement(u);
    assert s.output + done + before + end == s.output + (done + before) + end;
    assert stream == before + end + stream[|before + end|..];
    assert done + (stream + more) == (done + before + end) + (stream[|before + end|..] + more);
  }

  lemma StopsWithError(fs: SourceFs, s: SourceState, r: Sent, stream: bytes, before: bytes, u: Node)
    requires StopsAt(fs, s, r, stream, before, u)
    ensures r.err.Some?
  {
  }

  /** The announcement of a directory, with its acks. */
  lemma AnnouncedDirectory(fs: SourceFs, times: bool, s: SourceState, n: Node) returns (s1: SourceState)
    requires At(fs, s.dir, n) && Acked(s.input, Acks(times, n))
    ensures s1.dir == s.dir && s1.output == s.output + (Stamp(times, n) + Print(DirMessage(n)))
    ensures Acked(s1.input, AcksAll(times, n.children))
    ensures var r := SendDirectory(fs, times, s, n);
            if s.dir in fs.denied then r == Sent(s1, Some(LocalFailure))
            else var cs := SendChildren(fs, times, s1, n, 0);
                 cs.err.Some? ==> r == cs
  {
    hide Print, SendChildren;
    var k0, m := if times then 1 else 0, Print(DirMessage(n));
    var s0 := Advanced(s, k0, Stamp(times, n));
    SendTimesAcked(times, s, n);
    SendAcked(s0, m);
    s1 := Advanced(s0, 1, m);
    assert s.output + Stamp(times, n) + m == s.output + (Stamp(times, n) + m);
  }

  lemma {:induction false} DirectoryStops(fs: SourceFs, times: bool, s: SourceState, n: Node)
    returns (before: bytes, u: Node)
    requires At(fs, s.dir, n) && Acked(s.input, Acks(times, n)) && !Readable(fs, s.dir, n)
    ensures StopsAt(fs, s, SendDirectory(fs, times, s, n), Stream(times, n), before, u)
    decreases n, 1
  {
    hide Print, StopsAt, SendDirectory, Acks, Stamp;
    var r, done := SendDirectory(fs, times, s, n), Stamp(times, n) + Print(DirMessage(n));
    var s1 := AnnouncedDirectory(fs, times, s, n);
    var rest := StreamAll(times, n.children) + Print(EMsg);
    assert Stream(times, n) == Stamp(times, n) + (Print(DirMessage(n)) + rest) == done + rest;
    if s.dir in fs.denied {
      before, u := Stamp(times, n), n;
      assert s.output + done == s.output + Stamp(times, n) + Print(DirMessage(n));
      StopsHere(fs, s, r, before, u, rest);
    } else {
      assert n.children[0..] == n.children;
      before, u := ChildrenStop(fs, times, s1, n, 0);
      StopsWithError(fs, s1, SendChildren(fs, times, s1, n, 0), StreamAll(times, n.children), before, u);
      StopsFurther(fs, s, s1, r, done, StreamAll(times, n.children), Print(EMsg), before, u);
      before := done + before;
    }
  }

  lemma StopsHere(fs: SourceFs, s: SourceState, r: Sent, before: bytes, u: Node, rest: bytes)
    requires r.err == Some(LocalFailure) && Unreadable(fs, r.s.dir, u)
    requires r.s.output == s.output + before + Announcement(u)
    ensures StopsAt(fs, s, r, before + (Announcement(u) + rest), before, u)
  {
    assert before + (Announcement(u) + rest) == (before + Announcement(u)) + rest;
  }

  lemma FileStops(fs: SourceFs, times: bool, s: SourceState, d: Node, i: nat)
    requires At(fs, s.dir, d) && i < |d.children| && d.children[i].File? && Acked(s.input, Acks(times, d.children[i]))
    requires ReadFile(fs, SourcePath(s.dir, d.children[i].name)).None?
    ensures var c := d.children[i];
            StopsAt(fs, s, SendFile(fs, times, s, c), Stream(times, c), Stamp(times, c), c)
  {
    hide Print, ReadFile, SourcePath, WellFormed;
    var c, k0 := d.children[i], if times then 1 else 0;
    LookupChild(fs.root, s.dir, i);
    var s0 := Advanced(s, k0, Stamp(times, c));
    SendTimesAcked(times, s, c);
    SendAcked(s0, Print(FileMessage(c)));
    StopsHere(fs, s, SendFile(fs, times, s, c), Stamp(times, c), c, c.content + [0]);
  }

  lemma NotReadable(fs: SourceFs, dir: Path, d: Node, i: nat)
    requires At(fs, dir, d) && i < |d.children| && d.children[i].File? && !Readable(fs, dir, d.children[i])
    ensures ReadFile(fs, SourcePath(dir, d.children[i].name)).None?
  {
    LookupChild(fs.root, dir, i);
    JoinPlain(dir, d.children[i].name);
  }

  lemma {:induction false} ChildStops(fs: SourceFs, times: bool, s: SourceState, d: Node, i: nat)
    returns (before: bytes, u: Node)
    requires At(fs, s.dir, d) && i < |d.children| && Acked(s.input, Acks(times, d.children[i]))
    requires !Readable(fs, PathFor(s.dir, d.children[i]), d.children[i])
    ensures StopsAt(fs, s, SendChild(fs, times, s, d, i), Stream(times, d.children[i]), before, u)
    decreases d, 0, 0
  {
    hide Print, Stream, Acks, SendDirectory, SendFile, Readable, WellFormed, ReadFile, SourcePath;
    var c := d.children[i];
    if c.Dir? {
      EntryAt(fs, s.dir, d, i);
      LookupChild(fs.root, s.dir, i);
      JoinPlain(s.dir, c.name);
      var inner := s.(dir := Join(s.dir, c.name));
      before, u := DirectoryStops(fs, times, inner, c);
      StopsWithError(fs, inner, SendDirectory(fs, times, inner, c), Stream(times, c), before, u);
    } else {
      NotReadable(fs, s.dir, d, i);
      FileStops(fs, times, s, d, i);
      before, u := Stamp(times, c), c;
    }
  }

  lemma StopsBefore(fs: SourceFs, s: SourceState, r: Sent, stream: bytes, more: bytes, before: bytes, u: Node)
    requires StopsAt(fs, s, r, stream, before, u)
    ensures StopsAt(fs, s, r, stream + more, before, u)
  {
  }

  lemma NextChild(fs: SourceFs, times: bool, s: SourceState, d: Node, i: nat)
    requires At(fs, s.dir, d) && i < |d.children|
    ensures var sent := SendChild(fs, times, s, d, i);
            SendChildren(fs, times, s, d, i) ==
            if sent.err.Some? then sent else SendChildren(fs, times, sent.s, d, i + 1)
    ensures d.children[i..][0] == d.children[i] && d.children[i..][1..] == d.children[i + 1..]
  {
    hide SendChild;
  }

  lemma {:induction false} ChildrenStop(fs: SourceFs, times: bool, s: SourceState, d: Node, i: nat)
    returns (before: bytes, u: Node)
    requires At(fs, s.dir, d) && i <= |d.children| && Acked(s.input, AcksAll(times, d.children[i..]))
    requires !AllReadable(fs, s.dir, d.children[i..])
    ensures StopsAt(fs, s, SendChildren(fs, times, s, d, i), StreamAll(times, d.children[i..]), before, u)
    decreases d, 0, 1 + |d.children| - i
  {
    hide SendChild, SendChildren, Stream, Readable, Acks, WellFormed, Lookup, PathFor, StopsAt;
    var ns, c, r := d.children[i..], d.children[i], SendChildren(fs, times, s, d, i);
    NextChild(fs, times, s, d, i);
    assert ns == [c] + ns[1..];
    var stream, more := Stream(times, c), StreamAll(times, ns[1..]);
    if Readable(fs, PathFor(s.dir, c), c) {
      ChildSent(fs, times, s, d, i);
      var s1 := Advanced(s, Acks(times, c), stream);
      before, u := ChildrenStop(fs, times, s1, d, i + 1);
      StopsFurther(fs, s, s1, r, stream, more, [], before, u);
      assert more + [] == more;
      before := stream + before;
    } else {
      before, u := ChildStops(fs, times, s, d, i);
      StopsWithError(fs, s, SendChild(fs, times, s, d, i), stream, before, u);
      StopsBefore(fs, s, r, stream, more, before, u);
    }
  }

  /**
   A source that gets all its acks and cannot read everything in a directory: it has written the tree's bytes up to the
   announcement of something that cannot be read, and stops there.
   */
  lemma SourceStops(fs: SourceFs, times: bool, s: SourceState) returns (before: bytes, u: Node)
    requires WellFormed(fs.root) && fs.root.Dir? && Stat(fs, s.dir).Some? && Stat(fs, s.dir).value.Dir?
    requires Acked(s.input, 1 + Acks(times, Stat(fs, s.dir).value)) && !Readable(fs, s.dir, Stat(fs, s.dir).value)
    ensures StopsAt(fs, s, SourceRun(fs, true, times, s), Stream(times, Stat(fs, s.dir).value), before, u)
  {
    hide StopsAt;
    var n, a := Stat(fs, s.dir).value, GetAck(s);
    before, u := DirectoryStops(fs, times, a.s, n);
    assert [] + (Stream(times, n) + []) == Stream(times, n) && [] + before == before;
    assert s.output + [] == s.output;
    StopsFurther(fs, s, a.s, SourceRun(fs, true, times, s), [], Stream(times, n), [], before, u);
  }
}
