/**
 When a sink takes a message, and what is then on its disk: exactly which files and directories can be written, how much
 of the input is a file's content, and what is left as it was.
 */
module ScpEffects {
  import opened Options
  import opened ScpStrconv
  import opened ScpMessages
  import opened ScpPaths
  import opened ScpDisk
  import opened ScpSink

  /** p is in a directory and is none itself, and the disk does not refuse to open it. */
  predicate CanBeFile(d: Disk, p: Path) {
    && p != [] && p !in d.openFails
    && (p in d.nodes ==> d.nodes[p].FileEntry?)
    && (|p| == 1 || (p[..|p| - 1] in d.nodes && d.nodes[p[..|p| - 1]].DirEntry?))
  }

  /** The number of bytes that come as a file's content. No file has 2^63 bytes or more; then none come. */
  function Announced(length: uint64): nat {
    if length < 0x8000_0000_0000_0000 then length else 0
  }

  /** From before to after only the entry at p was changed. */
  ghost predicate OnlyAt(p: Path, before: Disk, after: Disk) {
    && after == before.(nodes := after.nodes)
    && p in after.nodes
    && forall q :: q != p ==> (q in after.nodes <==> q in before.nodes)
                              && (q in before.nodes ==> after.nodes[q] == before.nodes[q])
  }

  /** The times that are to be set, or else those of the entry that was there. */
  function TimesThen(s: SinkState, p: Path): Option<Times> {
    if s.timeSet then Some(Times(s.aTime, s.mTime)) else if p in s.disk.nodes then s.disk.nodes[p].times else None
  }

  /**
   A C message is taken if and only if its file can be opened and has room, and a zero byte comes after as many bytes
   as announced; these are then the file's content. A file that was there keeps its mode.
   */
  lemma FileTakenExactlyIf(s: SinkState, m: Message)
    requires m.CMsg?
    ensures var p, n, r := TargetPath(s.dir, m.name), Announced(m.length), Process(s, m);
            && r.err == (if !CanBeFile(s.disk, p) then Some(OpenFailed) else CopyError(s, p, n))
            && (r.err.None? ==>
                  && OnlyAt(p, s.disk, r.s.disk)
                  && r.s == s.(timeSet := false, input := s.input[n + 1..], output := s.output + [0, 0],
                               disk := r.s.disk)
                  && r.s.disk.nodes[p] == FileEntry(if p in s.disk.nodes then s.disk.nodes[p].mode else m.mode,
                                                    s.input[..n], TimesThen(s, p)))
  {
    hide TargetPath, CopyContent;
    var p, n, r := TargetPath(s.dir, m.name), Announced(m.length), Process(s, m);
    var file := OpenFile(s.disk, p, m.mode);
    if file.Some? {
      var s1 := Ack(s.(disk := file.value));
      CopiedContent(s1, p, n);
      assert s.output + [0] + [0] == s.output + [0, 0];
    }
  }

  /** What goes wrong when n bytes and a zero byte are to be read into the empty file at p, if anything does. */
  function CopyError(s: SinkState, p: Path, n: nat): Option<SinkError> {
    var came := if n < |s.input| then n else |s.input|;
    if p in s.disk.room && came > s.disk.room[p] then Some(WriteFailed)
    else if |s.input| <= n then Some(InputEnded)
    else if s.input[n] != 0 then Some(BadTerminator(s.input[n])) else None
  }

  lemma CopiedContent(s: SinkState, p: Path, n: nat)
    requires p in s.disk.nodes && s.disk.nodes[p].FileEntry? && s.disk.nodes[p].content == []
    ensures var r := CopyContent(s, p, n);
            && r.err == CopyError(s, p, n)
            && (r.err.None? ==>
                  && OnlyAt(p, s.disk, r.s.disk)
                  && r.s == s.(timeSet := false, input := s.input[n + 1..], output := s.output + [0], disk := r.s.disk)
                  && r.s.disk.nodes[p] == FileEntry(s.disk.nodes[p].mode, s.input[..n], TimesThen(s, p)))
  {
    var k := if n < |s.input| then n else |s.input|;
    assert [] + s.input[..k] == s.input[..k];
    if n < |s.input| {
      assert s.input[n..][0] == s.input[n] && s.input[n..][1..] == s.input[n + 1..];
    }
  }

  /**
   A D message is taken if and only if it has no length and its directory is there or can be made (see MadeWithParents);
   its times are then set, if there are any to be set.
   */
  lemma DirectoryTakenExactlyIf(s: SinkState, m: Message)
    requires m.DMsg?
    ensures var p, r := Join(s.dir, m.name), Process(s, m);
            var made := MkdirAll(s.disk, p, m.mode);
            && r.err == (if m.length != 0 then Some(InvalidLength) else if made.None? then Some(MkdirFailed) else None)
            && (r.err.None? ==>
                  && r.s == s.(dir := p, timeSet := false, output := s.output + [0], disk := r.s.disk)
                  && (if p in made.value.nodes then OnlyAt(p, made.value, r.s.disk) else r.s.disk == made.value)
                  && (p in made.value.nodes ==>
                        r.s.disk.nodes[p] == made.value.nodes[p].(times := TimesThen(s.(disk := made.value), p))))
  {
    hide Join, MkdirAll;
  }
}
