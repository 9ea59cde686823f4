/**
 The sending end: walks a directory tree, writes messages and contents, and waits for an ack after each.
 */
module ScpSource {
  import opened Options
  import opened ScpUtf8
  import opened ScpStrconv
  import opened ScpMessages
  import opened ScpPaths
  import opened ScpDisk
  import opened ScpSink

  /** A file system object. size is what stat reports of a file, which need not be the length of its content. */
  datatype Node =
    | File(name: bytes, mode: uint32, times: Times, size: int64, content: bytes)
    | Dir(name: bytes, mode: uint32, times: Times, children: seq<Node>)

  /** A file system as the source sees it: a tree, and the paths that cannot be read. */
  datatype SourceFs = SourceFs(root: Node, denied: set<Path>)

  /** What every file system guarantees: names are single components, and siblings have different names. */
  predicate WellFormed(n: Node)
    decreases n
  {
    n.Dir? ==>
      && (forall c :: c in n.children ==> Plain(c.name) && WellFormed(c))
      && (forall i, j :: 0 <= i < j < |n.children| ==> n.children[i].name != n.children[j].name)
  }

  function Child(children: seq<Node>, name: bytes): Option<Node> {
    if children == [] then None
    else if children[0].name == name then Some(children[0])
    else Child(children[1..], name)
  }

  function Lookup(n: Node, p: Path): Option<Node>
    decreases |p|
  {
    if p == [] then Some(n)
    else if n.File? then None
    else
      match Child(n.children, p[0])
      case None => None
      case Some(c) => Lookup(c, p[1..])
  }

  function Stat(fs: SourceFs, p: Path): Option<Node> {
    if p in fs.denied then None else Lookup(fs.root, p)
  }

  /** The directory's entries; None for anything but a readable directory. */
  function ReadDir(fs: SourceFs, p: Path): Option<seq<Node>> {
    match Stat(fs, p)
    case Some(Dir(_, _, _, children)) => Some(children)
    case _ => None
  }

  /** Opening and copying a file; a directory can be opened, but reading it fails. */
  function ReadFile(fs: SourceFs, p: Path): Option<bytes> {
    match Stat(fs, p)
    case Some(File(_, _, _, _, content)) => Some(content)
    case _ => None
  }

  lemma {:induction false} ChildOf(children: seq<Node>, i: nat)
    requires i < |children|
    requires forall k, j :: 0 <= k < j < |children| ==> children[k].name != children[j].name
    ensures Child(children, children[i].name) == Some(children[i])
    decreases |children|
  {
    if i > 0 {
      ChildOf(children[1..], i - 1);
    }
  }

  /** The entry of a directory is found under the directory's path and its own name. */
  lemma {:induction false} LookupChild(n: Node, p: Path, i: nat)
    requires WellFormed(n) && Lookup(n, p).Some? && Lookup(n, p).value.Dir? && i < |Lookup(n, p).value.children|
    ensures var c := Lookup(n, p).value.children[i];
            Lookup(n, p + [c.name]) == Some(c) && Plain(c.name) && WellFormed(c)
    decreases |p|
  {
    if p == [] {
      var name := n.children[i].name;
      ChildOf(n.children, i);
      assert p + [name] == [name] && (p + [name])[1..] == p;
    } else {
      var c := Child(n.children, p[0]).value;
      ChildIsMember(n.children, p[0]);
      LookupChild(c, p[1..], i);
      var name := Lookup(n, p).value.children[i].name;
      assert (p + [name])[1..] == p[1..] + [name];
    }
  }

  lemma {:induction false} ChildIsMember(children: seq<Node>, name: bytes)
    requires Child(children, name).Some?
    ensures Child(children, name).value in children && Child(children, name).value.name == name
    decreases |children|
  {
    if children[0].name != name {
      ChildIsMember(children[1..], name);
    }
  }

  datatype SourceError =
    | AcksEnded
    | Refused(text: bytes)
    | BadAck(found: byte)
    | LocalFailure
    | NotRegular

  datatype SourceState = SourceState(dir: Path, input: bytes, output: bytes)

  datatype Sent = Sent(s: SourceState, err: Option<SourceError>)

  function GetAck(s: SourceState): Sent {
    if s.input == [] then Sent(s, Some(AcksEnded))
    else
      var b, rest := s.input[0], s.input[1..];
      if b == 1 || b == 2 then
        var n := LineLength(rest);
        if n == 0 then Sent(s.(input := []), Some(AcksEnded))
        else Sent(s.(input := rest[n..]), Some(Refused(rest[..n])))
      else if b != 0 then Sent(s.(input := rest), Some(BadAck(b)))
      else Sent(s.(input := rest), None)
  }

  /** Writes data and waits for the ack. */
  function Send(s: SourceState, data: bytes): Sent {
    GetAck(s.(output := s.output + data))
  }

  /** f.Mode() & os.ModePerm */
  function Perm(mode: uint32): uint32 {
    mode % 512
  }

  /** uint64(f.Size()) */
  function AsLength(size: int64): uint64 {
    if size < 0 then size + TWO_TO_THE_64 else size
  }

  function TimesMessage(f: Node): Message {
    TMsg(f.times.mTime, f.times.aTime)
  }

  function FileMessage(f: Node): Message
    requires f.File?
  {
    CMsg(Perm(f.mode), AsLength(f.size), f.name)
  }

  function DirMessage(f: Node): Message {
    DMsg(Perm(f.mode), 0, f.name)
  }

  /** path: a directory field that already ends in the file's name is taken for the file's path. */
  function SourcePath(maybeDir: Path, file: bytes): Path {
    if Base(maybeDir) == file then maybeDir else Join(maybeDir, file)
  }

  function SendTimes(times: bool, s: SourceState, f: Node): Sent {
    if times then Send(s, Print(TimesMessage(f))) else Sent(s, None)
  }

  function SendFile(fs: SourceFs, times: bool, s: SourceState, f: Node): Sent
    requires f.File?
  {
    var t := SendTimes(times, s, f);
    if t.err.Some? then t else
    var c := Send(t.s, Print(FileMessage(f)));
    if c.err.Some? then c else
    match ReadFile(fs, SourcePath(s.dir, f.name))
    case None => Sent(c.s, Some(LocalFailure))
    case Some(content) => Send(c.s, content + [0])
  }

  /** dir is where the directory f is. */
  ghost predicate At(fs: SourceFs, dir: Path, f: Node) {
    WellFormed(fs.root) && f.Dir? && Lookup(fs.root, dir) == Some(f)
  }

  /** An entry of a directory is where joining its name leads, and from there its parent is the directory. */
  lemma EntryAt(fs: SourceFs, dir: Path, f: Node, i: nat)
    requires At(fs, dir, f) && i < |f.children|
    ensures var c := f.children[i];
            && (c.Dir? ==> At(fs, Join(dir, c.name), c))
            && Parent(Join(dir, c.name)) == dir
  {
    LookupChild(fs.root, dir, i);
    JoinPlain(dir, f.children[i].name);
  }

  function SendDirectory(fs: SourceFs, times: bool, s: SourceState, f: Node): (r: Sent)
    requires At(fs, s.dir, f)
    ensures r.err.None? ==> r.s.dir == s.dir
    decreases f, 1
  {
    var t := SendTimes(times, s, f);
    if t.err.Some? then t else
    var d := Send(t.s, Print(DirMessage(f)));
    if d.err.Some? then d else
    match ReadDir(fs, s.dir)
    case None => Sent(d.s, Some(LocalFailure))
    case Some(files) =>
      var cs := SendChildren(fs, times, d.s, f, 0);
      if cs.err.Some? then cs else Send(cs.s, Print(EMsg))
  }

  /** The directory's entries from the i-th on. */
  function SendChildren(fs: SourceFs, times: bool, s: SourceState, f: Node, i: nat): (r: Sent)
    requires At(fs, s.dir, f) && i <= |f.children|
    ensures r.err.None? ==> r.s.dir == s.dir
    decreases f, 0, 1 + |f.children| - i
  {
    if i == |f.children| then Sent(s, None)
    else
      var sent := SendChild(fs, times, s, f, i);
      if sent.err.Some? then sent else SendChildren(fs, times, sent.s, f, i + 1)
  }

  /** One entry; for a directory the field dir is extended and cut back. */
  function SendChild(fs: SourceFs, times: bool, s: SourceState, f: Node, i: nat): (r: Sent)
    requires At(fs, s.dir, f) && i < |f.children|
    ensures r.err.None? ==> r.s.dir == s.dir
    decreases f, 0, 0
  {
    var fi := f.children[i];
    EntryAt(fs, s.dir, f, i);
    if fi.Dir? then
      var inner := SendDirectory(fs, times, s.(dir := Join(s.dir, fi.name)), fi);
      if inner.err.Some? then inner else Sent(inner.s.(dir := Parent(inner.s.dir)), None)
    else SendFile(fs, times, s, fi)
  }

  function SourceRun(fs: SourceFs, recursive: bool, times: bool, s: SourceState): Sent
    requires WellFormed(fs.root)
  {
    var a := GetAck(s);
    if a.err.Some? then a else
    match Stat(fs, s.dir)
    case None => Sent(a.s, Some(LocalFailure))
    case Some(f) =>
      if f.File? then SendFile(fs, times, a.s, f)
      else if recursive then SendDirectory(fs, times, a.s, f)
      else Sent(a.s, Some(NotRegular))
  }

  class Source {
    const fs: SourceFs
    const recursive: bool
    const times: bool
    var dir: Path
    var input: bytes
    var output: bytes

    ghost function State(): SourceState
      reads this
    {
      SourceState(dir, input, output)
    }

    constructor (fs: SourceFs, recursive: bool, times: bool, dir: Path, input: bytes)
      ensures this.fs == fs && this.recursive == recursive && this.times == times
      ensures State() == SourceState(dir, input, [])
    {
      this.fs, this.recursive, this.times := fs, recursive, times;
      this.dir, this.input, this.output := dir, input, [];
    }

    method TakeAck() returns (err: Option<SourceError>)
      modifies this`input
      ensures Sent(State(), err) == GetAck(old(State()))
    {
      if input == [] {
        return Some(AcksEnded);
      }
      var b := input[0];
      input := input[1..];
      if b == 1 || b == 2 {
        var n := LineLength(input);
        if n == 0 {
          input := [];
          return Some(AcksEnded);
        }
        var text := input[..n];
        input := input[n..];
        return Some(Refused(text));
      } else if b != 0 {
        return Some(BadAck(b));
      }
      err := None;
    }

    method Write(data: bytes) returns (err: Option<SourceError>)
      modifies this`input, this`output
      ensures Sent(State(), err) == Send(old(State()), data)
    {
      output := output + data;
      err := TakeAck();
    }

    method WriteTimes(f: Node) returns (err: Option<SourceError>)
      modifies this`input, this`output
      ensures Sent(State(), err) == SendTimes(times, old(State()), f)
    {
      if times {
        err := Write(Print(TimesMessage(f)));
      } else {
        err := None;
      }
    }

    method WriteFile(f: Node) returns (err: Option<SourceError>)
      requires f.File?
      modifies this`input, this`output
      ensures Sent(State(), err) == SendFile(fs, times, old(State()), f)
    {
      err := WriteTimes(f);
      if err.Some? {
        return;
      }
      err := Write(Print(FileMessage(f)));
      if err.Some? {
        return;
      }
      var content := ReadFile(fs, SourcePath(dir, f.name));
      if content.None? {
        return Some(LocalFailure);
      }
      ghost var o := output;
      output := output + content.value;
      assert output + [0] == o + (content.value + [0]);
      err := Write([0]);
    }

    method WriteDirectory(f: Node) returns (err: Option<SourceError>)
      requires At(fs, dir, f)
      modifies this
      ensures Sent(State(), err) == SendDirectory(fs, times, old(State()), f)
      decreases f, 1
    {
      err := WriteTimes(f);
      if err.Some? {
        return;
      }
      err := Write(Print(DirMessage(f)));
      if err.Some? {
        return;
      }
      var files := ReadDir(fs, dir);
      if files.None? {
        return Some(LocalFailure);
      }
      ghost var s0, d := State(), dir;
      for i := 0 to |files.value|
        invariant dir == d && err.None?
        invariant SendChildren(fs, times, State(), f, i) == SendChildren(fs, times, s0, f, 0)
      {
        err := WriteEntry(files.value[i], f, i);
        if err.Some? {
          return;
        }
      }
      err := Write(Print(EMsg));
    }

    /** The body of WriteDirectory's loop. */
    method WriteEntry(fi: Node, ghost f: Node, ghost i: nat) returns (err: Option<SourceError>)
      requires At(fs, dir, f) && i < |f.children| && fi == f.children[i]
      modifies this
      ensures Sent(State(), err) == SendChild(fs, times, old(State()), f, i)
      decreases f, 0
    {
      EntryAt(fs, dir, f, i);
      if fi.Dir? {
        dir := Join(dir, fi.name);
        err := WriteDirectory(fi);
        if err.Some? {
          return;
        }
        dir := Parent(dir);
      } else {
        err := WriteFile(fi);
      }
    }

    method RunSource() returns (err: Option<SourceError>)
      requires WellFormed(fs.root)
      modifies this
      ensures Sent(State(), err) == SourceRun(fs, recursive, times, old(State()))
    {
      err := TakeAck();
      if err.Some? {
        return;
      }
      var f := Stat(fs, dir);
      if f.None? {
        return Some(LocalFailure);
      }
      if f.value.Dir? {
        if !recursive {
          return Some(NotRegular);
        }
        err := WriteDirectory(f.value);
      } else {
        err := WriteFile(f.value);
      }
    }
  }
}
