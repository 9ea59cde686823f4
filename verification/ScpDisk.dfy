/**
 The file system behind the function fields openFile, mkdir and chtimes of a sink, with the failures it
 will show: which paths cannot be opened or made, and how much each file has room for.
 */
module ScpDisk {
  import opened Options
  import opened ScpUtf8
  import opened ScpStrconv
  import opened ScpPaths

  datatype Times = Times(aTime: int64, mTime: int64)

  /** times is None until chtimes sets them. */
  datatype Entry =
    | DirEntry(mode: uint32, times: Option<Times>)
    | FileEntry(mode: uint32, content: bytes, times: Option<Times>)

  datatype Disk = Disk(nodes: map<Path, Entry>, openFails: set<Path>, mkdirFails: set<Path>, room: map<Path, nat>)

  predicate IsDir(nodes: map<Path, Entry>, p: Path) {
    p == [] || (p in nodes && nodes[p].DirEntry?)
  }

  /** os.OpenFile with O_CREATE|O_TRUNC|O_WRONLY: an existing file keeps its mode and loses its content. */
  function OpenFile(d: Disk, p: Path, mode: uint32): Option<Disk> {
    if p in d.openFails || IsDir(d.nodes, p) || !IsDir(d.nodes, Parent(p)) then
      None
    else if p in d.nodes then
      Some(d.(nodes := d.nodes[p := d.nodes[p].(content := [])]))
    else
      Some(d.(nodes := d.nodes[p := FileEntry(mode, [], None)]))
  }

  /** os.MkdirAll: makes what is missing on the way; an existing directory stays as it is. */
  function MkdirAll(d: Disk, p: Path, mode: uint32): Option<Disk>
    decreases |p|
  {
    if p in d.mkdirFails then None
    else if IsDir(d.nodes, p) then Some(d)
    else if p in d.nodes then None
    else
      match MkdirAll(d, Parent(p), mode)
      case None => None
      case Some(d') => Some(d'.(nodes := d'.nodes[p := DirEntry(mode, None)]))
  }

  /** A directory is made with all that is missing on the way, each with the mode, and nothing else is changed. */
  lemma {:induction false} MadeWithParents(d: Disk, p: Path, mode: uint32)
    requires MkdirAll(d, p, mode).Some?
    ensures var d' := MkdirAll(d, p, mode).value;
            && d' == d.(nodes := d'.nodes)
            && (forall q :: q in d.nodes ==> q in d'.nodes && d'.nodes[q] == d.nodes[q])
            && (forall q :: q in d'.nodes && q !in d.nodes ==> q <= p && d'.nodes[q] == DirEntry(mode, None))
            && IsDir(d'.nodes, p)
    decreases |p|
  {
    if !IsDir(d.nodes, p) {
      MadeWithParents(d, Parent(p), mode);
    }
  }

  /** p[..n] is there, all that is missing from there on can be made, and nothing is refused. */
  ghost predicate CanBeMade(d: Disk, p: Path, n: nat)
    requires n <= |p|
  {
    && IsDir(d.nodes, p[..n])
    && (forall k :: n <= k <= |p| ==> p[..k] !in d.mkdirFails)
    && (forall k :: n < k <= |p| ==> p[..k] !in d.nodes)
  }

  /** A directory is made if and only if it or one above it is there, and nothing is in the way from there on. */
  lemma {:induction false} MadeExactlyIf(d: Disk, p: Path, mode: uint32)
    ensures MkdirAll(d, p, mode).Some? <==> exists n :: 0 <= n <= |p| && CanBeMade(d, p, n)
    decreases |p|
  {
    assert p[..|p|] == p;
    if p in d.mkdirFails {
    } else if IsDir(d.nodes, p) {
      assert CanBeMade(d, p, |p|);
    } else if p !in d.nodes {
      var q := Parent(p);
      MadeExactlyIf(d, q, mode);
      assert forall k :: 0 <= k <= |q| ==> p[..k] == q[..k];
      assert forall n :: 0 <= n <= |q| ==> (CanBeMade(d, p, n) <==> CanBeMade(d, q, n));
    }
  }

  datatype Written = Written(disk: Disk, ok: bool)

  /** Writes data at the end of the open file at p, as far as there is room. */
  function Write(d: Disk, p: Path, data: bytes): Written {
    if p !in d.nodes || !d.nodes[p].FileEntry? then
      Written(d, false)
    else
      var all := d.nodes[p].content + data;
      var ok := p in d.room ==> |all| <= d.room[p];
      var stored := if ok then all else all[..d.room[p]];
      Written(d.(nodes := d.nodes[p := d.nodes[p].(content := stored)]), ok)
  }

  /** Errors of chtimes are ignored, so a missing path changes nothing. */
  function Chtimes(d: Disk, p: Path, times: Times): Disk {
    if p in d.nodes then d.(nodes := d.nodes[p := d.nodes[p].(times := Some(times))]) else d
  }
}
