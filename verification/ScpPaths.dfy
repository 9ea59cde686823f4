/**
 Absolute, clean paths as their components; the root is the empty path. The directory fields of an SCP
 session hold no other paths, because filepath.Abs made the first one.
 */
module ScpPaths {
  import opened ScpUtf8

  type Path = seq<bytes>

  const DOT: byte := 46

  /** A name that is one component and means itself. */
  predicate Plain(name: bytes) {
    name != [] && SLASH !in name && name != [DOT] && name != [DOT, DOT]
  }

  /** The parts of a string between its slashes. */
  function Components(s: bytes): seq<bytes> {
    SplitFrom([], s)
  }

  function SplitFrom(part: bytes, s: bytes): seq<bytes>
    decreases |s|
  {
    if s == [] then [part]
    else if s[0] == SLASH then [part] + SplitFrom([], s[1..])
    else SplitFrom(part + [s[0]], s[1..])
  }

  function Parent(p: Path): Path {
    if p == [] then [] else p[..|p| - 1]
  }

  /** filepath.Clean, one component at a time. */
  function Resolve(p: Path, parts: seq<bytes>): Path
    decreases |parts|
  {
    if parts == [] then p
    else if parts[0] == [] || parts[0] == [DOT] then Resolve(p, parts[1..])
    else if parts[0] == [DOT, DOT] then Resolve(Parent(p), parts[1..])
    else Resolve(p + [parts[0]], parts[1..])
  }

  /** filepath.Join(p, name) */
  function Join(p: Path, name: bytes): Path {
    Resolve(p, Components(name))
  }

  /** filepath.Base */
  function Base(p: Path): bytes {
    if p == [] then [SLASH] else p[|p| - 1]
  }

  lemma {:induction false} SplitWithoutSlash(part: bytes, s: bytes)
    requires SLASH !in s
    ensures SplitFrom(part, s) == [part + s]
    decreases |s|
  {
    if s == [] {
      assert part + s == part;
    } else {
      assert s[0] in s;
      SplitWithoutSlash(part + [s[0]], s[1..]);
      assert part + [s[0]] + s[1..] == part + s;
    }
  }

  /** Joining a plain name appends it, and splitting it off again undoes that. */
  lemma JoinPlain(p: Path, name: bytes)
    requires Plain(name)
    ensures Join(p, name) == p + [name]
    ensures Parent(Join(p, name)) == p
    ensures Base(Join(p, name)) == name
  {
    SplitWithoutSlash([], name);
    assert [] + name == name;
    assert Components(name) == [name] && [name][1..] == [];
    assert Resolve(p + [name], [name][1..]) == p + [name];
    assert (p + [name])[..|p|] == p;
  }

  // ---- what joining means, whatever the string is

  lemma {:induction false} SplitAtSlash(part: bytes, a: bytes, b: bytes)
    ensures SplitFrom(part, a + [47] + b) == SplitFrom(part, a) + SplitFrom([], b)
    decreases |a|
  {
    var s := a + [47] + b;
    if a == [] {
      assert s[1..] == b;
    } else {
      assert s[1..] == a[1..] + [47] + b;
      if a[0] == SLASH {
        SplitAtSlash([], a[1..], b);
      } else {
        SplitAtSlash(part + [a[0]], a[1..], b);
      }
    }
  }

  lemma {:induction false} ResolveInTurn(p: Path, a: seq<bytes>, b: seq<bytes>)
    ensures Resolve(p, a + b) == Resolve(Resolve(p, a), b)
    decreases |a|
  {
    if a == [] {
      assert a + b == b;
    } else {
      assert (a + b)[1..] == a[1..] + b;
      if a[0] == [] || a[0] == [DOT] {
        ResolveInTurn(p, a[1..], b);
      } else if a[0] == [DOT, DOT] {
        ResolveInTurn(Parent(p), a[1..], b);
      } else {
        ResolveInTurn(p + [a[0]], a[1..], b);
      }
    }
  }

  /** What a slash separates is joined one after the other. */
  lemma JoinInTurn(p: Path, a: bytes, b: bytes)
    ensures Join(p, a + [47] + b) == Join(Join(p, a), b)
  {
    SplitAtSlash([], a, b);
    ResolveInTurn(p, Components(a), Components(b));
  }

  lemma ResolveOne(p: Path, part: bytes)
    ensures Resolve(p, [part]) == if part == [] || part == [DOT] then p
                                  else if part == [DOT, DOT] then Parent(p) else p + [part]
  {
    var parts := [part];
    assert parts[1..] == [];
    assert forall q :: Resolve(q, []) == q;
  }

  /** Without a slash, nothing and a dot lead nowhere, two dots lead to the parent, and all else is a name. */
  lemma JoinOne(p: Path, s: bytes)
    requires 47 !in s
    ensures Join(p, s) == if s == [] || s == [46] then p
                          else if s == [46, 46] then (if p == [] then [] else p[..|p| - 1])
                          else p + [s]
  {
    SplitWithoutSlash([], s);
    assert [] + s == s;
    ResolveOne(p, s);
  }
}
