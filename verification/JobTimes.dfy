/**
 The timing of a job's run: the log of an undisturbed run gives every host the time from its own start
 to its own end.
 */
module JobTimes {
  import opened Options
  import opened JobConfig
  import opened JobVisit
  import opened JobRuns
  import opened JobProbes
  import opened JobCounts
  import opened JobNames
  import opened JobLimits
  import opened JobHosts
  import opened JobTiming

  /** The marks of the node with the given name. */
  function NodeMarks(tr: Trace, id: nat): seq<Mark> {
    if tr == [] then [] else MarkOf(tr[0], id) + NodeMarks(tr[1..], id)
  }

  function MarkOf(e: Event, id: nat): seq<Mark> {
    if Is(e, Logging(id)) then [e.mark] else []
  }

  predicate Absent(id: nat, nodes: set<Tree>) {
    forall t :: t in nodes ==> t.id != id
  }

  lemma {:induction false} MarksConcat(a: Trace, b: Trace, id: nat)
    ensures NodeMarks(a + b, id) == NodeMarks(a, id) + NodeMarks(b, id)
    decreases |a|
  {
    hide MarkOf;
    if a == [] {
      assert a + b == b;
    } else {
      assert (a + b)[1..] == a[1..] + b;
      MarksConcat(a[1..], b, id);
      var own := MarkOf(a[0], id);
      assert own + (NodeMarks(a[1..], id) + NodeMarks(b, id)) == own + NodeMarks(a[1..], id) + NodeMarks(b, id);
    }
  }

  lemma {:induction false} MarksShuffle(tr: Trace, a: Trace, b: Trace, id: nat)
    requires Shuffle(tr, a, b)
    ensures NodeMarks(b, id) == [] ==> NodeMarks(tr, id) == NodeMarks(a, id)
    ensures NodeMarks(a, id) == [] ==> NodeMarks(tr, id) == NodeMarks(b, id)
    decreases |tr|
  {
    if tr != [] {
      if a != [] && a[0] == tr[0] && Shuffle(tr[1..], a[1..], b) {
        MarksShuffle(tr[1..], a[1..], b, id);
      } else {
        MarksShuffle(tr[1..], a, b[1..], id);
      }
    }
  }

  lemma {:induction false} NoMarks(tr: Trace, id: nat)
    ensures Count(tr, Logging(id)) == 0 ==> NodeMarks(tr, id) == []
    decreases |tr|
  {
    if tr != [] {
      NoMarks(tr[1..], id);
    }
  }

  /** A name that no node has is never logged. */
  lemma {:induction false} AbsentCounts(t: Tree, at: seq<nat>, id: nat)
    requires Plain(t) && Absent(id, Nodes(t))
    ensures Most(Instrumented(t, at), Logging(id)) == 0
    decreases t
  {
    match t
    case Leaf(_, _) =>
    case Group(_, _, children) => AbsentCountsAll(children, at, 0, id);
    case Safeguard(_, child) => AbsentCounts(child, at + [0], id);
    case Bounds(_, child) => AbsentCounts(child, at + [0], id);
    case Retry(_, child, n) =>
      AbsentCounts(child, at + [0], id);
      assert n * 0 == 0;
  }

  lemma {:induction false} AbsentCountsAll(ts: seq<Tree>, at: seq<nat>, i: nat, id: nat)
    requires AllPlain(ts) && Absent(id, AllNodes(ts))
    ensures MostAll(InstrumentedAll(ts, at, i), Logging(id)) == 0
    decreases ts
  {
    if ts != [] {
      AbsentCounts(ts[0], at + [i], id);
      AbsentCountsAll(ts[1..], at, i + 1, id);
    }
  }

  lemma AbsentMarks(t: Tree, at: seq<nat>, ctx: Context, canc: Cancellation, tr: Trace, r: Result, id: nat)
    requires Plain(t) && Absent(id, Nodes(t)) && Runs(Instrumented(t, at), ctx, canc, tr, r)
    ensures NodeMarks(tr, id) == []
  {
    AbsentCounts(t, at, id);
    AtMost(Instrumented(t, at), ctx, canc, tr, r, Logging(id));
    NoMarks(tr, id);
  }

  lemma AbsentMarksAll(ts: seq<Tree>, at: seq<nat>, i: nat, ctx: Context, canc: Cancellation, tr: Trace, r: Result,
                       id: nat)
    requires AllPlain(ts) && Absent(id, AllNodes(ts)) && SequentialRuns(InstrumentedAll(ts, at, i), ctx, canc, tr, r)
    ensures NodeMarks(tr, id) == []
  {
    AbsentCountsAll(ts, at, i, id);
    AtMostInOrder(InstrumentedAll(ts, at, i), ctx, canc, tr, r, Logging(id));
    NoMarks(tr, id);
  }

  /** What a probe logs is its start, the inner marks, and its end. */
  lemma ProbeMarks(t: Tree, at: seq<nat>, ctx: Context, canc: Cancellation, tr: Trace, r: Result, id: nat)
    requires Plain(t) && Runs(Instrumented(t, at), ctx, canc, tr, r)
    ensures |tr| >= 2
    ensures var inner := NodeMarks(tr[1..|tr| - 1], id);
            NodeMarks(tr, id) == if t.id == id then [Start] + inner + [if r.Failed? then Fail else End] else inner
  {
    var inner, last := tr[1..|tr| - 1], [tr[|tr| - 1]];
    assert tr[1..] == inner + last && last[1..] == [];
    MarksConcat(inner, last, id);
  }

  lemma InsideProbe(t: Tree, at: seq<nat>, ctx: Context, canc: Cancellation, tr: Trace, r: Result)
    requires Plain(t) && Runs(Instrumented(t, at), ctx, canc, tr, r)
    ensures |tr| >= 2 && Runs(Opened(t, at), Watched(ctx, t.id), canc, tr[1..|tr| - 1], r)
    ensures t.Safeguard? ==> Opened(t, at) == Safeguard(t.id, Instrumented(t.child, at + [0]))
    ensures t.Bounds? ==> Opened(t, at) == Bounds(t.id, Instrumented(t.child, at + [0]))
    ensures t.Group? ==> Opened(t, at) == Group(t.id, t.kind, InstrumentedAll(t.children, at, 0))
  {
  }

  predicate StartsAndEnds(marks: seq<Mark>) {
    |marks| == 2 && marks[0].Start? && !marks[1].Start?
  }

  // ---- one host

  /** The group behind guards is started once and ended once, and the guards return. */
  lemma GuardedMarks(t: Tree, at: seq<nat>, ctx: Context, canc: Cancellation, tr: Trace, r: Result)
    requires Plain(t) && IsGuarded(t) && Guarded(t).Group? && !IsParallel(Guarded(t).kind)
    requires Absent(Guarded(t).id, AllNodes(Guarded(t).children))
    requires t.id != Guarded(t).id && t.child.id != Guarded(t).id
    requires Runs(Instrumented(t, at), ctx, canc, tr, r)
    ensures r.Returned? && StartsAndEnds(NodeMarks(tr, Guarded(t).id))
  {
    var id, g := Guarded(t).id, Guarded(t);
    var c1 := Watched(ctx, t.id);
    var c2 := Watched(c1, t.child.id);
    InsideProbe(t, at, ctx, canc, tr, r);
    var tr1 := tr[1..|tr| - 1];
    var r1 := GuardedRun(t.id, Instrumented(t.child, at + [0]), c1, canc, tr1, r);
    InsideProbe(t.child, at + [0], c1, canc, tr1, r1);
    var tr2 := tr1[1..|tr1| - 1];
    var r2 := BoundedRun(t.child.id, Instrumented(g, at + [0] + [0]), c2, canc, tr2, r1);
    InsideProbe(g, at + [0] + [0], c2, canc, tr2, r2);
    assert SequentialRuns(InstrumentedAll(g.children, at + [0] + [0], 0), Watched(c2, g.id), canc, tr2[1..|tr2| - 1],
                          r2);
    ProbeMarks(t, at, ctx, canc, tr, r, id);
    ProbeMarks(t.child, at + [0], c1, canc, tr1, r1, id);
    ProbeMarks(g, at + [0] + [0], c2, canc, tr2, r2, id);
    AbsentMarksAll(g.children, at + [0] + [0], 0, Watched(c2, g.id), canc, tr2[1..|tr2| - 1], r2, id);
  }

  /** Of interleaved branches, only the i-th has marks. */
  lemma {:induction false} MarksInterleaved(tr: Trace, bs: seq<Branch>, i: nat, id: nat)
    requires Interleaves(tr, bs) && i < |bs| && forall j :: 0 <= j < |bs| && j != i ==> NodeMarks(bs[j].part, id) == []
    ensures NodeMarks(tr, id) == NodeMarks(bs[i].part, id)
    decreases |bs|
  {
    var rest :| Interleaves(rest, bs[1..]) && Shuffle(tr, bs[0].part, rest);
    MarksShuffle(tr, bs[0].part, rest, id);
    if i == 0 {
      NoMarksInterleaved(rest, bs[1..], id);
    } else {
      MarksInterleaved(rest, bs[1..], i - 1, id);
    }
  }

  lemma {:induction false} NoMarksInterleaved(tr: Trace, bs: seq<Branch>, id: nat)
    requires Interleaves(tr, bs) && forall j :: 0 <= j < |bs| ==> NodeMarks(bs[j].part, id) == []
    ensures NodeMarks(tr, id) == []
    decreases |bs|
  {
    if bs != [] {
      var rest :| Interleaves(rest, bs[1..]) && Shuffle(tr, bs[0].part, rest);
      MarksShuffle(tr, bs[0].part, rest, id);
      NoMarksInterleaved(rest, bs[1..], id);
    }
  }

  /** ts[i] is guarded, and the name of its group occurs nowhere else in ts. */
  ghost predicate NamedApart(ts: seq<Tree>, i: nat)
    requires i < |ts| && forall t :: t in ts ==> IsGuarded(t)
  {
    var g := Guarded(ts[i]);
    && g.Group? && !IsParallel(g.kind) && Absent(g.id, AllNodes(g.children))
    && ts[i].id != g.id && ts[i].child.id != g.id
    && forall j :: 0 <= j < |ts| && j != i ==> Absent(g.id, Nodes(ts[j]))
  }

  lemma {:induction false} BranchOf(ts: seq<Tree>, at: seq<nat>, i: nat, j: nat, ctx: Context, canc: Cancellation,
                                    bs: seq<Branch>)
    requires AllPlain(ts) && BranchesRun(InstrumentedAll(ts, at, i), ctx, canc, bs) && j < |ts|
    ensures |bs| == |ts| && Runs(Instrumented(ts[j], at + [i + j]), ctx, canc, bs[j].full, bs[j].r)
    decreases ts
  {
    assert InstrumentedAll(ts, at, i)[1..] == InstrumentedAll(ts[1..], at, i + 1);
    if j == 0 {
      BranchCount(ts, at, i, ctx, canc, bs);
    } else {
      BranchOf(ts[1..], at, i + 1, j - 1, ctx, canc, bs[1..]);
    }
  }

  lemma {:induction false} BranchCount(ts: seq<Tree>, at: seq<nat>, i: nat, ctx: Context, canc: Cancellation,
                                       bs: seq<Branch>)
    requires AllPlain(ts) && BranchesRun(InstrumentedAll(ts, at, i), ctx, canc, bs)
    ensures |bs| == |ts|
    decreases ts
  {
    if ts != [] {
      assert InstrumentedAll(ts, at, i)[1..] == InstrumentedAll(ts[1..], at, i + 1);
      BranchCount(ts[1..], at, i + 1, ctx, canc, bs[1..]);
    }
  }

  /** Guarded groups running in parallel, with their context not done: each is started once and ended once. */
  lemma ParallelMarks(ts: seq<Tree>, at: seq<nat>, i: nat, ctx: Context, canc: Cancellation, tr: Trace, r: Result)
    requires !MayBeDone(ctx, canc) && AllPlain(ts) && (forall t :: t in ts ==> IsGuarded(t) && Guarded(t).Group?)
    requires i < |ts| && NamedApart(ts, i)
    requires ParallelRuns(InstrumentedAll(ts, at, 0), ctx, canc, tr, r)
    ensures StartsAndEnds(NodeMarks(tr, Guarded(ts[i]).id))
  {
    hide Runs, NodeMarks, Absent, Nodes, AllNodes;
    var us, id := InstrumentedAll(ts, at, 0), Guarded(ts[i]).id;
    var bs: seq<Branch> :| BranchesRun(us, ctx, canc, bs) && Interleaves(tr, bs) && Joined(bs, MayBeDone(ctx, canc), r);
    BranchCount(ts, at, 0, ctx, canc, bs);
    forall j | 0 <= j < |ts|
      ensures bs[j].r.Returned? && (j != i ==> NodeMarks(bs[j].full, id) == [])
    {
      BranchOf(ts, at, 0, j, ctx, canc, bs);
      GuardReturns(ts[j], at + [0 + j], ctx, canc, bs[j].full, bs[j].r);
      if j != i {
        AbsentMarks(ts[j], at + [0 + j], ctx, canc, bs[j].full, bs[j].r, id);
      }
    }
    AllJoined(bs, r);
    BranchOf(ts, at, 0, i, ctx, canc, bs);
    GuardedMarks(ts[i], at + [0 + i], ctx, canc, bs[i].full, bs[i].r);
    MarksInterleaved(tr, bs, i, id);
  }

  lemma AllJoined(bs: seq<Branch>, r: Result)
    requires Joined(bs, false, r) && forall j :: 0 <= j < |bs| ==> bs[j].r.Returned?
    ensures r == Returned(None) && forall j :: 0 <= j < |bs| ==> bs[j].part == bs[j].full
  {
    assert forall j :: 0 <= j < |bs| ==> bs[j] in bs;
  }

  lemma GuardReturns(t: Tree, at: seq<nat>, ctx: Context, canc: Cancellation, tr: Trace, r: Result)
    requires Plain(t) && IsGuarded(t) && Runs(Instrumented(t, at), ctx, canc, tr, r)
    ensures r.Returned?
  {
    InsideProbe(t, at, ctx, canc, tr, r);
    var r1 := GuardedRun(t.id, Instrumented(t.child, at + [0]), Watched(ctx, t.id), canc, tr[1..|tr| - 1], r);
  }

  // ---- names apart

  /** All names in nodes lie in this range. */
  predicate Within(nodes: set<Tree>, lo: nat, hi: nat) {
    forall t :: t in nodes ==> lo < t.id <= hi
  }

  lemma HostApart(c: Config, cmd: Command, t: Tree, h: Host, n: nat)
    requires VisitHost(c, cmd, t, h, n).Visited? && Within(Nodes(t), 0, n)
    ensures var u := VisitHost(c, cmd, t, h, n).node;
            && IsGuarded(u) && Guarded(u).id == n + 1 && Guarded(u).kind == HostGroup(h) && Guarded(u).Group?
            && u.id > n + 1 && u.child.id > n + 1 && n + 1 < VisitHost(c, cmd, t, h, n).next
            && Absent(n + 1, AllNodes(Guarded(u).children))
  {
    hide VisitHost, Nodes, AllNodes, Plain;
    var own, connect, n1 := HostIsGuarded(c, cmd, t, h, n);
    HostStepsApart(own, connect, t, n, n1);
  }

  lemma HostStepsApart(own: seq<Tree>, connect: seq<Tree>, t: Tree, n: nat, n1: nat)
    requires Named(AllNodes(own), n + 1, n + 3) && Named(AllNodes(connect), n + 3, n1) && Within(Nodes(t), 0, n)
    ensures Absent(n + 1, AllNodes(own + (connect + [t])))
  {
    NodesConcat(own, connect + [t]);
    NodesConcat(connect, [t]);
    NodesAlone(t);
  }

  /** A host before hosts that have nothing of its name. */
  lemma ApartFirst(first: Tree, others: seq<Tree>)
    requires IsGuarded(first) && forall u :: u in others ==> IsGuarded(u)
    requires NamedApart([first], 0) && forall j :: 0 <= j < |others| ==> Absent(Guarded(first).id, Nodes(others[j]))
    ensures NamedApart([first] + others, 0)
  {
    hide Absent, Nodes, AllNodes;
    var ts := [first] + others;
    forall j | 0 < j < |ts| ensures Absent(Guarded(first).id, Nodes(ts[j])) {
      assert ts[j] == others[j - 1];
    }
  }

  /** A host before others, of which the i-th has a name that does not occur in it. */
  lemma ApartLater(first: Tree, others: seq<Tree>, i: nat)
    requires IsGuarded(first) && (forall u :: u in others ==> IsGuarded(u)) && i < |others|
    requires NamedApart(others, i) && Absent(Guarded(others[i]).id, Nodes(first))
    ensures NamedApart([first] + others, i + 1)
  {
    hide Absent, Nodes, AllNodes;
    var ts := [first] + others;
    assert ts[i + 1] == others[i];
    forall j | 0 <= j < |ts| && j != i + 1 ensures Absent(Guarded(others[i]).id, Nodes(ts[j])) {
      if j > 0 {
        assert ts[j] == others[j - 1];
      }
    }
  }

  lemma {:induction false} HostsApart(c: Config, cmd: Command, t: Tree, hosts: seq<Host>, n: nat, i: nat)
    requires VisitHosts(c, cmd, t, hosts, n).Visited? && Within(Nodes(t), 0, n) && i < |hosts|
    ensures var ts := VisitHosts(c, cmd, t, hosts, n).node;
            && |ts| == |hosts| && (forall u :: u in ts ==> IsGuarded(u)) && NamedApart(ts, i)
            && n < Guarded(ts[i]).id <= VisitHosts(c, cmd, t, hosts, n).next
            && Guarded(ts[i]).kind == HostGroup(hosts[i])
    decreases |hosts|
  {
    hide VisitHost, Nodes, AllNodes, Plain, NamedApart;
    var (first, n1) := VisitHost(c, cmd, t, hosts[0], n).Extract();
    var (others, n2) := VisitHosts(c, cmd, t, hosts[1..], n1).Extract();
    HostAlone(c, cmd, t, hosts[0], n);
    HostNamed(c, cmd, t, hosts[0], n);
    HostsNamed(c, cmd, t, hosts[1..], n1);
    HostsAreGuarded(c, cmd, t, hosts[1..], n1);
    assert VisitHosts(c, cmd, t, hosts, n).node == [first] + others && |others| == |hosts| - 1;
    if i == 0 {
      LaterHostsApart(others, t, n, n1, n2);
      ApartFirst(first, others);
    } else {
      HostsApart(c, cmd, t, hosts[1..], n1, i - 1);
      AbsentInEarlier(first, t, Guarded(others[i - 1]).id, n, n1);
      ApartLater(first, others, i - 1);
    }
  }

  /** A later name does not occur in an earlier host. */
  lemma AbsentInEarlier(first: Tree, t: Tree, id: nat, n: nat, n1: nat)
    requires Named(Nodes(first) - Nodes(t), n, n1) && Within(Nodes(t), 0, n) && n1 < id && n <= n1
    ensures Absent(id, Nodes(first))
  {
    hide Nodes;
    assert forall u :: u in Nodes(first) ==> u in Nodes(first) - Nodes(t) || u in Nodes(t);
  }

  /** Whatever is below later hosts has later names, or belongs to the command. */
  lemma {:induction false} LaterHostsApart(ts: seq<Tree>, t: Tree, n: nat, n1: nat, n2: nat)
    requires Named(AllNodes(ts) - Nodes(t), n1, n2) && Within(Nodes(t), 0, n) && n + 1 <= n1
    ensures forall j :: 0 <= j < |ts| ==> Absent(n + 1, Nodes(ts[j]))
  {
    forall j, u | 0 <= j < |ts| && u in Nodes(ts[j]) ensures u.id != n + 1 {
      MemberNodes(ts, j);
      assert u in AllNodes(ts) - Nodes(t) || u in Nodes(t);
    }
  }

  lemma {:induction false} MemberNodes(ts: seq<Tree>, j: nat)
    requires j < |ts|
    ensures Nodes(ts[j]) <= AllNodes(ts)
    decreases |ts|
  {
    if j > 0 {
      MemberNodes(ts[1..], j - 1);
    }
  }

  /** The trees of a job's hosts, in their guards. */
  function HostTrees(c: Config): seq<Tree>
    requires VisitConfig(c).Visited?
  {
    if c.host.Some? then [StepsOf(c).targets] else StepsOf(c).targets.children
  }

  function Hosts(c: Config): seq<Host>
    requires VisitConfig(c).Visited?
  {
    if c.host.Some? then [c.host.value] else c.hostsFile.value.hosts
  }

  /** Where the i-th host's name is found, and where not. */
  ghost predicate Placed(c: Config, i: nat)
    requires VisitConfig(c).Visited?
  {
    var ts, s := HostTrees(c), StepsOf(c);
    && |ts| == |Hosts(c)| && i < |ts| && (forall u :: u in ts ==> IsGuarded(u) && Guarded(u).Group?)
    && NamedApart(ts, i) && Guarded(ts[i]).kind == HostGroup(Hosts(c)[i])
    && Absent(Guarded(ts[i]).id, AllNodes(s.before)) && Absent(Guarded(ts[i]).id, AllNodes(s.after))
    && Guarded(ts[i]).id != 1 && (c.host.None? ==> Guarded(ts[i]).id != s.targets.id)
  }

  lemma HostsPlaced(c: Config, i: nat)
    requires VisitConfig(c).Visited? && i < |Hosts(c)|
    ensures Placed(c, i)
  {
    hide VisitConfig, StepsOf, NamedApart, Nodes, AllNodes;
    var t, n3, n4 := StepsNamed(c);
    TargetsPlaced(c, t, n3, n4, i);
  }

  /** The names of a job's steps, around those of its hosts. */
  lemma StepsNamed(c: Config) returns (t: Tree, n3: nat, n4: nat)
    requires VisitConfig(c).Visited?
    ensures n3 > 0 && Within(AllNodes(StepsOf(c).before), 0, n3) && Within(Nodes(t), 0, n3)
    ensures c.command.Some? && c.host.Some? != c.hostsFile.Some?
    ensures VisitTargets(c, c.command.value, t, n3) == Visited(StepsOf(c).targets, n4)
    ensures forall u :: u in AllNodes(StepsOf(c).after) ==> u.id > n4
  {
    hide VisitCommand, VisitLocal, SetUp, VisitTargets, Plain, AllPlain, Nodes, AllNodes;
    var (setUp, n1) := SetUp(c, 1).Extract();
    var (pre, n2) := VisitLocal(c.pre, n1).Extract();
    t, n3 := VisitCommand(c.command.value, n2).node, VisitCommand(c.command.value, n2).next;
    n4 := VisitTargets(c, c.command.value, t, n3).next;
    SetUpNamed(c, 1);
    LocalNamed(c.pre, n1);
    CommandNamed(c.command.value, n2);
    TargetsNamed(c, c.command.value, t, n3);
    LocalNamed(c.post, n4);
    NodesConcat(setUp, pre);
  }

  lemma TargetsPlaced(c: Config, t: Tree, n3: nat, n4: nat, i: nat)
    requires VisitConfig(c).Visited? && i < |Hosts(c)| && c.command.Some? && c.host.Some? != c.hostsFile.Some?
    requires VisitTargets(c, c.command.value, t, n3) == Visited(StepsOf(c).targets, n4)
    requires n3 > 0 && Within(AllNodes(StepsOf(c).before), 0, n3) && Within(Nodes(t), 0, n3)
    requires forall u :: u in AllNodes(StepsOf(c).after) ==> u.id > n4
    ensures Placed(c, i)
  {
    hide VisitConfig, StepsOf, NamedApart, Nodes, AllNodes, VisitHost, VisitHosts, Plain, AllPlain;
    if c.host.Some? {
      HostAlone(c, c.command.value, t, c.host.value, n3);
    } else {
      HostsAreGuarded(c, c.command.value, t, c.hostsFile.value.hosts, n3 + 1);
      HostsApart(c, c.command.value, t, c.hostsFile.value.hosts, n3 + 1, i);
    }
  }

  lemma HostAlone(c: Config, cmd: Command, t: Tree, h: Host, n: nat)
    requires VisitHost(c, cmd, t, h, n).Visited? && Within(Nodes(t), 0, n)
    ensures var u := VisitHost(c, cmd, t, h, n).node;
            IsGuarded(u) && NamedApart([u], 0) && Guarded(u).id == n + 1 && Guarded(u).kind == HostGroup(h)
    ensures n + 1 < VisitHost(c, cmd, t, h, n).next
  {
    HostApart(c, cmd, t, h, n);
  }

  // ---- the whole job

  lemma {:induction false} InstrumentedConcat(ts: seq<Tree>, us: seq<Tree>, at: seq<nat>, i: nat)
    requires AllPlain(ts) && AllPlain(us)
    ensures InstrumentedAll(ts + us, at, i) == InstrumentedAll(ts, at, i) + InstrumentedAll(us, at, i + |ts|)
    decreases |ts|
  {
    if ts == [] {
      assert ts + us == us;
    } else {
      assert (ts + us)[1..] == ts[1..] + us;
      InstrumentedConcat(ts[1..], us, at, i + 1);
    }
  }

  lemma TargetsMarks(c: Config, i: nat, at: seq<nat>, ctx: Context, canc: Cancellation, tr: Trace, r: Result)
    requires !MayBeDone(ctx, canc) && VisitConfig(c).Visited? && Placed(c, i)
    requires Runs(Instrumented(StepsOf(c).targets, at), ctx, canc, tr, r)
    ensures StartsAndEnds(NodeMarks(tr, Guarded(HostTrees(c)[i]).id))
  {
    hide VisitCommand, VisitLocal, SetUp, VisitTargets, NodeMarks;
    var t, id := StepsOf(c).targets, Guarded(HostTrees(c)[i]).id;
    if c.host.Some? {
      GuardedMarks(t, at, ctx, canc, tr, r);
    } else {
      InsideProbe(t, at, ctx, canc, tr, r);
      ProbeMarks(t, at, ctx, canc, tr, r, id);
      TargetsAreParallel(c);
      ParallelMarks(t.children, at, i, Watched(ctx, t.id), canc, tr[1..|tr| - 1], r);
    }
  }

  lemma TargetsAreParallel(c: Config)
    requires VisitConfig(c).Visited? && c.host.None?
    ensures var t := StepsOf(c).targets; t.Group? && IsParallel(t.kind) && Plain(t)
  {
  }

  /** The job's steps are plain, and in this order. */
  lemma StepsInOrder(c: Config)
    requires VisitConfig(c).Visited?
    ensures var s, t := StepsOf(c), VisitConfig(c).node;
            && t.Group? && t.kind == JobGroup && t.id == 1 && t.children == s.before + ([s.targets] + s.after)
            && AllPlain(s.before) && Plain(s.targets) && AllPlain(s.after)
  {
    hide VisitCommand, VisitLocal, SetUp, VisitTargets;
  }

  lemma StepsMarks(c: Config, i: nat, ctx: Context, canc: Cancellation, tr: Trace, r: Result)
    requires VisitConfig(c).Visited? && Undisturbed(c, canc) && !MayBeDone(ctx, canc)
    requires Placed(c, i) && Runs(Opened(VisitConfig(c).node, []), ctx, canc, tr, r)
    ensures var marks := NodeMarks(tr, Guarded(HostTrees(c)[i]).id); marks == [] || StartsAndEnds(marks)
  {
    hide VisitConfig, StepsOf, NodeMarks, Nodes, AllNodes, NamedApart;
    var s, id := StepsOf(c), Guarded(HostTrees(c)[i]).id;
    StepsInOrder(c);
    var rest := [s.targets] + s.after;
    InstrumentedConcat(s.before, rest, [], 0);
    var first, others := InstrumentedAll(s.before, [], 0), InstrumentedAll(rest, [], |s.before|);
    var k, r1 := SplitRun(first, others, ctx, canc, tr, r);
    AbsentMarksAll(s.before, [], 0, ctx, canc, tr[..k], r1, id);
    MarksConcat(tr[..k], tr[k..], id);
    assert tr == tr[..k] + tr[k..];
    if r1.Returned? {
      BeforeIsUnlimited(c, canc);
      InstrumentedUnlimited(s.before, [], 0, canc);
      RunThroughInOrder(first, ctx, canc, tr[..k], r1);
      LastStepsMarks(c, i, |s.before|, r1.ctx.value, canc, tr[k..], r);
    } else {
      MarksOfNothing(tr[k..], id);
    }
  }

  lemma {:induction false} InstrumentedUnlimited(ts: seq<Tree>, at: seq<nat>, i: nat, canc: Cancellation)
    requires AllPlain(ts) && forall t :: t in ts ==> Unlimited(t, canc)
    ensures forall t :: t in InstrumentedAll(ts, at, i) ==> Unlimited(t, canc)
    decreases ts, 0
  {
    if ts != [] {
      ProbedUnlimited(ts[0], at + [i], canc);
      InstrumentedUnlimited(ts[1..], at, i + 1, canc);
    }
  }

  /** Telemetry sets no limits. */
  lemma {:induction false} ProbedUnlimited(t: Tree, at: seq<nat>, canc: Cancellation)
    requires Plain(t) && Unlimited(t, canc)
    ensures Unlimited(Instrumented(t, at), canc)
    decreases t
  {
    match t
    case Leaf(_, _) =>
    case Group(_, _, children) => InstrumentedUnlimited(children, at, 0, canc);
    case Safeguard(_, child) => ProbedUnlimited(child, at + [0], canc);
    case Bounds(_, child) => ProbedUnlimited(child, at + [0], canc);
    case Retry(_, child, _) => ProbedUnlimited(child, at + [0], canc);
  }

  lemma MarksOfNothing(tr: Trace, id: nat)
    requires tr == []
    ensures NodeMarks(tr, id) == []
  {
  }

  lemma LastStepsMarks(c: Config, i: nat, j: nat, ctx: Context, canc: Cancellation, tr: Trace, r: Result)
    requires !MayBeDone(ctx, canc)
    requires VisitConfig(c).Visited? && Placed(c, i) && AllPlain([StepsOf(c).targets] + StepsOf(c).after)
    requires SequentialRuns(InstrumentedAll([StepsOf(c).targets] + StepsOf(c).after, [], j), ctx, canc, tr, r)
    ensures StartsAndEnds(NodeMarks(tr, Guarded(HostTrees(c)[i]).id))
  {
    hide VisitConfig, StepsOf, NodeMarks, Nodes, AllNodes, NamedApart;
    var s, id := StepsOf(c), Guarded(HostTrees(c)[i]).id;
    var ts := [s.targets] + s.after;
    assert ts[0] == s.targets && ts[1..] == s.after;
    var us := InstrumentedAll(ts, [], j);
    assert us[0] == Instrumented(s.targets, [] + [j]) && us[1..] == InstrumentedAll(s.after, [], j + 1);
    var k, r1 := FirstRun(us, ctx, canc, tr, r);
    TargetsMarks(c, i, [] + [j], ctx, canc, tr[..k], r1);
    MarksConcat(tr[..k], tr[k..], id);
    assert tr == tr[..k] + tr[k..];
    if r1.Returned? {
      AbsentMarksAll(s.after, [], j + 1, Passed(r1, ctx), canc, tr[k..], r, id);
    } else {
      MarksOfNothing(tr[k..], id);
    }
  }

  /** In an undisturbed run of an instrumented job, a host's group is not started, or started once and ended once. */
  lemma HostMarks(c: Config, i: nat, canc: Cancellation, tr: Trace, r: Result)
    requires Undisturbed(c, canc)
    requires VisitConfig(c).Visited? && i < |Hosts(c)|
    requires Runs(Instrumented(VisitConfig(c).node, []), NOTHING, canc, tr, r)
    ensures Placed(c, i)
    ensures var marks := NodeMarks(tr, Guarded(HostTrees(c)[i]).id); marks == [] || StartsAndEnds(marks)
  {
    hide VisitConfig, StepsOf, HostTrees, NodeMarks, Runs, Nodes, AllNodes, NamedApart;
    HostsPlaced(c, i);
    StepsInOrder(c);
    var t := VisitConfig(c).node;
    InsideProbe(t, [], NOTHING, canc, tr, r);
    StepsMarks(c, i, Watched(NOTHING, t.id), canc, tr[1..|tr| - 1], r);
    ProbeMarks(t, [], NOTHING, canc, tr, r, Guarded(HostTrees(c)[i]).id);
  }

  // ---- the log as it is stored

  function NotesIn(tr: Trace): seq<(nat, Mark)> {
    if tr == [] then [] else (if tr[0].Note? then [(tr[0].id, tr[0].mark)] else []) + NotesIn(tr[1..])
  }

  function MarksIn(es: seq<LogEvent>): seq<(nat, Mark)> {
    if es == [] then [] else (if es[0].Marked? then [(es[0].id, es[0].mark)] else []) + MarksIn(es[1..])
  }

  /** es is the log of a run: its marks in their order, at any times, and any messages in between. */
  predicate Records(es: seq<LogEvent>, tr: Trace) {
    MarksIn(es) == NotesIn(tr)
  }

  function Pick(notes: seq<(nat, Mark)>, id: nat): seq<Mark> {
    if notes == [] then [] else (if notes[0].0 == id then [notes[0].1] else []) + Pick(notes[1..], id)
  }

  lemma {:induction false} PickNotes(tr: Trace, id: nat)
    ensures Pick(NotesIn(tr), id) == NodeMarks(tr, id)
    decreases |tr|
  {
    if tr != [] {
      PickNotes(tr[1..], id);
      var rest := NotesIn(tr[1..]);
      if tr[0].Note? {
        assert ([(tr[0].id, tr[0].mark)] + rest)[1..] == rest;
      } else {
        assert [] + rest == rest && [] + NodeMarks(tr[1..], id) == NodeMarks(tr[1..], id);
      }
    }
  }

  function JustMarks(marks: seq<LogEvent>): (r: seq<Mark>)
    requires forall e :: e in marks ==> e.Marked?
    ensures |r| == |marks| && forall i :: 0 <= i < |r| ==> r[i] == marks[i].mark
  {
    if marks == [] then [] else [marks[0].mark] + JustMarks(marks[1..])
  }

  lemma {:induction false} OwnAreMarked(es: seq<LogEvent>, id: nat)
    ensures forall e :: e in MarksOf(es, id) ==> e.Marked?
    decreases |es|
  {
    if es != [] {
      OwnAreMarked(es[1..], id);
    }
  }

  lemma {:induction false} PickMarks(es: seq<LogEvent>, id: nat)
    ensures forall e :: e in MarksOf(es, id) ==> e.Marked?
    ensures Pick(MarksIn(es), id) == JustMarks(MarksOf(es, id))
    decreases |es|
  {
    OwnAreMarked(es, id);
    if es != [] {
      PickMarks(es[1..], id);
      var rest, own := MarksIn(es[1..]), MarksOf(es[1..], id);
      if es[0].Marked? {
        assert ([(es[0].id, es[0].mark)] + rest)[1..] == rest;
        assert ([es[0]] + own)[1..] == own && [] + own == own;
      } else {
        assert [] + rest == rest && [] + own == own;
      }
    }
  }

  /** runtime is the time between a host's start and its end, or 0 if it never started. */
  predicate TookFromStartToEnd(runtime: int, own: seq<LogEvent>) {
    if own == [] then runtime == 0
    else |own| == 2 && IsStart(own[0]) && own[1].Marked? && !own[1].mark.Start? && runtime == own[1].time - own[0].time
  }

  lemma HostRuntime(c: Config, i: nat, canc: Cancellation, tr: Trace, r: Result, es: seq<LogEvent>, v: Times)
    requires VisitConfig(c).Visited? && i < |Hosts(c)|
    requires Runs(Instrumented(VisitConfig(c).node, []), NOTHING, canc, tr, r)
    requires Undisturbed(c, canc) && Records(es, tr) && Placed(c, i)
    requires Guarded(HostTrees(c)[i]).id in v.spans && v.spans[Guarded(HostTrees(c)[i]).id] == Span(NEVER, 0)
    ensures var id := Guarded(HostTrees(c)[i]).id;
            id in AppliedAll(v, es).spans && TookFromStartToEnd(AppliedAll(v, es).spans[id].runtime, MarksOf(es, id))
  {
    hide VisitConfig, HostTrees, Runs, Instrumented, NamedApart, StepsOf;
    var id := Guarded(HostTrees(c)[i]).id;
    HostMarks(c, i, canc, tr, r);
    PickNotes(tr, id);
    PickMarks(es, id);
    var own := MarksOf(es, id);
    OwnMarksCount(v, es, id);
    if own != [] {
      assert own == [own[0], own[1]];
      RuntimeIsEndMinusStart(v, es, id, own[0], own[1]);
    }
  }

  /** The names of the hosts' groups. */
  function GroupNames(ts: seq<Tree>): (names: seq<nat>)
    requires forall t :: t in ts ==> IsGuarded(t)
    ensures |names| == |ts| && forall i :: 0 <= i < |ts| ==> names[i] == Guarded(ts[i]).id
  {
    if ts == [] then [] else [Guarded(ts[0]).id] + GroupNames(ts[1..])
  }

  /** The times with a node for each name, before any event. */
  function Unapplied(names: seq<nat>): Times {
    Times(NEVER, 0, map id | id in names :: Span(NEVER, 0))
  }

  /** There is a node for each name and no other, and the i-th host has the node of the i-th name. */
  predicate Linked(nodes: map<nat, TimingNode>, hosts: map<nat, TimingNode>, names: seq<nat>) {
    && (forall id :: id in nodes ==> id in names)
    && (forall h :: h in hosts ==> h < |names|)
    && forall i :: 0 <= i < |names| ==> i in hosts && names[i] in nodes && hosts[i] == nodes[names[i]]
  }

  lemma LinkedNone(nodes: map<nat, TimingNode>, hosts: map<nat, TimingNode>, names: seq<nat>)
    requires nodes == map[] && hosts == map[] && names == []
    ensures Linked(nodes, hosts, names)
  {
  }

  lemma NotLinked(nodes: map<nat, TimingNode>, hosts: map<nat, TimingNode>, names: seq<nat>, name: nat)
    requires Linked(nodes, hosts, names) && name !in names
    ensures name !in nodes && |names| !in hosts
  {
  }

  lemma LinkedOneMore(nodes: map<nat, TimingNode>, hosts: map<nat, TimingNode>, names: seq<nat>, name: nat,
                      node: TimingNode)
    requires Linked(nodes, hosts, names) && name !in names
    ensures Linked(nodes[name := node], hosts[|names| := node], names + [name])
  {
  }

  /** Stores a node for each host, as the visitor comes by. */
  method NewTiming(names: seq<nat>) returns (timing: Timing)
    requires forall i, j :: 0 <= i < j < |names| ==> names[i] != names[j]
    ensures fresh(timing) && timing.Valid() && timing.Untouched() && Linked(timing.nodes, timing.hosts, names)
    ensures forall id :: id in timing.nodes ==> fresh(timing.nodes[id])
  {
    hide *;
    timing := new Timing();
    assert Linked(timing.nodes, timing.hosts, names[..0]) by {
      LinkedNone(timing.nodes, timing.hosts, names[..0]);
    }
    for i := 0 to |names|
      invariant fresh(timing) && timing.Valid() && timing.Untouched() && Linked(timing.nodes, timing.hosts, names[..i])
      invariant forall id :: id in timing.nodes ==> fresh(timing.nodes[id])
    {
      ghost var nodes, hosts := timing.nodes, timing.hosts;
      NotLinked(nodes, hosts, names[..i], names[i]);
      timing.StoreNode(names[i], i);
      LinkedOneMore(nodes, hosts, names[..i], names[i], timing.nodes[names[i]]);
      assert names[..i + 1] == names[..i] + [names[i]];
    }
    assert names[..|names|] == names;
  }

  /** A timing for the given names, after the events of a log. */
  method TimeNames(names: seq<nat>, es: seq<LogEvent>) returns (timing: Timing)
    requires forall i, j :: 0 <= i < j < |names| ==> names[i] != names[j]
    ensures timing.Valid() && timing.View() == AppliedAll(Unapplied(names), es)
    ensures forall i :: 0 <= i < |names| ==>
              && i in timing.hosts && names[i] in timing.View().spans
              && timing.hosts[i].runtime == timing.View().spans[names[i]].runtime
  {
    hide AppliedAll;
    timing := NewTiming(names);
    assert timing.View() == Unapplied(names) by {
      assert forall id :: id in names ==> exists i :: 0 <= i < |names| && names[i] == id;
    }
    timing.ApplyStore(es);
  }

  lemma HostTreesGuarded(c: Config)
    requires VisitConfig(c).Visited?
    ensures |HostTrees(c)| == |Hosts(c)| && forall t :: t in HostTrees(c) ==> IsGuarded(t)
  {
    hide VisitConfig, StepsOf, HostTrees, Hosts, NamedApart, Nodes, AllNodes;
    AsManyTreesAsHosts(c);
    forall t | t in HostTrees(c) ensures IsGuarded(t) {
      var i :| 0 <= i < |HostTrees(c)| && HostTrees(c)[i] == t;
      HostsPlaced(c, i);
    }
  }

  lemma HostNamesDiffer(c: Config, names: seq<nat>)
    requires VisitConfig(c).Visited? && |HostTrees(c)| == |Hosts(c)| && (forall t :: t in HostTrees(c) ==> IsGuarded(t))
    requires names == GroupNames(HostTrees(c))
    ensures forall i, j :: 0 <= i < j < |names| ==> names[i] != names[j]
  {
    hide VisitConfig, StepsOf, HostTrees, Hosts, AllNodes, GroupNames;
    var ts := HostTrees(c);
    forall i, j | 0 <= i < j < |names| ensures names[i] != names[j] {
      HostsPlaced(c, i);
      assert Guarded(ts[j]) in Nodes(ts[j]) by {
        GuardedIsANode(ts[j]);
      }
    }
  }

  lemma GuardedIsANode(t: Tree)
    requires IsGuarded(t)
    ensures Guarded(t) in Nodes(t)
  {
    assert Guarded(t) in Nodes(Guarded(t));
  }

  lemma AsManyTreesAsHosts(c: Config)
    requires VisitConfig(c).Visited?
    ensures |HostTrees(c)| == |Hosts(c)|
  {
    hide VisitCommand, VisitLocal, SetUp, VisitHost, Plain, AllPlain;
    if c.host.None? {
      var n2 := VisitLocal(c.pre, SetUp(c, 1).next).next;
      var (t, n3) := VisitCommand(c.command.value, n2).Extract();
      HostsAreGuarded(c, c.command.value, t, c.hostsFile.value.hosts, n3 + 1);
    }
  }

  // ---- the time of the job

  predicate IsFirstStart(es: seq<LogEvent>, f: nat) {
    f < |es| && IsStart(es[f]) && forall i :: 0 <= i < f ==> !IsStart(es[i])
  }

  predicate IsLastEnd(es: seq<LogEvent>, ids: set<nat>, k: nat) {
    k < |es| && EndsTimed(es[k], ids) && forall i :: k < i < |es| ==> !EndsTimed(es[i], ids)
  }

  /** runtime is the time from the first start in the log to the last end of one of the nodes, if one ended. */
  ghost predicate TookFromFirstToLast(runtime: int, es: seq<LogEvent>, ids: set<nat>) {
    forall f: nat, k: nat :: IsFirstStart(es, f) && es[f].time != NEVER && IsLastEnd(es, ids, k) ==>
                               runtime == es[k].time - es[f].time
  }

  /** Nothing is marked before the first start. */
  lemma {:induction false} MarkedAfterStart(es: seq<LogEvent>, f: nat, k: nat)
    requires MarksIn(es) != [] && MarksIn(es)[0].1.Start?
    requires IsFirstStart(es, f) && k < |es| && es[k].Marked? && !IsStart(es[k])
    ensures f < k
    decreases |es|
  {
    if !es[0].Marked? {
      assert forall i :: 0 <= i < f - 1 ==> es[1..][i] == es[i + 1];
      MarkedAfterStart(es[1..], f - 1, k - 1);
    }
  }

  lemma RunStartsWithStart(c: Config, canc: Cancellation, tr: Trace, r: Result)
    requires VisitConfig(c).Visited? && Runs(Instrumented(VisitConfig(c).node, []), NOTHING, canc, tr, r)
    ensures NotesIn(tr) != [] && NotesIn(tr)[0].1.Start?
  {
    hide VisitConfig;
  }

  lemma JobRuntime(c: Config, canc: Cancellation, tr: Trace, r: Result, es: seq<LogEvent>, v: Times)
    requires VisitConfig(c).Visited? && Runs(Instrumented(VisitConfig(c).node, []), NOTHING, canc, tr, r)
    requires Records(es, tr)
    requires v.start == NEVER
    ensures TookFromFirstToLast(AppliedAll(v, es).jobRuntime, es, v.spans.Keys)
  {
    hide VisitConfig, Runs, Instrumented, AppliedAll;
    RunStartsWithStart(c, canc, tr, r);
    forall f: nat, k: nat | IsFirstStart(es, f) && es[f].time != NEVER && IsLastEnd(es, v.spans.Keys, k)
      ensures AppliedAll(v, es).jobRuntime == es[k].time - es[f].time
    {
      MarkedAfterStart(es, f, k);
      JobRuntimeIsLastEndMinusFirstStart(v, es, f, k);
    }
  }

  /** The names of the groups of a job's hosts. */
  function HostNames(c: Config): (names: seq<nat>)
    requires VisitConfig(c).Visited?
    ensures |names| == |Hosts(c)| && |HostTrees(c)| == |Hosts(c)|
    ensures forall i :: 0 <= i < |names| ==> IsGuarded(HostTrees(c)[i]) && names[i] == Guarded(HostTrees(c)[i]).id
    ensures forall i, j :: 0 <= i < j < |names| ==> names[i] != names[j]
  {
    HostTreesGuarded(c);
    var names := GroupNames(HostTrees(c));
    HostNamesDiffer(c, names);
    names
  }

  /**
   The timing of a job, from the log of an undisturbed run: each host took from its own start to its own end, and
   the job from its first start to the last end of a host.
   */
  method TimeJob(c: Config, es: seq<LogEvent>, ghost canc: Cancellation, ghost tr: Trace, ghost r: Result)
    returns (timing: Timing)
    requires Undisturbed(c, canc) && VisitConfig(c).Visited?
    requires Runs(Instrumented(VisitConfig(c).node, []), NOTHING, canc, tr, r) && Records(es, tr)
    ensures forall i :: 0 <= i < |Hosts(c)| ==>
              i in timing.hosts && TookFromStartToEnd(timing.hosts[i].runtime, MarksOf(es, HostNames(c)[i]))
    ensures TookFromFirstToLast(timing.jobRuntime, es, set id | id in HostNames(c))
  {
    hide VisitConfig, StepsOf, HostTrees, Hosts, Runs, Instrumented, NamedApart, MarksOf, TookFromStartToEnd,
        AppliedAll, TookFromFirstToLast, HostNames;
    var names := HostNames(c);
    timing := TimeNames(names, es);
    ghost var v := Unapplied(names);
    forall i | 0 <= i < |Hosts(c)|
      ensures i in timing.hosts && TookFromStartToEnd(timing.hosts[i].runtime, MarksOf(es, names[i]))
    {
      HostsPlaced(c, i);
      HostRuntime(c, i, canc, tr, r, es, v);
    }
    JobRuntime(c, canc, tr, r, es, v);
    assert v.spans.Keys == set id | id in names;
  }
}
