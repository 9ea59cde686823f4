/**
 The names a visit hands out: no two nodes share one.
 */
module JobNames {
  import opened Options
  import opened JobConfig
  import opened JobVisit

  /** A node and all nodes below it. */
  function Nodes(t: Tree): set<Tree>
    decreases t
  {
    {t} +
    match t
    case Leaf(_, _) => {}
    case Group(_, _, children) => AllNodes(children)
    case Safeguard(_, child) => Nodes(child)
    case Bounds(_, child) => Nodes(child)
    case Retry(_, child, _) => Nodes(child)
    case Probe(_, child, _) => Nodes(child)
  }

  function AllNodes(ts: seq<Tree>): set<Tree>
    decreases ts
  {
    if ts == [] then {} else Nodes(ts[0]) + AllNodes(ts[1..])
  }

  /** The names of the nodes are the numbers from lo + 1 to hi, as far as they are used, and tell the nodes apart. */
  ghost predicate Named(nodes: set<Tree>, lo: nat, hi: nat) {
    && lo <= hi
    && (forall t :: t in nodes ==> lo < t.id <= hi)
    && forall t, u :: t in nodes && u in nodes && t.id == u.id ==> t == u
  }

  lemma NamedUnion(a: set<Tree>, b: set<Tree>, lo: nat, mid: nat, hi: nat)
    requires Named(a, lo, mid) && Named(b, mid, hi)
    ensures Named(a + b, lo, hi)
  {
  }

  lemma {:induction false} NodesConcat(ts: seq<Tree>, us: seq<Tree>)
    ensures AllNodes(ts + us) == AllNodes(ts) + AllNodes(us)
    decreases |ts|
  {
    if ts == [] {
      assert ts + us == us;
    } else {
      assert (ts + us)[1..] == ts[1..] + us;
      NodesConcat(ts[1..], us);
    }
  }

  lemma NodesAlone(t: Tree)
    ensures AllNodes([t]) == Nodes(t)
  {
    assert [t][1..] == [];
  }

  lemma {:induction false} LeavesNamed(ts: seq<Tree>, n: nat)
    requires forall i :: 0 <= i < |ts| ==> ts[i].Leaf? && ts[i].id == n + 1 + i
    ensures Named(AllNodes(ts), n, n + |ts|)
    decreases |ts|
  {
    if ts != [] {
      LeavesNamed(ts[1..], n + 1);
      assert Nodes(ts[0]) == {ts[0]};
      NamedUnion(Nodes(ts[0]), AllNodes(ts[1..]), n, n + 1, n + |ts|);
    }
  }

  lemma RedirectNamed(cmd: Command, n: nat)
    ensures Redirect(cmd, n).Visited? && Named(AllNodes(Redirect(cmd, n).node), n, Redirect(cmd, n).next)
  {
    var ts := Redirect(cmd, n).node;
    if |ts| == 2 && ts[0] == ts[1] {
      assert ts == [ts[0]] + [ts[0]];
      NodesConcat([ts[0]], [ts[0]]);
      LeavesNamed([ts[0]], n);
    } else {
      LeavesNamed(ts, n);
    }
  }

  lemma LimitNamed(timeout: string, n: nat)
    requires Limit(timeout, n).Visited?
    ensures Named(AllNodes(Limit(timeout, n).node), n, Limit(timeout, n).next)
  {
    LeavesNamed(Limit(timeout, n).node, n);
  }

  lemma {:induction false} CommandNamed(cmd: Command, n: nat)
    requires VisitCommand(cmd, n).Visited?
    ensures Named(Nodes(VisitCommand(cmd, n).node), n, VisitCommand(cmd, n).next)
    decreases cmd, 1
  {
    var (opens, n1) := Redirect(cmd, n + 1).Extract();
    var (limits, n2) := Limit(cmd.timeout, n1).Extract();
    var (body, n3) := VisitBody(cmd, n2).Extract();
    RedirectNamed(cmd, n + 1);
    LimitNamed(cmd.timeout, n1);
    BodyNamed(cmd, n2);
    hide VisitBody, Redirect, Limit, Plain;
    GroupNamed(n, CommandsGroup, opens, limits, body, n1, n2, n3);
    WrappedNamed(cmd, Group(n + 1, CommandsGroup, opens + (limits + [body])), n, n3);
  }

  /** A group that was named before its children. */
  lemma GroupNamed(n: nat, kind: Kind, first: seq<Tree>, second: seq<Tree>, last: Tree, n1: nat, n2: nat, n3: nat)
    requires Named(AllNodes(first), n + 1, n1) && Named(AllNodes(second), n1, n2) && Named(Nodes(last), n2, n3)
    ensures Named(Nodes(Group(n + 1, kind, first + (second + [last]))), n, n3)
  {
    var t := Group(n + 1, kind, first + (second + [last]));
    NodesConcat(first, second + [last]);
    NodesConcat(second, [last]);
    NodesAlone(last);
    NamedUnion(AllNodes(second), Nodes(last), n1, n2, n3);
    NamedUnion(AllNodes(first), AllNodes(second + [last]), n + 1, n1, n3);
    NamedUnion({t}, AllNodes(t.children), n, n + 1, n3);
  }

  lemma WrappedNamed(cmd: Command, t: Tree, lo: nat, n: nat)
    requires Named(Nodes(t), lo, n)
    ensures Named(Nodes(Wrapped(cmd, t, n).node), lo, Wrapped(cmd, t, n).next)
  {
    hide Named;
    assert Nodes(t) - {} == Nodes(t);
    var bounds := Bounds(n + 1, t);
    WrapperNamed(bounds, t, {}, lo, n);
    var (retried, n1) := if cmd.retries > 1 then (Retry(n + 2, bounds, cmd.retries), n + 2) else (bounds, n + 1);
    if cmd.retries > 1 {
      WrapperNamed(retried, bounds, {}, lo, n + 1);
    }
    if cmd.ignoreError {
      WrapperNamed(Safeguard(n1 + 1, retried), retried, {}, lo, n1);
    }
  }

  /** A node around another, leaving out the nodes in shared. */
  lemma WrapperNamed(t: Tree, child: Tree, shared: set<Tree>, lo: nat, n: nat)
    requires Nodes(t) == {t} + Nodes(child) && t.id == n + 1 && Named(Nodes(child) - shared, lo, n)
    ensures Named(Nodes(t) - shared, lo, n + 1)
    ensures Nodes(t) - {} == Nodes(t)
  {
    NamedUnion(Nodes(child) - shared, {t}, lo, n, n + 1);
    assert Nodes(t) - shared <= (Nodes(child) - shared) + {t};
  }

  lemma {:induction false} BodyNamed(cmd: Command, n: nat)
    requires VisitBody(cmd, n).Visited?
    ensures Named(Nodes(VisitBody(cmd, n).node), n, VisitBody(cmd, n).next)
    decreases cmd, 0
  {
    var t := VisitBody(cmd, n).node;
    if cmd.command == "" {
      CommandsNamed(cmd.commands, n + 1);
      NamedUnion({t}, AllNodes(t.children), n, n + 1, VisitBody(cmd, n).next);
    }
  }

  lemma {:induction false} CommandsNamed(cmds: seq<Command>, n: nat)
    requires VisitAll(cmds, n).Visited?
    ensures Named(AllNodes(VisitAll(cmds, n).node), n, VisitAll(cmds, n).next)
    decreases cmds
  {
    if cmds != [] {
      var (first, n1) := VisitCommand(cmds[0], n).Extract();
      var (others, n2) := VisitAll(cmds[1..], n1).Extract();
      CommandNamed(cmds[0], n);
      CommandsNamed(cmds[1..], n1);
      NodesConcat([first], others);
      NodesAlone(first);
      NamedUnion(Nodes(first), AllNodes(others), n, n1, n2);
    }
  }

  // ---- hosts share the tree of the command

  lemma ConnectNamed(c: Config, cmd: Command, h: Host, n: nat)
    requires Connect(c, cmd, h, n).Visited?
    ensures Named(AllNodes(Connect(c, cmd, h, n).node), n, Connect(c, cmd, h, n).next)
  {
    LeavesNamed(Connect(c, cmd, h, n).node, n);
  }

  /** The nodes of a host besides those of the command. */
  lemma HostNamed(c: Config, cmd: Command, t: Tree, h: Host, n: nat)
    requires VisitHost(c, cmd, t, h, n).Visited?
    ensures Named(Nodes(VisitHost(c, cmd, t, h, n).node) - Nodes(t), n, VisitHost(c, cmd, t, h, n).next)
  {
    hide *;
    var own, connect, n1 := HostIsGuarded(c, cmd, t, h, n);
    GuardedHostNamed(h, own, connect, t, n, n1);
  }

  lemma HostIsGuarded(c: Config, cmd: Command, t: Tree, h: Host, n: nat)
    returns (own: seq<Tree>, connect: seq<Tree>, n1: nat)
    requires VisitHost(c, cmd, t, h, n).Visited?
    ensures VisitHost(c, cmd, t, h, n) == GuardedHost(h, own, connect, t, n, n1)
    ensures GuardedHost(h, own, connect, t, n, n1).Visited? && GuardedHost(h, own, connect, t, n, n1).next == n1 + 2
    ensures Named(AllNodes(own), n + 1, n + 3) && Named(AllNodes(connect), n + 3, n1)
  {
    hide Connect, Named, AllNodes, Plain;
    connect, n1 := Connect(c, cmd, h, n + 3).node, Connect(c, cmd, h, n + 3).next;
    own := [Leaf(n + 2, HostLogger(h)), Leaf(n + 3, Templating(Some(h)))];
    ConnectNamed(c, cmd, h, n + 3);
    LeavesNamed(own, n + 1);
  }

  function GuardedHost(h: Host, own: seq<Tree>, connect: seq<Tree>, t: Tree, n: nat, n1: nat): Visited<Tree> {
    Visited(Safeguard(n1 + 2, Bounds(n1 + 1, Group(n + 1, HostGroup(h), own + (connect + [t])))), n1 + 2)
  }

  lemma GuardedHostNamed(h: Host, own: seq<Tree>, connect: seq<Tree>, t: Tree, n: nat, n1: nat)
    requires Named(AllNodes(own), n + 1, n + 3) && Named(AllNodes(connect), n + 3, n1)
    ensures Named(Nodes(GuardedHost(h, own, connect, t, n, n1).node) - Nodes(t), n, n1 + 2)
  {
    hide Nodes, AllNodes, Named;
    var group := Group(n + 1, HostGroup(h), own + (connect + [t]));
    HostGroupNamed(group, own, connect, t, n, n1);
    GuardedNamed(group, Nodes(t), n, n1);
  }

  lemma GuardedNamed(t: Tree, shared: set<Tree>, lo: nat, n: nat)
    requires Named(Nodes(t) - shared, lo, n)
    ensures Named(Nodes(Safeguard(n + 2, Bounds(n + 1, t))) - shared, lo, n + 2)
  {
    hide Nodes, Named;
    var bounds := Bounds(n + 1, t);
    NodesWrapped(n + 1, t);
    NodesWrapped(n + 2, bounds);
    WrapperNamed(bounds, t, shared, lo, n);
    WrapperNamed(Safeguard(n + 2, bounds), bounds, shared, lo, n + 1);
  }

  lemma NodesWrapped(id: nat, child: Tree)
    ensures Nodes(Bounds(id, child)) == {Bounds(id, child)} + Nodes(child)
    ensures Nodes(Safeguard(id, child)) == {Safeguard(id, child)} + Nodes(child)
  {
  }

  lemma HostGroupNamed(g: Tree, own: seq<Tree>, connect: seq<Tree>, t: Tree, n: nat, n1: nat)
    requires g.Group? && g.id == n + 1 && g.children == own + (connect + [t])
    requires Named(AllNodes(own), n + 1, n + 3) && Named(AllNodes(connect), n + 3, n1)
    ensures Named(Nodes(g) - Nodes(t), n, n1)
  {
    hide Named;
    HostGroupNodes(g, own, connect, t);
    NamedUnion(AllNodes(own), AllNodes(connect), n + 1, n + 3, n1);
    WithoutShared(g, AllNodes(own) + AllNodes(connect), Nodes(t), n, n1);
  }

  lemma HostGroupNodes(g: Tree, own: seq<Tree>, connect: seq<Tree>, t: Tree)
    requires g.Group? && g.children == own + (connect + [t])
    ensures Nodes(g) == {g} + (AllNodes(own) + AllNodes(connect) + Nodes(t))
  {
    assert Nodes(g) == {g} + AllNodes(g.children);
    hide Nodes, AllNodes;
    NodesConcat(own, connect + [t]);
    NodesConcat(connect, [t]);
    NodesAlone(t);
    UnionIsAssociative(AllNodes(own), AllNodes(connect), Nodes(t));
  }

  lemma UnionIsAssociative(a: set<Tree>, b: set<Tree>, c: set<Tree>)
    ensures a + (b + c) == a + b + c
  {
  }

  lemma WithoutShared(g: Tree, nodes: set<Tree>, shared: set<Tree>, n: nat, n1: nat)
    requires g.id == n + 1 && Named(nodes, n + 1, n1)
    ensures Named({g} + (nodes + shared) - shared, n, n1)
  {
    NamedUnion({g}, nodes, n, n + 1, n1);
    assert {g} + (nodes + shared) - shared <= {g} + nodes;
  }

  lemma {:induction false} HostsNamed(c: Config, cmd: Command, t: Tree, hosts: seq<Host>, n: nat)
    requires VisitHosts(c, cmd, t, hosts, n).Visited?
    ensures Named(AllNodes(VisitHosts(c, cmd, t, hosts, n).node) - Nodes(t), n, VisitHosts(c, cmd, t, hosts, n).next)
    decreases |hosts|
  {
    if hosts != [] {
      var (first, n1) := VisitHost(c, cmd, t, hosts[0], n).Extract();
      var (others, n2) := VisitHosts(c, cmd, t, hosts[1..], n1).Extract();
      HostNamed(c, cmd, t, hosts[0], n);
      HostsNamed(c, cmd, t, hosts[1..], n1);
      NodesConcat([first], others);
      NodesAlone(first);
      NamedUnion(Nodes(first) - Nodes(t), AllNodes(others) - Nodes(t), n, n1, n2);
      assert AllNodes([first] + others) - Nodes(t) == (Nodes(first) - Nodes(t)) + (AllNodes(others) - Nodes(t));
    }
  }

  lemma TargetsNamed(c: Config, cmd: Command, t: Tree, n: nat)
    requires c.host.Some? != c.hostsFile.Some? && VisitTargets(c, cmd, t, n).Visited?
    ensures Named(Nodes(VisitTargets(c, cmd, t, n).node) - Nodes(t), n, VisitTargets(c, cmd, t, n).next)
  {
    if c.host.Some? {
      HostNamed(c, cmd, t, c.host.value, n);
    } else {
      HostsNamed(c, cmd, t, c.hostsFile.value.hosts, n + 1);
      var g := VisitTargets(c, cmd, t, n).node;
      var hosts := AllNodes(g.children) - Nodes(t);
      NamedUnion({g}, hosts, n, n + 1, VisitTargets(c, cmd, t, n).next);
      assert Nodes(g) - Nodes(t) <= {g} + hosts;
    }
  }

  lemma LocalNamed(cmd: Option<Command>, n: nat)
    requires VisitLocal(cmd, n).Visited?
    ensures Named(AllNodes(VisitLocal(cmd, n).node), n, VisitLocal(cmd, n).next)
  {
    if cmd.Some? {
      CommandNamed(Localized(cmd.value), n);
      NodesAlone(VisitCommand(Localized(cmd.value), n).node);
    }
  }

  lemma SetUpNamed(c: Config, n: nat)
    requires SetUp(c, n).Visited?
    ensures Named(AllNodes(SetUp(c, n).node), n, SetUp(c, n).next)
  {
    LeavesNamed(SetUp(c, n).node, n);
  }

  /** In the tree of a job, the shared command's nodes counted once, a name belongs to one node. */
  lemma JobNamed(c: Config)
    requires VisitConfig(c).Visited?
    ensures Named(Nodes(VisitConfig(c).node), 0, VisitConfig(c).next)
  {
    var (setUp, n1) := SetUp(c, 1).Extract();
    var (pre, n2) := VisitLocal(c.pre, n1).Extract();
    var (cmd, n3) := VisitCommand(c.command.value, n2).Extract();
    var (targets, n4) := VisitTargets(c, c.command.value, cmd, n3).Extract();
    var (post, n5) := VisitLocal(c.post, n4).Extract();
    SetUpNamed(c, 1);
    LocalNamed(c.pre, n1);
    CommandNamed(c.command.value, n2);
    TargetsNamed(c, c.command.value, cmd, n3);
    LocalNamed(c.post, n4);
    var t := VisitConfig(c).node;
    assert t == Group(1, JobGroup, setUp + (pre + ([targets] + post)));
    JobNodes(t, setUp, pre, targets, post);
    NamedInOrder(t, AllNodes(setUp), AllNodes(pre), Nodes(cmd), Nodes(targets) - Nodes(cmd), AllNodes(post),
                 n1, n2, n3, n4, n5);
    NamedPart(Nodes(t), {t} + AllNodes(setUp) + AllNodes(pre) + Nodes(cmd) + (Nodes(targets) - Nodes(cmd)) +
                        AllNodes(post), 0, n5);
  }

  lemma JobNodes(t: Tree, setUp: seq<Tree>, pre: seq<Tree>, targets: Tree, post: seq<Tree>)
    requires t == Group(1, JobGroup, setUp + (pre + ([targets] + post)))
    ensures Nodes(t) == {t} + AllNodes(setUp) + AllNodes(pre) + Nodes(targets) + AllNodes(post)
  {
    hide AllNodes;
    NodesConcat(setUp, pre + ([targets] + post));
    NodesConcat(pre, [targets] + post);
    NodesConcat([targets], post);
    NodesAlone(targets);
    Regrouped({t}, AllNodes(setUp), AllNodes(pre), Nodes(targets), AllNodes(post));
  }

  lemma Regrouped(a: set<Tree>, b: set<Tree>, c: set<Tree>, d: set<Tree>, e: set<Tree>)
    ensures a + (b + (c + (d + e))) == a + b + c + d + e
  {
  }

  lemma NamedPart(part: set<Tree>, all: set<Tree>, n: nat, m: nat)
    requires part <= all && Named(all, n, m)
    ensures Named(part, n, m)
  {
  }

  lemma NamedInOrder(t: Tree, a: set<Tree>, b: set<Tree>, c: set<Tree>, d: set<Tree>, e: set<Tree>,
                     n1: nat, n2: nat, n3: nat, n4: nat, n5: nat)
    requires t.id == 1 && Named(a, 1, n1) && Named(b, n1, n2) && Named(c, n2, n3) && Named(d, n3, n4)
    requires Named(e, n4, n5)
    ensures Named({t} + a + b + c + d + e, 0, n5)
  {
    NamedUnion({t}, a, 0, 1, n1);
    NamedUnion({t} + a, b, 0, n1, n2);
    NamedUnion({t} + a + b, c, 0, n2, n3);
    NamedUnion({t} + a + b + c, d, 0, n3, n4);
    NamedUnion({t} + a + b + c + d, e, 0, n4, n5);
  }
}
