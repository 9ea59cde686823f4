/**
 What runs where. A command is remote just if its tree has a step that runs remotely, and a host is connected to
 just if the tree of its command has one.
 */
module JobRemote {
  import opened Options
  import opened JobConfig
  import opened JobVisit
  import opened JobHosts

  /** Some step of t runs on a remote host. */
  predicate HasRemoteStep(t: Tree)
    decreases t
  {
    match t
    case Leaf(_, a) => a.Remote?
    case Group(_, _, children) => exists c :: c in children && HasRemoteStep(c)
    case Safeguard(_, child) => HasRemoteStep(child)
    case Bounds(_, child) => HasRemoteStep(child)
    case Retry(_, child, _) => HasRemoteStep(child)
    case Probe(_, child, _) => HasRemoteStep(child)
  }

  /** A command is remote if and only if its tree has a step that runs remotely. */
  lemma {:induction false} RemoteExactlyIf(cmd: Command, n: nat)
    requires VisitCommand(cmd, n).Visited?
    ensures HasRemoteStep(VisitCommand(cmd, n).node) <==> IsRemote(cmd)
    decreases cmd, 1
  {
    hide Plain;
    var (opens, n1) := Redirect(cmd, n + 1).Extract();
    var (limits, n2) := Limit(cmd.timeout, n1).Extract();
    var (body, n3) := VisitBody(cmd, n2).Extract();
    if cmd.command == "" {
      SomeRemoteExactlyIf(cmd.commands, n2 + 1);
    }
    assert HasRemoteStep(body) <==> IsRemote(cmd);
    var steps := opens + (limits + [body]);
    assert forall t :: t in steps <==> t in opens || t in limits || t == body;
    WrappedHasRemoteStep(cmd, Group(n + 1, CommandsGroup, steps), n3);
  }

  lemma WrappedHasRemoteStep(cmd: Command, t: Tree, n: nat)
    ensures HasRemoteStep(Wrapped(cmd, t, n).node) <==> HasRemoteStep(t)
  {
    var bounds := Bounds(n + 1, t);
    assert HasRemoteStep(bounds) <==> HasRemoteStep(t);
    assert HasRemoteStep(Retry(n + 2, bounds, cmd.retries)) <==> HasRemoteStep(t);
  }

  lemma {:induction false} SomeRemoteExactlyIf(cmds: seq<Command>, n: nat)
    requires VisitAll(cmds, n).Visited?
    ensures (exists t :: t in VisitAll(cmds, n).node && HasRemoteStep(t)) <==> exists c :: c in cmds && IsRemote(c)
    decreases cmds
  {
    hide Plain, HasRemoteStep, IsRemote;
    if cmds != [] {
      var (first, n1) := VisitCommand(cmds[0], n).Extract();
      var others := VisitAll(cmds[1..], n1).node;
      RemoteExactlyIf(cmds[0], n);
      SomeRemoteExactlyIf(cmds[1..], n1);
      assert forall t :: t in VisitAll(cmds, n).node <==> t == first || t in others;
      assert forall c :: c in cmds <==> c == cmds[0] || c in cmds[1..];
    }
  }

  predicate IsConnection(a: Action) {
    a.SshClient? || a.Forwarding? || a.Tunnel?
  }

  predicate TakesStep(ts: seq<Tree>, a: Action) {
    exists t :: t in ts && t.Leaf? && t.action == a
  }

  /**
   A host's group connects to the host, and to no other, if and only if the command has a step that runs remotely;
   and only then are a forwarding and a tunnel accepted, and put up.
   */
  lemma ConnectedExactlyIf(c: Config, cmd: Command, m: nat, h: Host, n: nat)
    requires VisitCommand(cmd, m).Visited? && VisitHost(c, cmd, VisitCommand(cmd, m).node, h, n).Visited?
    ensures var t := VisitCommand(cmd, m).node;
            var g := Guarded(VisitHost(c, cmd, t, h, n).node);
            && g.Group?
            && (c.forwarding.Some? || c.tunnel.Some? ==> HasRemoteStep(t))
            && (forall o :: TakesStep(g.children, SshClient(o)) <==> o == h && HasRemoteStep(t))
            && (forall e :: TakesStep(g.children, Forwarding(e)) <==> c.forwarding == Some(e))
            && (forall e :: TakesStep(g.children, Tunnel(e)) <==> c.tunnel == Some(e))
  {
    hide VisitCommand, Plain, HasRemoteStep, IsRemote, TakesStep;
    var t := VisitCommand(cmd, m).node;
    RemoteExactlyIf(cmd, m);
    ConnectSteps(c, cmd, h, n + 3);
    var g := Guarded(VisitHost(c, cmd, t, h, n).node);
    forall a | IsConnection(a) ensures TakesStep(g.children, a) <==> TakesStep(Connect(c, cmd, h, n + 3).node, a) {
      OnlyConnectConnects(c, cmd, m, h, n, a);
    }
  }

  lemma OnlyConnectConnects(c: Config, cmd: Command, m: nat, h: Host, n: nat, a: Action)
    requires VisitCommand(cmd, m).Visited? && VisitHost(c, cmd, VisitCommand(cmd, m).node, h, n).Visited?
    requires IsConnection(a)
    ensures var g := Guarded(VisitHost(c, cmd, VisitCommand(cmd, m).node, h, n).node);
            g.Group? && (TakesStep(g.children, a) <==> TakesStep(Connect(c, cmd, h, n + 3).node, a))
  {
    hide VisitCommand, Plain, Connect;
    var t := VisitCommand(cmd, m).node;
    CommandIsNoConnection(cmd, m);
    var connect := Connect(c, cmd, h, n + 3).node;
    var own := [Leaf(n + 2, HostLogger(h)), Leaf(n + 3, Templating(Some(h)))];
    var steps := own + (connect + [t]);
    assert Guarded(VisitHost(c, cmd, t, h, n).node).children == steps;
    assert forall s :: s in steps <==> s in own || s in connect || s == t;
  }

  lemma CommandIsNoConnection(cmd: Command, m: nat)
    requires VisitCommand(cmd, m).Visited?
    ensures !VisitCommand(cmd, m).node.Leaf?
  {
  }

  lemma ConnectSteps(c: Config, cmd: Command, h: Host, n: nat)
    requires Connect(c, cmd, h, n).Visited?
    ensures var ts := Connect(c, cmd, h, n).node;
            && (c.forwarding.Some? || c.tunnel.Some? ==> IsRemote(cmd))
            && (forall o :: TakesStep(ts, SshClient(o)) <==> o == h && IsRemote(cmd))
            && (forall e :: TakesStep(ts, Forwarding(e)) <==> c.forwarding == Some(e))
            && (forall e :: TakesStep(ts, Tunnel(e)) <==> c.tunnel == Some(e))
  {
    hide IsRemote, Plain;
    var ts := Connect(c, cmd, h, n).node;
    if IsRemote(cmd) {
      assert ts[0] == Leaf(n + 1, SshClient(h));
      if c.forwarding.Some? {
        assert ts[1] == Leaf(n + 2, Forwarding(c.forwarding.value));
      }
      if c.tunnel.Some? {
        assert ts[|ts| - 1].action == Tunnel(c.tunnel.value);
      }
    }
  }
}
