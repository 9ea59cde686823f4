/**
 The visitor as it is programmed: a counter that hands out names, and groups that children are appended to.
 */
module JobVisitor {
  import opened Options
  import opened JobConfig
  import opened JobVisit

  function Optional(child: Option<Tree>): seq<Tree> {
    if child.Some? then [child.value] else []
  }

  function Present(children: seq<Option<Tree>>): seq<Tree> {
    if children == [] then [] else Optional(children[0]) + Present(children[1..])
  }

  lemma PresentTwo(a: Option<Tree>, b: Option<Tree>)
    ensures Present([a]) == Optional(a)
    ensures Present([a, b]) == Optional(a) + Optional(b)
  {
    assert [a][1..] == [] && [a, b][1..] == [b] && [b][1..] == [];
  }

  /** A group under construction. */
  class TreeGroup {
    const id: nat
    const kind: Kind
    var children: seq<Tree>

    constructor (id: nat, kind: Kind)
      ensures this.id == id && this.kind == kind && children == []
    {
      this.id, this.kind, children := id, kind, [];
    }

    /** Missing children are skipped. */
    method Append(more: seq<Option<Tree>>)
      modifies this
      ensures children == old(children) + Present(more)
    {
      for i := 0 to |more|
        invariant children + Present(more[i..]) == old(children) + Present(more)
      {
        assert more[i..][1..] == more[i + 1..];
        if more[i].Some? {
          children := children + [more[i].value];
        }
      }
    }

    method AppendOne(child: Option<Tree>)
      modifies this
      ensures children == old(children) + Optional(child)
    {
      PresentTwo(child, None);
      Append([child]);
    }

    method Wrap() returns (t: Tree)
      ensures t == Group(id, kind, children)
    {
      t := Group(id, kind, children);
    }
  }

  class Visitor {
    var counter: nat

    constructor ()
      ensures counter == 0
    {
      counter := 0;
    }

    method NextName() returns (name: nat)
      modifies this
      ensures name == counter == old(counter) + 1
    {
      counter := counter + 1;
      name := counter;
    }

    method NewGroup(kind: Kind) returns (g: TreeGroup)
      modifies this
      ensures fresh(g) && g.kind == kind && g.children == []
      ensures g.id == counter == old(counter) + 1
    {
      var id := NextName();
      g := new TreeGroup(id, kind);
    }

    method NewLeaf(action: Action) returns (t: Tree)
      modifies this
      ensures t == Leaf(counter, action) && counter == old(counter) + 1
    {
      var id := NextName();
      t := Leaf(id, action);
    }

    method LimitStep(timeout: string) returns (step: Option<Tree>, ok: bool)
      modifies this
      ensures Limit(timeout, old(counter)) ==
              if ok then Visited(Optional(step), counter) else Rejected(BadTimeout(timeout))
    {
      if timeout == "" {
        return None, true;
      }
      var d := DURATION(timeout);
      if d.None? {
        return None, false;
      }
      var t := NewLeaf(Timeout(d.value));
      return Some(t), true;
    }

    /** The redirections of visitCommand. */
    method RedirectSteps(cmd: Command) returns (stdout: Option<Tree>, stderr: Option<Tree>)
      modifies this
      ensures Redirect(cmd, old(counter)) == Visited(Optional(stdout) + Optional(stderr), counter)
    {
      stdout, stderr := None, None;
      if cmd.stdout.Some? {
        var t := NewLeaf(Stdout(cmd.stdout.value));
        stdout := Some(t);
      }
      if cmd.stdout.Some? && cmd.stderr.Some? && cmd.stderr.value.file == cmd.stdout.value.file {
        stderr := stdout;
      } else if cmd.stderr.Some? {
        var t := NewLeaf(Stderr(cmd.stderr.value));
        stderr := Some(t);
      }
      assert Redirect(cmd, old(counter)).node == Optional(stdout) + Optional(stderr);
    }

    /** visitCommand */
    method VisitCommandTree(cmd: Command) returns (r: Visited<Tree>)
      modifies this
      ensures r == VisitCommand(cmd, old(counter)) && (r.Visited? ==> r.next == counter)
      decreases cmd, 1
    {
      hide VisitBody, Limit, Redirect, Wrapped, Plain, Present;
      ghost var n := counter;
      if cmd.command != "" && cmd.commands != [] {
        return Rejected(CommandAndCommands);
      }
      var children := NewGroup(CommandsGroup);
      var stdout, stderr := RedirectSteps(cmd);
      PresentTwo(stdout, stderr);
      children.Append([stdout, stderr]);
      var limit, ok := LimitStep(cmd.timeout);
      if !ok {
        return Rejected(BadTimeout(cmd.timeout));
      }
      children.AppendOne(limit);
      var body := VisitCommandBody(cmd);
      if body.Rejected? {
        return Rejected(body.error);
      }
      children.AppendOne(Some(body.node));
      var t := children.Wrap();
      ghost var opens := Optional(stdout) + Optional(stderr);
      assert t.children == opens + (Optional(limit) + [body.node]);
      r := WrapTree(cmd, t);
    }

    method WrapTree(cmd: Command, t: Tree) returns (r: Visited<Tree>)
      modifies this
      ensures r == Wrapped(cmd, t, old(counter)) && r.Visited? && r.next == counter
    {
      var name := NextName();
      var w := Bounds(name, t);
      if cmd.retries > 1 {
        name := NextName();
        w := Retry(name, w, cmd.retries);
      }
      if cmd.ignoreError {
        name := NextName();
        w := Safeguard(name, w);
      }
      r := Visited(w, counter);
    }

    method VisitCommandBody(cmd: Command) returns (r: Visited<Tree>)
      modifies this
      ensures r == VisitBody(cmd, old(counter)) && (r.Visited? ==> r.next == counter)
      decreases cmd, 0, 1
    {
      if cmd.command != "" {
        var t := NewLeaf(if cmd.target == LOCAL then Local(cmd.command) else Remote(cmd.command));
        return Visited(t, counter);
      } else if cmd.commands != [] {
        r := VisitCommands(cmd);
      } else {
        return Rejected(NoCommand);
      }
    }

    /** visitCommands */
    method VisitCommands(cmd: Command) returns (r: Visited<Tree>)
      requires cmd.command == "" && cmd.commands != []
      modifies this
      ensures r == VisitBody(cmd, old(counter)) && (r.Visited? ==> r.next == counter)
      decreases cmd, 0, 0
    {
      var kind;
      if cmd.flow == SEQUENTIAL {
        kind := SequentialGroup;
      } else if cmd.flow == PARALLEL {
        kind := ParallelGroup;
      } else {
        return Rejected(UnknownFlow(cmd.flow));
      }
      var group := NewGroup(kind);
      ghost var all := VisitAll(cmd.commands, counter);
      PrependedNone(all);
      assert cmd.commands[0..] == cmd.commands;
      for i := 0 to |cmd.commands|
        invariant fresh(group) && group.id == old(counter) + 1 && group.kind == kind
        invariant all == Prepended(group.children, VisitAll(cmd.commands[i..], counter))
      {
        assert cmd.commands[i..][1..] == cmd.commands[i + 1..];
        ghost var n := counter;
        var t := VisitCommandTree(cmd.commands[i]);
        if t.Rejected? {
          return Rejected(t.error);
        }
        PrependedOneMore(group.children, t.node, VisitAll(cmd.commands[i + 1..], counter));
        group.AppendOne(Some(t.node));
      }
      assert group.children + [] == group.children;
      var t := group.Wrap();
      r := Visited(t, counter);
    }

    /** visitHost: the group of a host, without the command. */
    method VisitHostGroup(c: Config, cmd: Command, host: Host) returns (g: TreeGroup, err: Option<VisitError>)
      modifies this
      ensures fresh(g) && g.id == old(counter) + 1 && g.kind == HostGroup(host)
      ensures match Connect(c, cmd, host, old(counter) + 3)
              case Rejected(e) => err == Some(e)
              case Visited(connect, n) =>
                && err == None && counter == n
                && g.children == [Leaf(g.id + 1, HostLogger(host)), Leaf(g.id + 2, Templating(Some(host)))] + connect
    {
      g := NewGroup(HostGroup(host));
      err := None;
      var logger := NewLeaf(HostLogger(host));
      g.AppendOne(Some(logger));
      var templating := NewLeaf(Templating(Some(host)));
      g.AppendOne(Some(templating));
      err := ConnectSteps(c, cmd, host, g);
    }

    /** The steps of visitHost that only remote commands need. */
    method ConnectSteps(c: Config, cmd: Command, host: Host, g: TreeGroup) returns (err: Option<VisitError>)
      modifies this, g
      ensures match Connect(c, cmd, host, old(counter))
              case Rejected(e) => err == Some(e)
              case Visited(connect, n) => err == None && counter == n && g.children == old(g.children) + connect
    {
      var isRemote := IsRemote(cmd);
      if isRemote {
        var t := NewLeaf(SshClient(host));
        g.AppendOne(Some(t));
      }
      if c.forwarding.Some? {
        if !isRemote {
          return Some(NothingToForward);
        }
        var t := NewLeaf(Forwarding(c.forwarding.value));
        g.AppendOne(Some(t));
      }
      if c.tunnel.Some? {
        if !isRemote {
          return Some(NothingToTunnel);
        }
        var t := NewLeaf(Tunnel(c.tunnel.value));
        g.AppendOne(Some(t));
      }
      err := None;
    }

    /** The group of a host with the command, bounded and safeguarded. */
    method VisitHostTree(c: Config, cmd: Command, t: Tree, host: Host) returns (r: Visited<Tree>)
      modifies this
      ensures r == VisitHost(c, cmd, t, host, old(counter)) && (r.Visited? ==> r.next == counter)
    {
      var g, err := VisitHostGroup(c, cmd, host);
      if err.Some? {
        return Rejected(err.value);
      }
      ghost var first := g.children;
      g.AppendOne(Some(t));
      assert first == first[..2] + first[2..] && g.children == first[..2] + (first[2..] + [t]);
      var h := g.Wrap();
      var name := NextName();
      h := Bounds(name, h);
      name := NextName();
      h := Safeguard(name, h);
      r := Visited(h, counter);
    }

    method VisitHostTrees(c: Config, cmd: Command, t: Tree, hosts: seq<Host>) returns (r: Visited<Tree>)
      modifies this
      ensures match VisitHosts(c, cmd, t, hosts, old(counter) + 1)
              case Rejected(e) => r == Rejected(e)
              case Visited(trees, n) => r == Visited(Group(old(counter) + 1, HostsGroup, trees), n) && n == counter
    {
      var group := NewGroup(HostsGroup);
      ghost var all := VisitHosts(c, cmd, t, hosts, counter);
      PrependedNone(all);
      assert hosts[0..] == hosts;
      for i := 0 to |hosts|
        invariant fresh(group) && group.id == old(counter) + 1 && group.kind == HostsGroup
        invariant all == Prepended(group.children, VisitHosts(c, cmd, t, hosts[i..], counter))
      {
        assert hosts[i..][1..] == hosts[i + 1..];
        var h := VisitHostTree(c, cmd, t, hosts[i]);
        if h.Rejected? {
          return Rejected(h.error);
        }
        PrependedOneMore(group.children, h.node, VisitHosts(c, cmd, t, hosts[i + 1..], counter));
        group.AppendOne(Some(h.node));
      }
      assert group.children + [] == group.children;
      var h := group.Wrap();
      r := Visited(h, counter);
    }

    method VisitLocalTree(cmd: Option<Command>) returns (t: Option<Tree>, err: Option<VisitError>)
      modifies this
      ensures VisitLocal(cmd, old(counter)) ==
              (if err.Some? then Rejected(err.value) else Visited(Optional(t), counter))
    {
      if cmd.None? {
        return None, None;
      }
      var lc := LocalCommand(cmd.value);
      var r := VisitCommandTree(lc);
      if r.Rejected? {
        return None, Some(r.error);
      }
      return Some(r.node), None;
    }

    /** VisitConfig */
    method VisitConfigTree(c: Config) returns (r: Visited<Tree>)
      requires counter == 0
      modifies this
      ensures r == VisitConfig(c) && (r.Visited? ==> r.next == counter)
    {
      hide VisitCommand, VisitHost, VisitHosts, VisitLocal, SetUp;
      if c.host.None? && c.hostsFile.None? {
        return Rejected(NoHost);
      }
      if c.host.Some? && c.hostsFile.Some? {
        return Rejected(HostAndHosts);
      }
      var children := NewGroup(JobGroup);
      var err := SetUpSteps(c, children);
      if err.Some? {
        return Rejected(err.value);
      }
      var pre;
      pre, err := VisitLocalTree(c.pre);
      if err.Some? {
        return Rejected(err.value);
      }
      children.AppendOne(pre);
      if c.command.None? {
        return Rejected(NilCommand);
      }
      var cmd := VisitCommandTree(c.command.value);
      if cmd.Rejected? {
        return Rejected(cmd.error);
      }
      var targets;
      if c.host.Some? {
        targets := VisitHostTree(c, c.command.value, cmd.node, c.host.value);
      } else if c.hostsFile.value.Unreadable? {
        return Rejected(HostsUnreadable);
      } else {
        targets := VisitHostTrees(c, c.command.value, cmd.node, c.hostsFile.value.hosts);
      }
      if targets.Rejected? {
        return Rejected(targets.error);
      }
      children.AppendOne(Some(targets.node));
      var post;
      post, err := VisitLocalTree(c.post);
      if err.Some? {
        return Rejected(err.value);
      }
      children.AppendOne(post);
      ghost var setUp := SetUp(c, 1).node;
      assert children.children == setUp + (Optional(pre) + ([targets.node] + Optional(post)));
      var t := children.Wrap();
      r := Visited(t, counter);
    }

    method SetUpSteps(c: Config, children: TreeGroup) returns (err: Option<VisitError>)
      requires children.children == []
      modifies this, children
      ensures SetUp(c, old(counter)) == (if err.Some? then Rejected(err.value) else Visited(children.children, counter))
    {
      var templating := NewLeaf(Templating(None));
      children.AppendOne(Some(templating));
      var output := NewLeaf(SetOutput(c.output));
      children.AppendOne(Some(output));
      var logger := NewLeaf(JobLogger);
      children.AppendOne(Some(logger));
      var limit, ok := LimitStep(c.timeout);
      if !ok {
        return Some(BadTimeout(c.timeout));
      }
      children.AppendOne(limit);
      var scp := None;
      if c.scp.Some? {
        var t := NewLeaf(Scp(c.scp.value));
        scp := Some(t);
        children.AppendOne(scp);
      }
      assert children.children == [templating, output, logger] + (Optional(limit) + Optional(scp));
      err := None;
    }
  }

  /** The result for a list, when its first elements gave these trees. */
  function Prepended(first: seq<Tree>, rest: Visited<seq<Tree>>): Visited<seq<Tree>> {
    match rest
    case Rejected(e) => rest
    case Visited(trees, n) => Visited(first + trees, n)
  }

  lemma PrependedNone(rest: Visited<seq<Tree>>)
    ensures Prepended([], rest) == rest
  {
    if rest.Visited? {
      assert [] + rest.node == rest.node;
    }
  }

  lemma PrependedOneMore(first: seq<Tree>, t: Tree, rest: Visited<seq<Tree>>)
    ensures Prepended(first, Prepended([t], rest)) == Prepended(first + [t], rest)
  {
    if rest.Visited? {
      assert first + ([t] + rest.node) == first + [t] + rest.node;
    }
  }
}
