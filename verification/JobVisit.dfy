/**
 The visitor that turns a job into the tree of its steps. Every node gets the next number of a counter as
 its name, in the order in which the visitor asks its builder for nodes.
 */
module JobVisit {
  import opened Options
  import opened JobConfig

  /** What a step without children does. */
  datatype Action =
    | Templating(host: Option<Host>)
    | SetOutput(output: Option<Output>)
    | JobLogger
    | HostLogger(h: Host)
    | Timeout(d: int)
    | Scp(server: ScpServer)
    | SshClient(h: Host)
    | Forwarding(ends: Endpoints)
    | Tunnel(ends: Endpoints)
    | Remote(text: string)
    | Local(text: string)
    | Stdout(o: Output)
    | Stderr(o: Output)

  datatype Kind = JobGroup | HostsGroup | HostGroup(h: Host) | CommandsGroup | SequentialGroup | ParallelGroup

  /** A tree of steps. The visitor makes no Probe; that is a step wrapped for telemetry (see JobProbes). */
  datatype Tree =
    | Leaf(id: nat, action: Action)
    | Group(id: nat, kind: Kind, children: seq<Tree>)
    | Safeguard(id: nat, child: Tree)
    | Bounds(id: nat, child: Tree)
    | Retry(id: nat, child: Tree, retries: nat)
    | Probe(id: nat, child: Tree, at: seq<nat>)

  /** A tree without probes. */
  predicate Plain(t: Tree)
    decreases t
  {
    match t
    case Leaf(_, _) => true
    case Group(_, _, children) => forall c :: c in children ==> Plain(c)
    case Safeguard(_, child) => Plain(child)
    case Bounds(_, child) => Plain(child)
    case Retry(_, child, _) => Plain(child)
    case Probe(_, _, _) => false
  }

  predicate AllPlain(ts: seq<Tree>) {
    forall t :: t in ts ==> Plain(t)
  }

  datatype VisitError =
    | NoHost | HostAndHosts | HostsUnreadable
    | BadTimeout(text: string)
    | CommandAndCommands | NoCommand | NilCommand | UnknownFlow(flow: string)
    | NothingToForward | NothingToTunnel

  /** next is the number of nodes named so far. */
  datatype Visited<+T> = Visited(node: T, next: nat) | Rejected(error: VisitError) {
    predicate IsFailure() {
      Rejected?
    }

    function PropagateFailure<U>(): Visited<U>
      requires Rejected?
    {
      Rejected(error)
    }

    function Extract(): (T, nat)
      requires Visited?
    {
      (node, next)
    }
  }

  /** The steps that open the files for a command's output. One file for both is one step, put in twice. */
  function Redirect(cmd: Command, n: nat): (r: Visited<seq<Tree>>)
    ensures r.Visited? ==> AllPlain(r.node)
  {
    match (cmd.stdout, cmd.stderr)
    case (None, None) => Visited([], n)
    case (Some(out), None) => Visited([Leaf(n + 1, Stdout(out))], n + 1)
    case (None, Some(err)) => Visited([Leaf(n + 1, Stderr(err))], n + 1)
    case (Some(out), Some(err)) =>
      if err.file == out.file then Visited([Leaf(n + 1, Stdout(out)), Leaf(n + 1, Stdout(out))], n + 1)
      else Visited([Leaf(n + 1, Stdout(out)), Leaf(n + 2, Stderr(err))], n + 2)
  }

  function Limit(timeout: string, n: nat): (r: Visited<seq<Tree>>)
    ensures r.Visited? ==> AllPlain(r.node)
  {
    if timeout == "" then Visited([], n)
    else
      match DURATION(timeout)
      case None => Rejected(BadTimeout(timeout))
      case Some(d) => Visited([Leaf(n + 1, Timeout(d))], n + 1)
  }

  function VisitCommand(cmd: Command, n: nat): (r: Visited<Tree>)
    ensures r.Visited? ==> Plain(r.node)
    decreases cmd, 1
  {
    if cmd.command != "" && cmd.commands != [] then Rejected(CommandAndCommands)
    else
      var (opens, n1) :- Redirect(cmd, n + 1);
      var (limits, n2) :- Limit(cmd.timeout, n1);
      var (body, n3) :- VisitBody(cmd, n2);
      Wrapped(cmd, Group(n + 1, CommandsGroup, opens + (limits + [body])), n3)
  }

  function VisitBody(cmd: Command, n: nat): (r: Visited<Tree>)
    ensures r.Visited? ==> Plain(r.node)
    decreases cmd, 0
  {
    if cmd.command != "" then
      Visited(Leaf(n + 1, if cmd.target == LOCAL then Local(cmd.command) else Remote(cmd.command)), n + 1)
    else if cmd.commands == [] then Rejected(NoCommand)
    else
      var (kind, _) :- FlowKind(cmd.flow);
      var (children, n1) :- VisitAll(cmd.commands, n + 1);
      Visited(Group(n + 1, kind, children), n1)
  }

  function FlowKind(flow: string): Visited<Kind> {
    if flow == SEQUENTIAL then Visited(SequentialGroup, 0)
    else if flow == PARALLEL then Visited(ParallelGroup, 0)
    else Rejected(UnknownFlow(flow))
  }

  function VisitAll(cmds: seq<Command>, n: nat): (r: Visited<seq<Tree>>)
    ensures r.Visited? ==> AllPlain(r.node)
    decreases cmds
  {
    if cmds == [] then Visited([], n)
    else
      var (first, n1) :- VisitCommand(cmds[0], n);
      var (others, n2) :- VisitAll(cmds[1..], n1);
      Visited([first] + others, n2)
  }

  /** What is put around a command, from the inside. */
  function Wrapped(cmd: Command, t: Tree, n: nat): (r: Visited<Tree>)
    ensures r.Visited? && (Plain(t) ==> Plain(r.node))
  {
    var bounds := Bounds(n + 1, t);
    var (retried, n1) := if cmd.retries > 1 then (Retry(n + 2, bounds, cmd.retries), n + 2) else (bounds, n + 1);
    if cmd.ignoreError then Visited(Safeguard(n1 + 1, retried), n1 + 1) else Visited(retried, n1)
  }

  /** The group for a host with cmd, a tree all hosts share, and the safeguard around it. */
  function VisitHost(c: Config, cmd: Command, t: Tree, h: Host, n: nat): (r: Visited<Tree>)
    ensures r.Visited? && Plain(t) ==> Plain(r.node)
  {
    var (connect, n1) :- Connect(c, cmd, h, n + 3);
    var steps := [Leaf(n + 2, HostLogger(h)), Leaf(n + 3, Templating(Some(h)))] + (connect + [t]);
    var bounds := Bounds(n1 + 1, Group(n + 1, HostGroup(h), steps));
    assert Plain(t) ==> Plain(bounds);
    Visited(Safeguard(n1 + 2, bounds), n1 + 2)
  }

  /** The steps only remote commands need. */
  function Connect(c: Config, cmd: Command, h: Host, n: nat): (r: Visited<seq<Tree>>)
    ensures r.Visited? ==> AllPlain(r.node)
  {
    if !IsRemote(cmd) then
      if c.forwarding.Some? then Rejected(NothingToForward)
      else if c.tunnel.Some? then Rejected(NothingToTunnel)
      else Visited([], n)
    else
      var ssh := [Leaf(n + 1, SshClient(h))];
      var (forward, n1) := if c.forwarding.Some? then ([Leaf(n + 2, Forwarding(c.forwarding.value))], n + 2)
                           else ([], n + 1);
      var (tunnel, n2) := if c.tunnel.Some? then ([Leaf(n1 + 1, Tunnel(c.tunnel.value))], n1 + 1) else ([], n1);
      Visited(ssh + (forward + tunnel), n2)
  }

  function VisitHosts(c: Config, cmd: Command, t: Tree, hosts: seq<Host>, n: nat): (r: Visited<seq<Tree>>)
    ensures r.Visited? && Plain(t) ==> AllPlain(r.node)
    decreases |hosts|
  {
    if hosts == [] then Visited([], n)
    else
      var (first, n1) :- VisitHost(c, cmd, t, hosts[0], n);
      var (others, n2) :- VisitHosts(c, cmd, t, hosts[1..], n1);
      Visited([first] + others, n2)
  }

  /** pre and post, which never run on the remote host. */
  function VisitLocal(cmd: Option<Command>, n: nat): (r: Visited<seq<Tree>>)
    ensures r.Visited? ==> AllPlain(r.node)
  {
    match cmd
    case None => Visited([], n)
    case Some(cmd) =>
      var (t, n1) :- VisitCommand(Localized(cmd), n);
      Visited([t], n1)
  }

  /** One host, or all hosts in parallel. */
  function VisitTargets(c: Config, cmd: Command, t: Tree, n: nat): (r: Visited<Tree>)
    requires c.host.Some? != c.hostsFile.Some?
    ensures r.Visited? && Plain(t) ==> Plain(r.node)
  {
    match c.host
    case Some(h) => VisitHost(c, cmd, t, h, n)
    case None =>
      if c.hostsFile.value.Unreadable? then Rejected(HostsUnreadable)
      else
        var (hosts, n1) :- VisitHosts(c, cmd, t, c.hostsFile.value.hosts, n + 1);
        Visited(Group(n + 1, HostsGroup, hosts), n1)
  }

  /** The steps that set up the job. */
  function SetUp(c: Config, n: nat): (r: Visited<seq<Tree>>)
    ensures r.Visited? ==> AllPlain(r.node)
  {
    var (limits, n1) :- Limit(c.timeout, n + 3);
    var (scp, n2) := if c.scp.Some? then ([Leaf(n1 + 1, Scp(c.scp.value))], n1 + 1) else ([], n1);
    Visited([Leaf(n + 1, Templating(None)), Leaf(n + 2, SetOutput(c.output)), Leaf(n + 3, JobLogger)] +
            (limits + scp), n2)
  }

  /** The whole job. A job without a command makes the visitor crash. */
  function VisitConfig(c: Config): (r: Visited<Tree>)
    ensures r.Visited? ==> Plain(r.node)
  {
    if c.host.None? && c.hostsFile.None? then Rejected(NoHost)
    else if c.host.Some? && c.hostsFile.Some? then Rejected(HostAndHosts)
    else
      var (setUp, n1) :- SetUp(c, 1);
      var (pre, n2) :- VisitLocal(c.pre, n1);
      if c.command.None? then Rejected(NilCommand)
      else
        var (cmd, n3) :- VisitCommand(c.command.value, n2);
        var (targets, n4) :- VisitTargets(c, c.command.value, cmd, n3);
        var (post, n5) :- VisitLocal(c.post, n4);
        Visited(Group(1, JobGroup, setUp + (pre + ([targets] + post))), n5)
  }
}
