/**
 Hosts do not disturb each other: whatever fails on one, every other runs as if it were alone, and what comes
 after the hosts runs as well. Every command of a host runs for that host.
 */
module JobHosts {
  import opened Options
  import opened JobConfig
  import opened JobVisit
  import opened JobRuns
  import opened JobSafety
  import opened JobMeaning
  import opened JobLimits
  import opened JobCounts

  // ---- lists of steps in two parts

  lemma {:induction false} SplitRun(first: seq<Tree>, rest: seq<Tree>, ctx: Context, canc: Cancellation, tr: Trace,
                                    r: Result)
    returns (k: nat, r1: Result)
    requires SequentialRuns(first + rest, ctx, canc, tr, r)
    ensures k <= |tr| && SequentialRuns(first, ctx, canc, tr[..k], r1)
    ensures if r1.Failed? then k == |tr| && r == r1
            else r1.ctx.Some? && SequentialRuns(rest, r1.ctx.value, canc, tr[k..], r)
    decreases |first|
  {
    if first == [] {
      assert first + rest == rest;
      k, r1 := 0, Returned(Some(ctx));
    } else if MayBeDone(ctx, canc) && tr == [] && r == Failed(Cancelled) {
      k, r1 := 0, r;
    } else {
      var ts := first + rest;
      assert ts[0] == first[0] && ts[1..] == first[1..] + rest;
      var j, r0 := FirstRun(ts, ctx, canc, tr, r);
      if r0.Failed? {
        k, r1 := j, r0;
        StepsJoin(first, ctx, canc, tr[..j], r0, [], r0);
        assert tr[..j] + [] == tr[..j];
      } else {
        var i;
        i, r1 := SplitRun(first[1..], rest, Passed(r0, ctx), canc, tr[j..], r);
        k := j + i;
        StepsJoin(first, ctx, canc, tr[..j], r0, tr[j..][..i], r1);
        assert tr[..k] == tr[..j] + tr[j..][..i] && tr[j..][i..] == tr[k..];
      }
    }
  }

  // ---- isolation

  /** The group of a host, inside its safeguard and its bounds. */
  predicate IsGuarded(t: Tree) {
    t.Safeguard? && t.child.Bounds?
  }

  function Guarded(t: Tree): Tree
    requires IsGuarded(t)
  {
    t.child.child
  }

  /** A guarded group runs as it would without its guards, and never fails. */
  lemma GuardsHold(t: Tree, ctx: Context, canc: Cancellation, tr: Trace, r: Result) returns (r1: Result)
    requires IsGuarded(t) && ctx.logger.Some? && Runs(t, ctx, canc, tr, r)
    ensures r == Returned(None) && Runs(Guarded(t), ctx, canc, tr, r1)
  {
    var r0 := GuardedRun(t.id, t.child, ctx, canc, tr, r);
    r1 := BoundedRun(t.child.id, t.child.child, ctx, canc, tr, r0);
  }

  /** Each of the groups behind ts has run to its end in ctx, as one of the branches bs. */
  ghost predicate AllRun(ts: seq<Tree>, ctx: Context, canc: Cancellation, bs: seq<Branch>)
    requires forall t :: t in ts ==> IsGuarded(t)
  {
    && |bs| == |ts|
    && forall i :: 0 <= i < |ts| ==>
         bs[i].part == bs[i].full && Runs(Guarded(ts[i]), ctx, canc, bs[i].full, bs[i].r)
  }

  lemma {:induction false} GuardedBranches(ts: seq<Tree>, ctx: Context, canc: Cancellation, bs: seq<Branch>)
    returns (bs': seq<Branch>)
    requires (forall t :: t in ts ==> IsGuarded(t)) && ctx.logger.Some? && BranchesRun(ts, ctx, canc, bs)
    ensures |bs'| == |bs| == |ts|
    ensures forall b :: b in bs ==> b.r == Returned(None)
    ensures forall i :: 0 <= i < |ts| ==> bs'[i].full == bs[i].full && bs'[i].part == bs[i].part
    ensures forall i :: 0 <= i < |ts| ==> Runs(Guarded(ts[i]), ctx, canc, bs'[i].full, bs'[i].r)
    decreases |ts|
  {
    if ts == [] {
      bs' := [];
    } else {
      var r1 := GuardsHold(ts[0], ctx, canc, bs[0].full, bs[0].r);
      var others := GuardedBranches(ts[1..], ctx, canc, bs[1..]);
      bs' := [bs[0].(r := r1)] + others;
    }
  }

  lemma {:induction false} SameParts(tr: Trace, bs: seq<Branch>, bs': seq<Branch>)
    requires Interleaves(tr, bs) && |bs| == |bs'| && forall i :: 0 <= i < |bs| ==> bs[i].part == bs'[i].part
    ensures Interleaves(tr, bs')
    decreases |bs|
  {
    if bs != [] {
      var rest :| Interleaves(rest, bs[1..]) && Shuffle(tr, bs[0].part, rest);
      SameParts(rest, bs[1..], bs'[1..]);
    }
  }

  /**
   Guarded groups running in parallel, and not cancelled from outside, all run to their ends, and the parallel
   group succeeds.
   */
  lemma GuardedInParallel(ts: seq<Tree>, ctx: Context, canc: Cancellation, tr: Trace, r: Result)
    returns (bs: seq<Branch>)
    requires (forall t :: t in ts ==> IsGuarded(t)) && ctx.logger.Some? && !MayBeDone(ctx, canc)
    requires ParallelRuns(ts, ctx, canc, tr, r)
    ensures r == Returned(None) && Interleaves(tr, bs) && AllRun(ts, ctx, canc, bs)
  {
    var bs0: seq<Branch> :| BranchesRun(ts, ctx, canc, bs0) && Interleaves(tr, bs0)
                            && Joined(bs0, MayBeDone(ctx, canc), r);
    bs := GuardedBranches(ts, ctx, canc, bs0);
    SameParts(tr, bs0, bs);
  }

  lemma {:induction false} HostsAreGuarded(c: Config, cmd: Command, t: Tree, hosts: seq<Host>, n: nat)
    requires VisitHosts(c, cmd, t, hosts, n).Visited?
    ensures var ts := VisitHosts(c, cmd, t, hosts, n).node;
            && |ts| == |hosts|
            && forall i :: 0 <= i < |ts| ==>
                 IsGuarded(ts[i]) && Guarded(ts[i]).Group? && Guarded(ts[i]).kind == HostGroup(hosts[i])
    decreases |hosts|
  {
    if hosts != [] {
      HostsAreGuarded(c, cmd, t, hosts[1..], VisitHost(c, cmd, t, hosts[0], n).next);
    }
  }

  /** The steps of a job before, at and after its hosts. */
  datatype JobSteps = JobSteps(before: seq<Tree>, targets: Tree, after: seq<Tree>)

  function StepsOf(c: Config): (s: JobSteps)
    requires VisitConfig(c).Visited?
  {
    var (setUp, n1) := SetUp(c, 1).Extract();
    var (pre, n2) := VisitLocal(c.pre, n1).Extract();
    var (cmd, n3) := VisitCommand(c.command.value, n2).Extract();
    var (targets, n4) := VisitTargets(c, c.command.value, cmd, n3).Extract();
    JobSteps(setUp + pre, targets, VisitLocal(c.post, n4).node)
  }

  /** The host group, or all host groups interleaved, run to the end. */
  ghost predicate TargetsRun(t: Tree, ctx: Context, canc: Cancellation, tr: Trace) {
    if IsGuarded(t) then exists r :: Runs(Guarded(t), ctx, canc, tr, r)
    else
      && t.Group? && (forall h :: h in t.children ==> IsGuarded(h))
      && exists bs :: Interleaves(tr, bs) && AllRun(t.children, ctx, canc, bs)
  }

  /** The job is neither cancelled from outside nor does it last as long as its own time limit. */
  predicate Undisturbed(c: Config, canc: Cancellation) {
    !canc.outside && (c.timeout != "" && DURATION(c.timeout).Some? ==> canc.lasts < DURATION(c.timeout).value)
  }

  /**
   An undisturbed job either fails before it reaches its hosts, or runs every host to its end, as if it were
   alone, whatever fails on the hosts and whichever of their time limits are up; and then it does what comes
   after the hosts.
   */
  lemma HostsAreIsolated(c: Config, canc: Cancellation, tr: Trace, r: Result) returns (i: nat, j: nat, r1: Result)
    requires VisitConfig(c).Visited? && Undisturbed(c, canc) && Runs(VisitConfig(c).node, NOTHING, canc, tr, r)
    ensures i <= j <= |tr| && SequentialRuns(StepsOf(c).before, NOTHING, canc, tr[..i], r1)
    ensures if r1.Failed? then i == |tr| && r == r1
            else
              && r1.ctx.Some?
              && TargetsRun(StepsOf(c).targets, r1.ctx.value, canc, tr[i..j])
              && SequentialRuns(StepsOf(c).after, r1.ctx.value, canc, tr[j..], r)
  {
    hide Runs, SequentialRuns, TargetsRun, VisitTargets, VisitCommand, VisitLocal, SetUp, Plain;
    var s := StepsOf(c);
    JobRunsItsSteps(c, canc, tr, r);
    i, r1 := SplitRun(s.before, [s.targets] + s.after, NOTHING, canc, tr, r);
    j := i;
    if r1.Returned? {
      var ctx := r1.ctx.value;
      LoggerIsSet(c, canc, tr[..i], r1);
      NotDoneAtHosts(c, canc, tr[..i], r1);
      var k, r2 := TargetsReturn(c, ctx, canc, tr[i..], r);
      j := i + k;
      assert tr[i..][..k] == tr[i..j] && tr[i..][k..] == tr[j..];
    }
  }

  lemma JobRunsItsSteps(c: Config, canc: Cancellation, tr: Trace, r: Result)
    requires VisitConfig(c).Visited? && Runs(VisitConfig(c).node, NOTHING, canc, tr, r)
    ensures var s := StepsOf(c); SequentialRuns(s.before + ([s.targets] + s.after), NOTHING, canc, tr, r)
  {
    hide VisitTargets, VisitCommand, VisitLocal, SetUp, Plain, SequentialRuns;
    var s, t := StepsOf(c), VisitConfig(c).node;
    assert t.children == s.before + ([s.targets] + s.after);
  }

  /** An undisturbed job reaches its hosts with time left. */
  lemma NotDoneAtHosts(c: Config, canc: Cancellation, tr: Trace, r: Result)
    requires VisitConfig(c).Visited? && Undisturbed(c, canc) && SequentialRuns(StepsOf(c).before, NOTHING, canc, tr, r)
    ensures r.Returned? && r.ctx.Some? ==> !MayBeDone(r.ctx.value, canc)
  {
    BeforeIsUnlimited(c, canc);
    RunThroughInOrder(StepsOf(c).before, NOTHING, canc, tr, r);
  }

  lemma BeforeIsUnlimited(c: Config, canc: Cancellation)
    requires VisitConfig(c).Visited? && Undisturbed(c, canc)
    ensures forall t :: t in StepsOf(c).before ==> Unlimited(t, canc)
  {
    var (setUp, n1) := SetUp(c, 1).Extract();
    LocalUnlimited(c.pre, n1, canc);
    assert forall t :: t in setUp ==> Unlimited(t, canc);
  }

  lemma LocalUnlimited(cmd: Option<Command>, n: nat, canc: Cancellation)
    requires VisitLocal(cmd, n).Visited?
    ensures forall t :: t in VisitLocal(cmd, n).node ==> Unlimited(t, canc)
  {
    if cmd.Some? {
      LocalizedHasNoLimit(cmd.value, canc);
      CommandUnlimited(Localized(cmd.value), n, canc);
    }
  }

  /** After the set-up there is a logger. */
  lemma LoggerIsSet(c: Config, canc: Cancellation, tr: Trace, r: Result)
    requires VisitConfig(c).Visited? && SequentialRuns(StepsOf(c).before, NOTHING, canc, tr, r)
    requires r.Returned? && r.ctx.Some?
    ensures r.ctx.value.logger.Some?
  {
    var n1 := SetUp(c, 1).next;
    LocalIsSafe(c.pre, n1, [], JOB_KEYS);
    var pre := VisitLocal(c.pre, n1).node;
    assert pre + [] == pre;
    SetUpIsSafe(c, 1, pre);
    SoundInOrder(StepsOf(c).before, {}, NOTHING, canc, tr, r);
    KeysAfterSetUp(c, 1, pre);
  }

  lemma KeysAfterSetUp(c: Config, n: nat, rest: seq<Tree>)
    requires SetUp(c, n).Visited?
    ensures LoggerKey in KeysAfterAll(SetUp(c, n).node + rest, {})
  {
    var ts := SetUp(c, n).node + rest;
    var k1 := KeysAfter(ts[0], {});
    var k2 := KeysAfter(ts[1], k1);
    assert ts[1..][0] == ts[1] && ts[1..][1..][0] == ts[2] && ts[2] == Leaf(n + 3, JobLogger);
    assert LoggerKey in KeysAfter(ts[2], k2);
    assert KeysAfterAll(ts, {}) == KeysAfterAll(ts[1..], k1);
    assert KeysAfterAll(ts[1..], k1) == KeysAfterAll(ts[1..][1..], k2);
    assert KeysAfterAll(ts[1..][1..], k2) == KeysAfterAll(ts[1..][1..][1..], KeysAfter(ts[2], k2));
  }

  /** The hosts run to their ends and return. */
  lemma TargetsReturn(c: Config, ctx: Context, canc: Cancellation, tr: Trace, r: Result) returns (k: nat, r1: Result)
    requires VisitConfig(c).Visited? && ctx.logger.Some? && !MayBeDone(ctx, canc)
    requires SequentialRuns([StepsOf(c).targets] + StepsOf(c).after, ctx, canc, tr, r)
    ensures k <= |tr| && TargetsRun(StepsOf(c).targets, ctx, canc, tr[..k])
    ensures SequentialRuns(StepsOf(c).after, ctx, canc, tr[k..], r)
  {
    hide SequentialRuns, TargetsRun, VisitConfig, StepsOf;
    var s := StepsOf(c);
    var ts := [s.targets] + s.after;
    assert ts[0] == s.targets && ts[1..] == s.after;
    k, r1 := FirstTarget(ts, ctx, canc, tr, r);
    TargetsFinish(c, ctx, canc, tr[..k], r1);
  }

  lemma FirstTarget(ts: seq<Tree>, ctx: Context, canc: Cancellation, tr: Trace, r: Result) returns (k: nat, r1: Result)
    requires ts != [] && !MayBeDone(ctx, canc) && SequentialRuns(ts, ctx, canc, tr, r)
    ensures k <= |tr| && Runs(ts[0], ctx, canc, tr[..k], r1)
    ensures r1 == Returned(None) ==> SequentialRuns(ts[1..], ctx, canc, tr[k..], r)
  {
    k, r1 := FirstRun(ts, ctx, canc, tr, r);
  }

  lemma TargetsFinish(c: Config, ctx: Context, canc: Cancellation, tr: Trace, r: Result)
    requires VisitConfig(c).Visited? && ctx.logger.Some? && !MayBeDone(ctx, canc)
    requires Runs(StepsOf(c).targets, ctx, canc, tr, r)
    ensures r == Returned(None) && TargetsRun(StepsOf(c).targets, ctx, canc, tr)
  {
    hide VisitCommand, VisitLocal, SetUp, Plain;
    var t := StepsOf(c).targets;
    var n2 := VisitLocal(c.pre, SetUp(c, 1).next).next;
    var (cmd, n3) := VisitCommand(c.command.value, n2).Extract();
    if c.host.Some? {
      var r1 := GuardsHold(t, ctx, canc, tr, r);
    } else {
      HostsAreGuarded(c, c.command.value, cmd, c.hostsFile.value.hosts, n3 + 1);
      var bs := GuardedInParallel(t.children, ctx, canc, tr, r);
    }
  }

  // ---- every command runs for its own host

  /** Steps of commands: nothing in t changes a context but by redirections and time limits. */
  predicate OnlyCommands(t: Tree)
    decreases t
  {
    match t
    case Leaf(_, a) => a.Stdout? || a.Stderr? || a.Timeout? || a.Local? || a.Remote?
    case Group(_, _, children) => forall c :: c in children ==> OnlyCommands(c)
    case Safeguard(_, child) => OnlyCommands(child)
    case Bounds(_, child) => OnlyCommands(child)
    case Retry(_, child, _) => OnlyCommands(child)
    case Probe(_, _, _) => false
  }

  predicate SameScope(ctx: Context, outer: Context) {
    ctx.(stdout := outer.stdout, stderr := outer.stderr, limit := outer.limit) == outer
  }

  /**
   All steps in tr are taken in contexts that differ from ctx by redirections and limits only, and so does what r
   passes on.
   */
  ghost predicate InScope(ctx: Context, tr: Trace, r: Result) {
    && (forall e :: e in tr && e.Did? ==> SameScope(e.ctx, ctx))
    && (r.Returned? && r.ctx.Some? ==> SameScope(r.ctx.value, ctx))
  }

  lemma {:induction false} CommandsStayInScope(t: Tree, ctx: Context, canc: Cancellation, tr: Trace, r: Result)
    requires OnlyCommands(t) && Runs(t, ctx, canc, tr, r)
    ensures InScope(ctx, tr, r)
    decreases t, 0
  {
    match t
    case Leaf(_, a) =>
    case Group(_, kind, children) =>
      if !IsParallel(kind) {
        StayInScope(children, ctx, canc, tr, r);
      } else if !(MayBeDone(ctx, canc) && tr == [] && r == Returned(None)) {
        var bs: seq<Branch> :| BranchesRun(children, ctx, canc, bs) && Interleaves(tr, bs)
                               && Joined(bs, MayBeDone(ctx, canc), r);
        BranchesStayInScope(children, ctx, canc, bs);
        forall e | e in tr && e.Did? ensures SameScope(e.ctx, ctx) {
          var i := FromABranch(tr, bs, e);
          assert bs[i] in bs && e in bs[i].full;
        }
      }
    case Safeguard(id, child) =>
      if ctx.logger.Some? {
        var r1 := GuardedRun(id, child, ctx, canc, tr, r);
        CommandsStayInScope(child, ctx, canc, tr, r1);
      }
    case Bounds(id, child) =>
      var r1 := BoundedRun(id, child, ctx, canc, tr, r);
      CommandsStayInScope(child, ctx, canc, tr, r1);
    case Retry(_, child, n) =>
      if ctx.logger.Some? {
        RetriesStayInScope(child, n, ctx, canc, tr, r);
      }
  }

  lemma {:induction false} StayInScope(ts: seq<Tree>, ctx: Context, canc: Cancellation, tr: Trace, r: Result)
    requires (forall t :: t in ts ==> OnlyCommands(t)) && SequentialRuns(ts, ctx, canc, tr, r)
    ensures InScope(ctx, tr, r)
    decreases ts, 1
  {
    if ts != [] && !(MayBeDone(ctx, canc) && tr == [] && r == Failed(Cancelled)) {
      var k, r1 := FirstRun(ts, ctx, canc, tr, r);
      CommandsStayInScope(ts[0], ctx, canc, tr[..k], r1);
      assert tr == tr[..k] + tr[k..];
      if r1.Returned? {
        StayInScope(ts[1..], Passed(r1, ctx), canc, tr[k..], r);
      }
    }
  }

  lemma {:induction false} RetriesStayInScope(t: Tree, n: nat, ctx: Context, canc: Cancellation, tr: Trace, r: Result)
    requires OnlyCommands(t) && RetryRuns(t, n, ctx, canc, tr, r)
    ensures InScope(ctx, tr, r)
    decreases t, 1, n
  {
    if n > 0 {
      var k, r1 := FirstAttempt(t, n, ctx, canc, tr, r);
      CommandsStayInScope(t, ctx, canc, tr[..k], r1);
      assert tr == tr[..k] + tr[k..];
      if r1.Failed? && n > 1 {
        RetriesStayInScope(t, n - 1, ctx, canc, tr[k..], r);
      }
    }
  }

  lemma {:induction false} BranchesStayInScope(ts: seq<Tree>, ctx: Context, canc: Cancellation, bs: seq<Branch>)
    requires (forall t :: t in ts ==> OnlyCommands(t)) && BranchesRun(ts, ctx, canc, bs)
    ensures forall b :: b in bs ==> InScope(ctx, b.full, b.r) && b.part <= b.full
    decreases ts, 0
  {
    if ts != [] {
      CommandsStayInScope(ts[0], ctx, canc, bs[0].full, bs[0].r);
      BranchesStayInScope(ts[1..], ctx, canc, bs[1..]);
      assert bs == [bs[0]] + bs[1..];
    }
  }

  lemma {:induction false} CommandTreesOnly(cmd: Command, n: nat)
    requires VisitCommand(cmd, n).Visited?
    ensures OnlyCommands(VisitCommand(cmd, n).node)
    decreases cmd, 1
  {
    hide Plain;
    var (opens, n1) := Redirect(cmd, n + 1).Extract();
    var (limits, n2) := Limit(cmd.timeout, n1).Extract();
    var (body, n3) := VisitBody(cmd, n2).Extract();
    if cmd.command == "" {
      CommandListsOnly(cmd.commands, n2 + 1);
    }
    assert OnlyCommands(body);
    var group := Group(n + 1, CommandsGroup, opens + (limits + [body]));
    assert OnlyCommands(group);
    var bounds := Bounds(n3 + 1, group);
    assert OnlyCommands(bounds);
    assert OnlyCommands(Retry(n3 + 2, bounds, cmd.retries));
  }

  lemma {:induction false} CommandListsOnly(cmds: seq<Command>, n: nat)
    requires VisitAll(cmds, n).Visited?
    ensures forall t :: t in VisitAll(cmds, n).node ==> OnlyCommands(t)
    decreases cmds
  {
    if cmds != [] {
      CommandTreesOnly(cmds[0], n);
      CommandListsOnly(cmds[1..], VisitCommand(cmds[0], n).next);
    }
  }

  /** The context belongs to the host h. */
  predicate Serves(ctx: Context, h: Host, remote: bool) {
    ctx.templating == Some(Engine(Some(h))) && ctx.logger == Some(HostLog(h)) && (remote ==> ctx.ssh == Some(h))
  }

  predicate IsCommand(a: Action) {
    a.Local? || a.Remote?
  }

  /** Every command that runs in a host's group runs with the host's own logger, templating engine and SSH client. */
  lemma CommandsServeTheirHost(c: Config, cmd: Command, m: nat, h: Host, n: nat, ctx: Context, canc: Cancellation,
                               tr: Trace, r: Result)
    requires VisitCommand(cmd, m).Visited? && VisitHost(c, cmd, VisitCommand(cmd, m).node, h, n).Visited?
    requires Runs(Guarded(VisitHost(c, cmd, VisitCommand(cmd, m).node, h, n).node), ctx, canc, tr, r)
    ensures forall e :: e in tr && e.Did? && IsCommand(e.a) ==> Serves(e.ctx, h, IsRemote(cmd))
  {
    var t := VisitCommand(cmd, m).node;
    var own := [Leaf(n + 2, HostLogger(h)), Leaf(n + 3, Templating(Some(h)))];
    assert SequentialRuns(own + (Connect(c, cmd, h, n + 3).node + [t]), ctx, canc, tr, r);
    HostStepsServe(c, cmd, m, h, n + 3, own, ctx, canc, tr, r);
  }

  lemma HostStepsServe(c: Config, cmd: Command, m: nat, h: Host, n: nat, own: seq<Tree>,
                       ctx: Context, canc: Cancellation, tr: Trace, r: Result)
    requires VisitCommand(cmd, m).Visited? && Connect(c, cmd, h, n).Visited?
    requires |own| == 2 && own[0].Leaf? && own[0].action == HostLogger(h)
    requires own[1].Leaf? && own[1].action == Templating(Some(h))
    requires SequentialRuns(own + (Connect(c, cmd, h, n).node + [VisitCommand(cmd, m).node]), ctx, canc, tr, r)
    ensures forall e :: e in tr && e.Did? && IsCommand(e.a) ==> Serves(e.ctx, h, IsRemote(cmd))
  {
    hide SequentialRuns, VisitCommand, Connect;
    var t := VisitCommand(cmd, m).node;
    var connect := Connect(c, cmd, h, n).node;
    var k, r1 := SplitRun(own, connect + [t], ctx, canc, tr, r);
    OwnStepsServe(own, h, ctx, canc, tr[..k], r1);
    assert tr == tr[..k] + tr[k..];
    if r1.Returned? {
      var rest := tr[k..];
      var j, r2 := SplitRun(connect, [t], r1.ctx.value, canc, rest, r);
      ConnectServes(c, cmd, h, n, r1.ctx.value, canc, rest[..j], r2);
      assert rest == rest[..j] + rest[j..];
      if r2.Returned? {
        CommandTreesOnly(cmd, m);
        StayInScope([t], r2.ctx.value, canc, rest[j..], r);
      }
    }
  }

  ghost predicate NoCommands(tr: Trace) {
    forall e :: e in tr && e.Did? ==> !IsCommand(e.a)
  }

  lemma OwnStepsServe(own: seq<Tree>, h: Host, ctx: Context, canc: Cancellation, tr: Trace, r: Result)
    requires |own| == 2 && own[0].Leaf? && own[0].action == HostLogger(h)
    requires own[1].Leaf? && own[1].action == Templating(Some(h))
    requires SequentialRuns(own, ctx, canc, tr, r)
    ensures NoCommands(tr)
    ensures r.Returned? && r.ctx.Some? ==> Serves(r.ctx.value, h, false)
  {
    if !(MayBeDone(ctx, canc) && tr == [] && r == Failed(Cancelled)) {
      var k, r1 := FirstRun(own, ctx, canc, tr, r);
      assert tr == tr[..k] + tr[k..];
      if r1.Returned? && !(MayBeDone(Passed(r1, ctx), canc) && tr[k..] == [] && r == Failed(Cancelled)) {
        var j, r2 := FirstRun(own[1..], Passed(r1, ctx), canc, tr[k..], r);
        assert tr[k..] == tr[k..][..j] + tr[k..][j..];
      }
    }
  }

  lemma ConnectServes(c: Config, cmd: Command, h: Host, n: nat, ctx: Context, canc: Cancellation, tr: Trace, r: Result)
    requires Connect(c, cmd, h, n).Visited? && Serves(ctx, h, false)
    requires SequentialRuns(Connect(c, cmd, h, n).node, ctx, canc, tr, r)
    ensures NoCommands(tr)
    ensures r.Returned? && r.ctx.Some? ==> Serves(r.ctx.value, h, IsRemote(cmd))
  {
    if IsRemote(cmd) && !(MayBeDone(ctx, canc) && tr == [] && r == Failed(Cancelled)) {
      var steps := ConnectStartsWithSsh(c, cmd, h, n);
      var ts := Connect(c, cmd, h, n).node;
      var k, r1 := FirstRun(ts, ctx, canc, tr, r);
      assert tr == tr[..k] + tr[k..] && ts[1..] == steps;
      if r1.Returned? {
        NetworkServes(steps, h, Passed(r1, ctx), canc, tr[k..], r);
      }
    }
  }

  lemma {:induction false} NetworkServes(ts: seq<Tree>, h: Host, ctx: Context, canc: Cancellation, tr: Trace, r: Result)
    requires (forall t :: t in ts ==> t.Leaf? && (t.action.Forwarding? || t.action.Tunnel?)) && Serves(ctx, h, true)
    requires SequentialRuns(ts, ctx, canc, tr, r)
    ensures NoCommands(tr)
    ensures r.Returned? && r.ctx.Some? ==> Serves(r.ctx.value, h, true)
    decreases |ts|
  {
    if ts != [] && !(MayBeDone(ctx, canc) && tr == [] && r == Failed(Cancelled)) {
      var k, r1 := FirstRun(ts, ctx, canc, tr, r);
      assert tr == tr[..k] + tr[k..];
      if r1.Returned? {
        NetworkServes(ts[1..], h, Passed(r1, ctx), canc, tr[k..], r);
      }
    }
  }

  // ---- before and after the hosts nothing runs remotely

  lemma {:induction false} LocalizedNeverRemote(cmd: Command, text: string)
    ensures MostOf(Localized(cmd), Remote(text)) == 0
    decreases cmd
  {
    var lc, a := Localized(cmd), Remote(text);
    LocalizedListsNeverRemote(cmd.commands, text);
    NoPreparation(Preparations(lc), a);
    assert [CommandStep(lc)][1..] == [];
    assert Times([CommandStep(lc)], a) == 0;
    assert Attempts(lc) * 0 == 0;
  }

  lemma {:induction false} LocalizedListsNeverRemote(cmds: seq<Command>, text: string)
    ensures MostOfAll(LocalizedAll(cmds), Remote(text)) == 0
    decreases cmds
  {
    if cmds != [] {
      LocalizedNeverRemote(cmds[0], text);
      LocalizedListsNeverRemote(cmds[1..], text);
    }
  }

  lemma {:induction false} NoPreparation(steps: seq<Action>, a: Action)
    requires !IsPreparation(a) && forall s :: s in steps ==> IsPreparation(s)
    ensures Times(steps, a) == 0
    decreases |steps|
  {
    if steps != [] {
      NoPreparation(steps[1..], a);
    }
  }

  /** No run of a pre or post command ever runs anything remotely. */
  lemma PreAndPostStayLocal(cmd: Command, n: nat, ctx: Context, canc: Cancellation, tr: Trace, r: Result, text: string)
    requires VisitCommand(Localized(cmd), n).Visited? && Runs(VisitCommand(Localized(cmd), n).node, ctx, canc, tr, r)
    ensures Count(tr, Taking(Remote(text))) == 0
  {
    StepsAreBounded(Localized(cmd), n, ctx, canc, tr, r, Remote(text));
    LocalizedNeverRemote(cmd, text);
  }
}
