/**
 What a whole job means, said directly: set up, run pre, run every host to its end whatever becomes of the
 others, run post. The tree of a job does just that.
 */
module JobWhole {
  import opened Options
  import opened JobConfig
  import opened JobVisit
  import opened JobRuns
  import opened JobSafety
  import opened JobMeaning
  import opened JobHosts
  import opened JobLocal

  // ---- the interpreter

  /** The job's first steps. */
  function SetUpActions(c: Config): seq<Action> {
    [Templating(None), SetOutput(c.output), JobLogger] +
    ((if c.timeout != "" && DURATION(c.timeout).Some? then [Timeout(DURATION(c.timeout).value)] else []) +
     (if c.scp.Some? then [Scp(c.scp.value)] else []))
  }

  /** A host's first steps; those for its connection only if some command runs there. */
  function HostActions(c: Config, h: Host, remote: bool): seq<Action> {
    [HostLogger(h), Templating(Some(h))] +
    if !remote then []
    else
      [SshClient(h)] +
      ((if c.forwarding.Some? then [Forwarding(c.forwarding.value)] else []) +
       (if c.tunnel.Some? then [Tunnel(c.tunnel.value)] else []))
  }

  /** What was to come is left out, as the context is done. */
  predicate CutShort(ctx: Context, canc: Cancellation, tr: Trace, e: Option<Cause>) {
    MayBeDone(ctx, canc) && tr == [] && e == Some(Cancelled)
  }

  /** Single steps in order, up to the first that fails; the context changes from step to step. */
  ghost predicate Acts(steps: seq<Action>, ctx: Context, canc: Cancellation, tr: Trace, r: Result)
    decreases |steps|
  {
    if steps == [] then tr == [] && r == Returned(Some(ctx))
    else
      var a := steps[0];
      || CutShort(ctx, canc, tr, Verdict(r))
      || (CanFail(a, ctx) && tr == [Did(a, ctx, false)] && r == Failed(StepFailed(a)))
      || (tr != [] && tr[0] == Did(a, ctx, true) &&
          Acts(steps[1..], Passed(Returned(ContextAfter(a, ctx)), ctx), canc, tr[1..], r))
  }

  ghost predicate CommandRuns(cmd: Command, ctx: Context, canc: Cancellation, tr: Trace, e: Option<Cause>) {
    CutShort(ctx, canc, tr, e) || Means(cmd, ctx, canc, tr, e)
  }

  /** pre and post: the command as it is told, but here, and without its time limits (see JobLocal). */
  ghost predicate LocalMeans(cmd: Option<Command>, ctx: Context, canc: Cancellation, tr: Trace, e: Option<Cause>) {
    if cmd.None? then tr == [] && e == None
    else CutShort(ctx, canc, tr, e) || MeansHere(cmd.value, ctx, canc, tr, e)
  }

  /** The steps of one host, and then the command. */
  ghost predicate HostMeans(c: Config, cmd: Command, h: Host, ctx: Context, canc: Cancellation, tr: Trace,
                            e: Option<Cause>)
  {
    exists k, r1 :: 0 <= k <= |tr| && Acts(HostActions(c, h, IsRemote(cmd)), ctx, canc, tr[..k], r1) &&
        ThenCommand(cmd, canc, tr, e, k, r1)
  }

  ghost predicate ThenCommand(cmd: Command, canc: Cancellation, tr: Trace, e: Option<Cause>, k: nat, r1: Result)
    requires k <= |tr|
  {
    if r1.Failed? then k == |tr| && e == Some(r1.cause)
    else r1.ctx.Some? && CommandRuns(cmd, r1.ctx.value, canc, tr[k..], e)
  }

  /** A host among others: it runs to its end, with or without an error, and the others do not learn of it. */
  ghost predicate Accounts(c: Config, cmd: Command, h: Host, ctx: Context, canc: Cancellation, b: Branch) {
    b.part <= b.full && b.r == Returned(None) && exists e :: HostMeans(c, cmd, h, ctx, canc, b.full, e)
  }

  ghost predicate HostsMean(c: Config, cmd: Command, hosts: seq<Host>, ctx: Context, canc: Cancellation,
                            bs: seq<Branch>)
  {
    |bs| == |hosts| && forall i :: 0 <= i < |hosts| ==> Accounts(c, cmd, hosts[i], ctx, canc, bs[i])
  }

  /** One host, or all hosts in any interleaving. Only if the job's own context may be done are hosts not waited for. */
  ghost predicate TargetsMean(c: Config, cmd: Command, ctx: Context, canc: Cancellation, tr: Trace, e: Option<Cause>) {
    match c.host
    case Some(h) => e == None && exists e1 :: HostMeans(c, cmd, h, ctx, canc, tr, e1)
    case None =>
      && c.hostsFile.Some? && c.hostsFile.value.Readable?
      && AllHosts(c, cmd, c.hostsFile.value.hosts, ctx, canc, tr, e)
  }

  ghost predicate AllHosts(c: Config, cmd: Command, hosts: seq<Host>, ctx: Context, canc: Cancellation, tr: Trace,
                           e: Option<Cause>) {
    || (MayBeDone(ctx, canc) && tr == [] && e == None)
    || exists bs :: HostsMean(c, cmd, hosts, ctx, canc, bs) && Interleaves(tr, bs) &&
        Joined(bs, MayBeDone(ctx, canc), AsResult(e))
  }

  /** e is the error the job ends with, if any. */
  ghost predicate JobMeans(c: Config, cmd: Command, canc: Cancellation, tr: Trace, e: Option<Cause>) {
    exists k, r1 :: 0 <= k <= |tr| && Acts(SetUpActions(c), NOTHING, canc, tr[..k], r1)
                    && AfterSetUp(c, cmd, canc, tr, e, k, r1)
  }

  ghost predicate AfterSetUp(c: Config, cmd: Command, canc: Cancellation, tr: Trace, e: Option<Cause>, k: nat,
                             r1: Result)
    requires k <= |tr|
  {
    if r1.Failed? then k == |tr| && e == Some(r1.cause)
    else r1.ctx.Some? && MainMeans(c, cmd, r1.ctx.value, canc, tr[k..], e)
  }

  /** pre, the hosts, and post. */
  ghost predicate MainMeans(c: Config, cmd: Command, ctx: Context, canc: Cancellation, tr: Trace, e: Option<Cause>) {
    exists k, e1 :: 0 <= k <= |tr| && LocalMeans(c.pre, ctx, canc, tr[..k], e1)
                    && AfterPre(c, cmd, ctx, canc, tr, e, k, e1)
  }

  ghost predicate AfterPre(c: Config, cmd: Command, ctx: Context, canc: Cancellation, tr: Trace, e: Option<Cause>,
                           k: nat, e1: Option<Cause>)
    requires k <= |tr|
  {
    if e1.Some? then k == |tr| && e == e1 else HostsAndPost(c, cmd, ctx, canc, tr[k..], e)
  }

  ghost predicate HostsAndPost(c: Config, cmd: Command, ctx: Context, canc: Cancellation, tr: Trace, e: Option<Cause>) {
    || CutShort(ctx, canc, tr, e)
    || exists j, e1 :: 0 <= j <= |tr| && TargetsMean(c, cmd, ctx, canc, tr[..j], e1)
                       && AfterHosts(c, ctx, canc, tr, e, j, e1)
  }

  ghost predicate AfterHosts(c: Config, ctx: Context, canc: Cancellation, tr: Trace, e: Option<Cause>, j: nat,
                             e1: Option<Cause>)
    requires j <= |tr|
  {
    if e1.Some? then j == |tr| && e == e1 else LocalMeans(c.post, ctx, canc, tr[j..], e)
  }

  // ---- single steps

  function ActionsOf(ts: seq<Tree>): seq<Action>
    requires forall t :: t in ts ==> t.Leaf?
  {
    if ts == [] then [] else [ts[0].action] + ActionsOf(ts[1..])
  }

  /** Safe steps do just what they are to do. */
  lemma {:induction false} StepsAct(ts: seq<Tree>, keys: set<Key>, ctx: Context, canc: Cancellation, tr: Trace,
                                    r: Result)
    requires (forall t :: t in ts ==> t.Leaf?) && SafeInOrder(ts, keys) && Provides(ctx, keys)
    ensures SequentialRuns(ts, ctx, canc, tr, r) <==> Acts(ActionsOf(ts), ctx, canc, tr, r)
    decreases |ts|
  {
    if ts != [] {
      var a, ctx' := ts[0].action, Passed(Returned(ContextAfter(ts[0].action, ctx)), ctx);
      NoLack(Needs(a, ctx.output.Some?), ctx);
      assert Provides(ctx', KeysAfter(ts[0], keys)) by {
        StepIsGood(a, ctx, [Did(a, ctx, true)], Returned(ContextAfter(a, ctx)), keys);
      }
      assert ActionsOf(ts)[1..] == ActionsOf(ts[1..]);
      if SequentialRuns(ts, ctx, canc, tr, r) {
        FirstStepActs(ts, keys, ctx, canc, tr, r);
      }
      if Acts(ActionsOf(ts), ctx, canc, tr, r) {
        if tr != [] && tr[0] == Did(a, ctx, true) {
          StepsAct(ts[1..], KeysAfter(ts[0], keys), ctx', canc, tr[1..], r);
          StepsJoin(ts, ctx, canc, [tr[0]], Returned(ContextAfter(a, ctx)), tr[1..], r);
          assert [tr[0]] + tr[1..] == tr;
        } else if !CutShort(ctx, canc, tr, Verdict(r)) {
          StepsJoin(ts, ctx, canc, tr, r, [], r);
          assert tr + [] == tr;
        }
      }
    }
  }

  lemma {:induction false} FirstStepActs(ts: seq<Tree>, keys: set<Key>, ctx: Context, canc: Cancellation, tr: Trace,
                                         r: Result)
    requires ts != [] && (forall t :: t in ts ==> t.Leaf?) && SafeInOrder(ts, keys) && Provides(ctx, keys)
    requires Provides(Passed(Returned(ContextAfter(ts[0].action, ctx)), ctx), KeysAfter(ts[0], keys))
    requires FirstLack(Needs(ts[0].action, ctx.output.Some?), ctx) == None && SequentialRuns(ts, ctx, canc, tr, r)
    ensures Acts(ActionsOf(ts), ctx, canc, tr, r)
    decreases |ts|, 0
  {
    var a, ctx' := ts[0].action, Passed(Returned(ContextAfter(ts[0].action, ctx)), ctx);
    assert ActionsOf(ts)[1..] == ActionsOf(ts[1..]);
    if !CutShort(ctx, canc, tr, Verdict(r)) {
      var k, r1 := FirstRun(ts, ctx, canc, tr, r);
      assert k == 1 && tr[0] == tr[..k][0];
      if r1.Returned? {
        StepsAct(ts[1..], KeysAfter(ts[0], keys), ctx', canc, tr[1..], r);
      } else {
        assert tr[..1] == tr;
      }
    }
  }

  /** Two parts of a list, one after the other. */
  lemma {:induction false} JoinRuns(first: seq<Tree>, rest: seq<Tree>, ctx: Context, canc: Cancellation, tr: Trace,
                                    r: Result, k: nat, r1: Result)
    requires k <= |tr| && SequentialRuns(first, ctx, canc, tr[..k], r1)
    requires if r1.Failed? then k == |tr| && r == r1
             else r1.ctx.Some? && SequentialRuns(rest, r1.ctx.value, canc, tr[k..], r)
    ensures SequentialRuns(first + rest, ctx, canc, tr, r)
    decreases |first|
  {
    var ts := first + rest;
    if first == [] {
      assert ts == rest && tr[k..] == tr;
    } else if MayBeDone(ctx, canc) && tr[..k] == [] && r1 == Failed(Cancelled) {
      assert tr == [];
    } else {
      assert ts[0] == first[0] && ts[1..] == first[1..] + rest;
      var j, r0 := FirstRun(first, ctx, canc, tr[..k], r1);
      assert tr[..k][..j] == tr[..j];
      if r0.Failed? {
        assert tr[..j] == tr;
      } else {
        assert tr[..k][j..] == tr[j..][..k - j] && tr[j..][k - j..] == tr[k..];
        JoinRuns(first[1..], rest, Passed(r0, ctx), canc, tr[j..], r, k - j, r1);
      }
      assert GoesOn(ts, ctx, canc, tr, r, j, r0);
    }
  }

  /** How a run of first + rest falls into a run of first and what comes then. */
  ghost predicate InParts(first: seq<Tree>, rest: seq<Tree>, ctx: Context, canc: Cancellation, tr: Trace,
                          e: Option<Cause>, k: nat, r1: Result)
    requires k <= |tr|
  {
    && SequentialRuns(first, ctx, canc, tr[..k], r1)
    && if r1.Failed? then k == |tr| && e == Some(r1.cause)
       else r1.ctx.Some? && AllEnd(rest, r1.ctx.value, canc, tr[k..], e)
  }

  lemma PartsFound(first: seq<Tree>, rest: seq<Tree>, ctx: Context, canc: Cancellation, tr: Trace, e: Option<Cause>)
    returns (k: nat, r1: Result)
    requires AllEnd(first + rest, ctx, canc, tr, e)
    ensures k <= |tr| && InParts(first, rest, ctx, canc, tr, e, k, r1)
  {
    var r :| SequentialRuns(first + rest, ctx, canc, tr, r) && Verdict(r) == e;
    k, r1 := SplitRun(first, rest, ctx, canc, tr, r);
  }

  lemma PartsJoined(first: seq<Tree>, rest: seq<Tree>, ctx: Context, canc: Cancellation, tr: Trace, e: Option<Cause>,
                    k: nat, r1: Result)
    requires k <= |tr| && InParts(first, rest, ctx, canc, tr, e, k, r1)
    ensures AllEnd(first + rest, ctx, canc, tr, e)
  {
    if r1.Failed? {
      JoinRuns(first, rest, ctx, canc, tr, r1, k, r1);
    } else {
      var r :| SequentialRuns(rest, r1.ctx.value, canc, tr[k..], r) && Verdict(r) == e;
      JoinRuns(first, rest, ctx, canc, tr, r, k, r1);
    }
  }

  /** What steps that succeed leave behind. */
  function GivesAll(steps: seq<Action>): set<Key> {
    if steps == [] then {} else Gives(steps[0]) + GivesAll(steps[1..])
  }

  lemma {:induction false} ActsProvide(steps: seq<Action>, keys: set<Key>, ctx: Context, canc: Cancellation,
                                       tr: Trace, r: Result)
    requires Acts(steps, ctx, canc, tr, r) && Provides(ctx, keys)
    ensures r.Returned? ==> r.ctx.Some? && Provides(r.ctx.value, keys + GivesAll(steps))
    decreases |steps|
  {
    if steps == [] {
      assert keys + {} == keys;
    } else if tr != [] && tr[0] == Did(steps[0], ctx, true) &&
              Acts(steps[1..], Passed(Returned(ContextAfter(steps[0], ctx)), ctx), canc, tr[1..], r) {
      var ctx' := Passed(Returned(ContextAfter(steps[0], ctx)), ctx);
      assert Provides(ctx', keys + Gives(steps[0]));
      ActsProvide(steps[1..], keys + Gives(steps[0]), ctx', canc, tr[1..], r);
      assert keys + Gives(steps[0]) + GivesAll(steps[1..]) == keys + GivesAll(steps);
    }
  }

  lemma {:induction false} SafePrefix(first: seq<Tree>, rest: seq<Tree>, keys: set<Key>)
    requires SafeInOrder(first + rest, keys)
    ensures SafeInOrder(first, keys)
    decreases |first|
  {
    if first != [] {
      assert (first + rest)[1..] == first[1..] + rest;
      SafePrefix(first[1..], rest, KeysAfter(first[0], keys));
    }
  }

  // ---- one host

  /** The steps of a host before its command. */
  function HostSteps(c: Config, cmd: Command, h: Host, n: nat): seq<Tree>
    requires Connect(c, cmd, h, n + 3).Visited?
  {
    [Leaf(n + 2, HostLogger(h)), Leaf(n + 3, Templating(Some(h)))] + Connect(c, cmd, h, n + 3).node
  }

  lemma HostStepsSafe(c: Config, cmd: Command, h: Host, n: nat, keys: set<Key>)
    requires Connect(c, cmd, h, n + 3).Visited? && OutputKey in keys
    ensures SafeInOrder(HostSteps(c, cmd, h, n), keys)
  {
    hide Connect;
    var t, connect := Leaf(0, Templating(None)), Connect(c, cmd, h, n + 3).node;
    var t0, t1 := Leaf(n + 2, HostLogger(h)), Leaf(n + 3, Templating(Some(h)));
    assert forall more :: Safe(t, more);
    ConnectIsSafe(c, cmd, h, n + 3, t, keys + {LoggerKey} + {TemplatingKey});
    StepCons(n + 3, Templating(Some(h)), connect + [t], keys + {LoggerKey});
    StepCons(n + 2, HostLogger(h), [t1] + (connect + [t]), keys);
    assert [t0] + ([t1] + (connect + [t])) == HostSteps(c, cmd, h, n) + [t];
    SafePrefix(HostSteps(c, cmd, h, n), [t], keys);
  }

  lemma HostStepsAre(c: Config, cmd: Command, h: Host, n: nat)
    requires Connect(c, cmd, h, n + 3).Visited?
    ensures forall t :: t in HostSteps(c, cmd, h, n) ==> t.Leaf?
    ensures ActionsOf(HostSteps(c, cmd, h, n)) == HostActions(c, h, IsRemote(cmd))
  {
    var ts, steps := HostSteps(c, cmd, h, n), HostActions(c, h, IsRemote(cmd));
    assert |ts| == |steps| && forall i :: 0 <= i < |ts| ==> ts[i].Leaf? && ts[i].action == steps[i];
    ActionsOfList(ts, steps);
  }

  lemma {:induction false} ActionsOfList(ts: seq<Tree>, steps: seq<Action>)
    requires |ts| == |steps| && forall i :: 0 <= i < |ts| ==> ts[i].Leaf? && ts[i].action == steps[i]
    ensures ActionsOf(ts) == steps
    decreases |ts|
  {
    if ts != [] {
      ActionsOfList(ts[1..], steps[1..]);
    }
  }

  lemma HostEquips(c: Config, cmd: Command, h: Host, ctx: Context, canc: Cancellation, tr: Trace, r: Result)
    requires Acts(HostActions(c, h, IsRemote(cmd)), ctx, canc, tr, r) && r.Returned?
    ensures r.ctx.Some? && Equipped(r.ctx.value, cmd)
  {
    var steps := HostActions(c, h, IsRemote(cmd));
    ActsProvide(steps, {}, ctx, canc, tr, r);
    GivesMember(steps, 0);
    GivesMember(steps, 1);
    if IsRemote(cmd) {
      GivesMember(steps, 2);
    }
  }

  lemma {:induction false} GivesMember(steps: seq<Action>, i: nat)
    requires i < |steps|
    ensures Gives(steps[i]) <= GivesAll(steps)
    decreases i
  {
    if i > 0 {
      GivesMember(steps[1..], i - 1);
    }
  }

  lemma CommandAlone(cmd: Command, m: nat, ctx: Context, canc: Cancellation, tr: Trace, e: Option<Cause>)
    requires VisitCommand(cmd, m).Visited? && Equipped(ctx, cmd)
    ensures AllEnd([VisitCommand(cmd, m).node], ctx, canc, tr, e) <==> CommandRuns(cmd, ctx, canc, tr, e)
  {
    hide VisitCommand, Means;
    LastStep(VisitCommand(cmd, m).node, ctx, canc, tr, e);
    CommandMeans(cmd, m, ctx, canc, tr, e);
  }

  /** A host's group does what the host means. */
  lemma HostEnds(c: Config, cmd: Command, m: nat, h: Host, n: nat, g: Tree, ctx: Context, canc: Cancellation,
                 tr: Trace, e: Option<Cause>)
    requires VisitCommand(cmd, m).Visited? && Connect(c, cmd, h, n + 3).Visited? && ctx.output.Some?
    requires g == Group(n + 1, HostGroup(h), HostSteps(c, cmd, h, n) + [VisitCommand(cmd, m).node])
    ensures Ends(g, ctx, canc, tr, e) <==> HostMeans(c, cmd, h, ctx, canc, tr, e)
  {
    hide VisitCommand, Connect, HostSteps, HostActions, Means, Acts, SequentialRuns;
    var first, last := HostSteps(c, cmd, h, n), [VisitCommand(cmd, m).node];
    HostStepsSafe(c, cmd, h, n, {OutputKey});
    HostStepsAre(c, cmd, h, n);
    GroupEnds(g, ctx, canc, tr, e);
    if AllEnd(first + last, ctx, canc, tr, e) {
      var k, r1 := PartsFound(first, last, ctx, canc, tr, e);
      StepsAct(first, {OutputKey}, ctx, canc, tr[..k], r1);
      if r1.Returned? {
        HostEquips(c, cmd, h, ctx, canc, tr[..k], r1);
        CommandAlone(cmd, m, r1.ctx.value, canc, tr[k..], e);
      }
      assert ThenCommand(cmd, canc, tr, e, k, r1);
    }
    if HostMeans(c, cmd, h, ctx, canc, tr, e) {
      var k, r1 :| 0 <= k <= |tr| && Acts(HostActions(c, h, IsRemote(cmd)), ctx, canc, tr[..k], r1) &&
          ThenCommand(cmd, canc, tr, e, k, r1);
      StepsAct(first, {OutputKey}, ctx, canc, tr[..k], r1);
      if r1.Returned? {
        HostEquips(c, cmd, h, ctx, canc, tr[..k], r1);
        CommandAlone(cmd, m, r1.ctx.value, canc, tr[k..], e);
      }
      PartsJoined(first, last, ctx, canc, tr, e, k, r1);
    }
  }

  lemma GroupEnds(g: Tree, ctx: Context, canc: Cancellation, tr: Trace, e: Option<Cause>)
    requires g.Group? && !IsParallel(g.kind)
    ensures Ends(g, ctx, canc, tr, e) <==> AllEnd(g.children, ctx, canc, tr, e)
  {
    assert forall r :: Runs(g, ctx, canc, tr, r) <==> SequentialRuns(g.children, ctx, canc, tr, r);
  }

  // ---- all hosts

  lemma GuardsRun(t: Tree, ctx: Context, canc: Cancellation, tr: Trace, r1: Result)
    requires IsGuarded(t) && ctx.logger.Some? && Runs(Guarded(t), ctx, canc, tr, r1)
    ensures Runs(t, ctx, canc, tr, Returned(None))
  {
    assert Runs(t.child, ctx, canc, tr, if r1.Failed? then r1 else Returned(None));
  }

  lemma HostTreeIs(c: Config, cmd: Command, t: Tree, h: Host, n: nat)
    requires VisitHost(c, cmd, t, h, n).Visited?
    ensures Connect(c, cmd, h, n + 3).Visited?
    ensures var u := VisitHost(c, cmd, t, h, n).node;
            IsGuarded(u) && Guarded(u) == Group(n + 1, HostGroup(h), HostSteps(c, cmd, h, n) + [t])
  {
    var own := [Leaf(n + 2, HostLogger(h)), Leaf(n + 3, Templating(Some(h)))];
    var connect := Connect(c, cmd, h, n + 3).node;
    assert own + (connect + [t]) == own + connect + [t];
  }

  /** A host's tree returns, and runs its group to the end. */
  lemma HostTreeEnds(c: Config, cmd: Command, m: nat, h: Host, n: nat, ctx: Context, canc: Cancellation, tr: Trace)
    requires VisitCommand(cmd, m).Visited? && VisitHost(c, cmd, VisitCommand(cmd, m).node, h, n).Visited?
    requires ctx.output.Some? && ctx.logger.Some?
    ensures var u := VisitHost(c, cmd, VisitCommand(cmd, m).node, h, n).node;
            && (Runs(u, ctx, canc, tr, Returned(None)) <==> exists e :: HostMeans(c, cmd, h, ctx, canc, tr, e))
            && forall r :: Runs(u, ctx, canc, tr, r) ==> r == Returned(None)
  {
    hide VisitCommand, VisitHost, HostSteps, HostMeans, Runs;
    var t := VisitCommand(cmd, m).node;
    var u := VisitHost(c, cmd, t, h, n).node;
    HostTreeIs(c, cmd, t, h, n);
    forall r | Runs(u, ctx, canc, tr, r)
      ensures r == Returned(None) && exists e :: HostMeans(c, cmd, h, ctx, canc, tr, e)
    {
      var r1 := GuardsHold(u, ctx, canc, tr, r);
      HostEnds(c, cmd, m, h, n, Guarded(u), ctx, canc, tr, Verdict(r1));
    }
    if e :| HostMeans(c, cmd, h, ctx, canc, tr, e) {
      HostEnds(c, cmd, m, h, n, Guarded(u), ctx, canc, tr, e);
      var r1 :| Runs(Guarded(u), ctx, canc, tr, r1) && Verdict(r1) == e;
      GuardsRun(u, ctx, canc, tr, r1);
    }
  }

  lemma {:induction false} BranchesAccounted(c: Config, cmd: Command, m: nat, hosts: seq<Host>, n: nat, ctx: Context,
                                             canc: Cancellation, bs: seq<Branch>)
    requires VisitCommand(cmd, m).Visited? && VisitHosts(c, cmd, VisitCommand(cmd, m).node, hosts, n).Visited?
    requires ctx.output.Some? && ctx.logger.Some?
    ensures BranchesRun(VisitHosts(c, cmd, VisitCommand(cmd, m).node, hosts, n).node, ctx, canc, bs) <==>
            HostsMean(c, cmd, hosts, ctx, canc, bs)
    decreases |hosts|
  {
    hide VisitCommand, VisitHost, HostMeans, Runs, Plain, AllPlain;
    if hosts != [] && bs != [] {
      var t := VisitCommand(cmd, m).node;
      var (first, n1) := VisitHost(c, cmd, t, hosts[0], n).Extract();
      var ts := VisitHosts(c, cmd, t, hosts, n).node;
      assert ts[0] == first && ts[1..] == VisitHosts(c, cmd, t, hosts[1..], n1).node;
      HostTreeEnds(c, cmd, m, hosts[0], n, ctx, canc, bs[0].full);
      BranchesAccounted(c, cmd, m, hosts[1..], n1, ctx, canc, bs[1..]);
      AccountedCons(c, cmd, hosts, ctx, canc, bs);
    }
  }

  lemma AccountedCons(c: Config, cmd: Command, hosts: seq<Host>, ctx: Context, canc: Cancellation, bs: seq<Branch>)
    requires hosts != [] && bs != []
    ensures HostsMean(c, cmd, hosts, ctx, canc, bs) <==>
            Accounts(c, cmd, hosts[0], ctx, canc, bs[0]) && HostsMean(c, cmd, hosts[1..], ctx, canc, bs[1..])
  {
    hide Accounts;
    if HostsMean(c, cmd, hosts, ctx, canc, bs) {
      forall i | 0 <= i < |hosts| - 1 ensures Accounts(c, cmd, hosts[1..][i], ctx, canc, bs[1..][i]) {
        assert Accounts(c, cmd, hosts[i + 1], ctx, canc, bs[i + 1]);
      }
    }
    if Accounts(c, cmd, hosts[0], ctx, canc, bs[0]) && HostsMean(c, cmd, hosts[1..], ctx, canc, bs[1..]) {
      forall i | 0 <= i < |hosts| ensures Accounts(c, cmd, hosts[i], ctx, canc, bs[i]) {
        if i > 0 {
          assert Accounts(c, cmd, hosts[1..][i - 1], ctx, canc, bs[1..][i - 1]);
        }
      }
    }
  }

  lemma HostsEnd(c: Config, cmd: Command, m: nat, hosts: seq<Host>, n: nat, ctx: Context, canc: Cancellation,
                 tr: Trace, r: Result)
    requires VisitCommand(cmd, m).Visited? && VisitHosts(c, cmd, VisitCommand(cmd, m).node, hosts, n).Visited?
    requires ctx.output.Some? && ctx.logger.Some?
    ensures ParallelRuns(VisitHosts(c, cmd, VisitCommand(cmd, m).node, hosts, n).node, ctx, canc, tr, r) <==>
            r == AsResult(Verdict(r)) && AllHosts(c, cmd, hosts, ctx, canc, tr, Verdict(r))
  {
    hide VisitCommand, VisitHosts, HostsMean, Interleaves, BranchesRun;
    var ts := VisitHosts(c, cmd, VisitCommand(cmd, m).node, hosts, n).node;
    forall bs { BranchesAccounted(c, cmd, m, hosts, n, ctx, canc, bs); }
  }

  /** The hosts of a job do what they mean, and hand nothing on. */
  lemma TargetsEnd(c: Config, cmd: Command, m: nat, n: nat, ctx: Context, canc: Cancellation, tr: Trace, r: Result)
    requires VisitCommand(cmd, m).Visited? && c.host.Some? != c.hostsFile.Some?
    requires VisitTargets(c, cmd, VisitCommand(cmd, m).node, n).Visited? && ctx.output.Some? && ctx.logger.Some?
    ensures Runs(VisitTargets(c, cmd, VisitCommand(cmd, m).node, n).node, ctx, canc, tr, r) <==>
            r == AsResult(Verdict(r)) && TargetsMean(c, cmd, ctx, canc, tr, Verdict(r))
  {
    hide VisitCommand, VisitHost, VisitHosts, HostMeans, AllHosts, ParallelRuns, Plain, AllPlain;
    var t := VisitCommand(cmd, m).node;
    if c.host.Some? {
      HostTreeEnds(c, cmd, m, c.host.value, n, ctx, canc, tr);
    } else {
      HostsEnd(c, cmd, m, c.hostsFile.value.hosts, n + 1, ctx, canc, tr, r);
      var g := VisitTargets(c, cmd, t, n).node;
      assert g.Group? && IsParallel(g.kind) && g.children == VisitHosts(c, cmd, t, c.hostsFile.value.hosts, n + 1).node;
    }
  }

  // ---- the whole job

  lemma LocalEnds(cmd: Option<Command>, n: nat, ctx: Context, canc: Cancellation, tr: Trace, r: Result)
    requires VisitLocal(cmd, n).Visited? && Provides(ctx, {LoggerKey, TemplatingKey})
    ensures SequentialRuns(VisitLocal(cmd, n).node, ctx, canc, tr, r) ==>
              LocalMeans(cmd, ctx, canc, tr, Verdict(r)) && (r.Returned? ==> r == Returned(Some(ctx)))
    ensures LocalMeans(cmd, ctx, canc, tr, Verdict(r)) && (r.Returned? ==> r == Returned(Some(ctx))) ==>
              SequentialRuns(VisitLocal(cmd, n).node, ctx, canc, tr, r)
  {
    hide VisitCommand, Means, MeansHere;
    if cmd.Some? {
      var lc := Localized(cmd.value);
      var t := VisitCommand(lc, n).node;
      LocalizedIsNotRemote(cmd.value);
      LocalizedMeans(cmd.value, ctx, canc, tr, Verdict(r));
      CommandMeans(lc, n, ctx, canc, tr, Verdict(r));
      AloneRuns(lc, n, ctx, canc, tr, r);
    }
  }

  lemma AloneRuns(cmd: Command, n: nat, ctx: Context, canc: Cancellation, tr: Trace, r: Result)
    requires VisitCommand(cmd, n).Visited?
    ensures SequentialRuns([VisitCommand(cmd, n).node], ctx, canc, tr, r) <==>
            && (CutShort(ctx, canc, tr, Verdict(r)) || Ends(VisitCommand(cmd, n).node, ctx, canc, tr, Verdict(r)))
            && (r.Returned? ==> r == Returned(Some(ctx)))
  {
    hide VisitCommand;
    var t := VisitCommand(cmd, n).node;
    assert [t][1..] == [] && tr[..|tr|] == tr && tr[|tr|..] == [];
    if SequentialRuns([t], ctx, canc, tr, r) && !CutShort(ctx, canc, tr, Verdict(r)) {
      var k, r1 := FirstRun([t], ctx, canc, tr, r);
      CommandHandsNothingOn(cmd, n, ctx, canc, tr[..k], r1);
      assert k == |tr|;
    }
    if Ends(t, ctx, canc, tr, Verdict(r)) && (r.Returned? ==> r == Returned(Some(ctx))) {
      var r1 :| Runs(t, ctx, canc, tr, r1) && Verdict(r1) == Verdict(r);
      CommandHandsNothingOn(cmd, n, ctx, canc, tr, r1);
      assert GoesOn([t], ctx, canc, tr, r, |tr|, r1);
    }
  }

  /** The set-up's steps, and what they leave. */
  lemma SetUpActs(c: Config, n: nat, canc: Cancellation, tr: Trace, r: Result)
    requires SetUp(c, n).Visited?
    ensures SequentialRuns(SetUp(c, n).node, NOTHING, canc, tr, r) <==> Acts(SetUpActions(c), NOTHING, canc, tr, r)
    ensures Acts(SetUpActions(c), NOTHING, canc, tr, r) && r.Returned? ==>
            r.ctx.Some? && Provides(r.ctx.value, JOB_KEYS)
  {
    hide Acts, SequentialRuns, SafeInOrder, Plain, AllPlain;
    var ts, steps := SetUp(c, n).node, SetUpActions(c);
    SafeNothing(JOB_KEYS);
    SetUpIsSafe(c, n, []);
    assert ts + [] == ts;
    assert |ts| == |steps| && forall i :: 0 <= i < |ts| ==> ts[i].Leaf? && ts[i].action == steps[i];
    ActionsOfList(ts, steps);
    StepsAct(ts, {}, NOTHING, canc, tr, r);
    if Acts(steps, NOTHING, canc, tr, r) {
      ActsProvide(steps, {}, NOTHING, canc, tr, r);
      GivesMember(steps, 0);
      GivesMember(steps, 1);
      GivesMember(steps, 2);
    }
  }

  lemma SafeNothing(keys: set<Key>)
    ensures SafeInOrder([], keys)
  {
  }

  /** The hosts and post, in the order the visitor puts them. */
  lemma LastStepsEnd(c: Config, cmd: Command, m: nat, n: nat, p: nat, ctx: Context, canc: Cancellation, tr: Trace,
                     e: Option<Cause>)
    requires VisitCommand(cmd, m).Visited? && c.host.Some? != c.hostsFile.Some?
    requires VisitTargets(c, cmd, VisitCommand(cmd, m).node, n).Visited? && VisitLocal(c.post, p).Visited?
    requires Provides(ctx, JOB_KEYS)
    ensures AllEnd([VisitTargets(c, cmd, VisitCommand(cmd, m).node, n).node] + VisitLocal(c.post, p).node,
                   ctx, canc, tr, e) <==>
            HostsAndPost(c, cmd, ctx, canc, tr, e)
  {
    hide VisitCommand, VisitTargets, VisitLocal, TargetsMean, LocalMeans, AfterHosts, Runs;
    var ts := [VisitTargets(c, cmd, VisitCommand(cmd, m).node, n).node] + VisitLocal(c.post, p).node;
    if CutShort(ctx, canc, tr, e) {
      assert SequentialRuns(ts, ctx, canc, tr, Failed(Cancelled));
    } else if AllEnd(ts, ctx, canc, tr, e) {
      LastStepsMean(c, cmd, m, n, p, ctx, canc, tr, e);
    }
    if j, e1 :| 0 <= j <= |tr| && TargetsMean(c, cmd, ctx, canc, tr[..j], e1)
                && AfterHosts(c, ctx, canc, tr, e, j, e1) {
      LastStepsMeant(c, cmd, m, n, p, ctx, canc, tr, e, j, e1);
    }
  }

  lemma LastStepsMean(c: Config, cmd: Command, m: nat, n: nat, p: nat, ctx: Context, canc: Cancellation, tr: Trace,
                      e: Option<Cause>)
    requires VisitCommand(cmd, m).Visited? && c.host.Some? != c.hostsFile.Some?
    requires VisitTargets(c, cmd, VisitCommand(cmd, m).node, n).Visited? && VisitLocal(c.post, p).Visited?
    requires Provides(ctx, JOB_KEYS) && !CutShort(ctx, canc, tr, e)
    requires AllEnd([VisitTargets(c, cmd, VisitCommand(cmd, m).node, n).node] + VisitLocal(c.post, p).node,
                    ctx, canc, tr, e)
    ensures HostsAndPost(c, cmd, ctx, canc, tr, e)
  {
    hide VisitCommand, VisitTargets, VisitLocal, TargetsMean, LocalMeans, Runs, SequentialRuns;
    var t, post := VisitTargets(c, cmd, VisitCommand(cmd, m).node, n).node, VisitLocal(c.post, p).node;
    var ts := [t] + post;
    assert ts[0] == t && ts[1..] == post;
    assert Has(ctx, OutputKey) && Has(ctx, LoggerKey);
    var r :| SequentialRuns(ts, ctx, canc, tr, r) && Verdict(r) == e;
    var j, r1 := FirstRun(ts, ctx, canc, tr, r);
    TargetsEnd(c, cmd, m, n, ctx, canc, tr[..j], r1);
    if r1.Returned? {
      LocalEnds(c.post, p, ctx, canc, tr[j..], r);
    }
    assert AfterHosts(c, ctx, canc, tr, e, j, Verdict(r1));
  }

  lemma LastStepsMeant(c: Config, cmd: Command, m: nat, n: nat, p: nat, ctx: Context, canc: Cancellation, tr: Trace,
                       e: Option<Cause>,
                       j: nat, e1: Option<Cause>)
    requires VisitCommand(cmd, m).Visited? && c.host.Some? != c.hostsFile.Some?
    requires VisitTargets(c, cmd, VisitCommand(cmd, m).node, n).Visited? && VisitLocal(c.post, p).Visited?
    requires Provides(ctx, JOB_KEYS) && j <= |tr|
    requires TargetsMean(c, cmd, ctx, canc, tr[..j], e1) && AfterHosts(c, ctx, canc, tr, e, j, e1)
    ensures AllEnd([VisitTargets(c, cmd, VisitCommand(cmd, m).node, n).node] + VisitLocal(c.post, p).node,
                   ctx, canc, tr, e)
  {
    hide VisitCommand, VisitTargets, VisitLocal, TargetsMean, LocalMeans, Runs, SequentialRuns;
    var t, post := VisitTargets(c, cmd, VisitCommand(cmd, m).node, n).node, VisitLocal(c.post, p).node;
    var ts := [t] + post;
    assert ts[0] == t && ts[1..] == post;
    assert Has(ctx, OutputKey) && Has(ctx, LoggerKey);
    TargetsEnd(c, cmd, m, n, ctx, canc, tr[..j], AsResult(e1));
    var r, rest := if e.Some? then Failed(e.value) else Returned(Some(ctx)), if e1.Some? then [] else tr[j..];
    if e1.None? {
      LocalEnds(c.post, p, ctx, canc, rest, r);
    }
    StepsJoin(ts, ctx, canc, tr[..j], AsResult(e1), rest, r);
    assert tr[..j] + rest == tr;
  }

  /** pre, the hosts and post. */
  lemma MainEnds(c: Config, cmd: Command, l: nat, m: nat, n: nat, p: nat, ctx: Context, canc: Cancellation, tr: Trace,
                 e: Option<Cause>)
    requires VisitLocal(c.pre, l).Visited? && VisitCommand(cmd, m).Visited? && c.host.Some? != c.hostsFile.Some?
    requires VisitTargets(c, cmd, VisitCommand(cmd, m).node, n).Visited? && VisitLocal(c.post, p).Visited?
    requires Provides(ctx, JOB_KEYS)
    ensures var last := [VisitTargets(c, cmd, VisitCommand(cmd, m).node, n).node] + VisitLocal(c.post, p).node;
            AllEnd(VisitLocal(c.pre, l).node + last, ctx, canc, tr, e) <==> MainMeans(c, cmd, ctx, canc, tr, e)
  {
    hide VisitCommand, VisitTargets, VisitLocal, TargetsMean, LocalMeans, SequentialRuns, AllEnd;
    var pre := VisitLocal(c.pre, l).node;
    var last := [VisitTargets(c, cmd, VisitCommand(cmd, m).node, n).node] + VisitLocal(c.post, p).node;
    if AllEnd(pre + last, ctx, canc, tr, e) {
      var k, r1 := PartsFound(pre, last, ctx, canc, tr, e);
      LocalEnds(c.pre, l, ctx, canc, tr[..k], r1);
      if r1.Returned? {
        LastStepsEnd(c, cmd, m, n, p, ctx, canc, tr[k..], e);
      }
      assert AfterPre(c, cmd, ctx, canc, tr, e, k, Verdict(r1));
    }
    if MainMeans(c, cmd, ctx, canc, tr, e) {
      var k, e1 :| 0 <= k <= |tr| && LocalMeans(c.pre, ctx, canc, tr[..k], e1)
                   && AfterPre(c, cmd, ctx, canc, tr, e, k, e1);
      var r1 := if e1.Some? then Failed(e1.value) else Returned(Some(ctx));
      LocalEnds(c.pre, l, ctx, canc, tr[..k], r1);
      if r1.Returned? {
        LastStepsEnd(c, cmd, m, n, p, ctx, canc, tr[k..], e);
      }
      PartsJoined(pre, last, ctx, canc, tr, e, k, r1);
    }
  }

  /**
   Compiler correctness for jobs: whatever is cancelled and whichever limits are up, the tree of a job can do tr
   and end with e if and only if that is something the job means.
   */
  lemma JobEnds(c: Config, canc: Cancellation, tr: Trace, e: Option<Cause>)
    requires VisitConfig(c).Visited?
    ensures c.command.Some?
    ensures Ends(VisitConfig(c).node, NOTHING, canc, tr, e) <==> JobMeans(c, c.command.value, canc, tr, e)
  {
    hide VisitCommand, VisitTargets, VisitLocal, SetUp, Plain, MainMeans, Acts, AllEnd, SequentialRuns;
    var (setUp, n1) := SetUp(c, 1).Extract();
    var (pre, n2) := VisitLocal(c.pre, n1).Extract();
    var cmd := c.command.value;
    var (t, n3) := VisitCommand(cmd, n2).Extract();
    var (targets, n4) := VisitTargets(c, cmd, t, n3).Extract();
    var (post, n5) := VisitLocal(c.post, n4).Extract();
    var main := pre + ([targets] + post);
    GroupEnds(VisitConfig(c).node, NOTHING, canc, tr, e);
    if AllEnd(setUp + main, NOTHING, canc, tr, e) {
      var k, r1 := PartsFound(setUp, main, NOTHING, canc, tr, e);
      SetUpActs(c, 1, canc, tr[..k], r1);
      if r1.Returned? {
        MainEnds(c, cmd, n1, n2, n3, n4, r1.ctx.value, canc, tr[k..], e);
      }
      assert AfterSetUp(c, cmd, canc, tr, e, k, r1);
    }
    if JobMeans(c, cmd, canc, tr, e) {
      var k, r1 :| 0 <= k <= |tr| && Acts(SetUpActions(c), NOTHING, canc, tr[..k], r1)
                   && AfterSetUp(c, cmd, canc, tr, e, k, r1);
      SetUpActs(c, 1, canc, tr[..k], r1);
      if r1.Returned? {
        MainEnds(c, cmd, n1, n2, n3, n4, r1.ctx.value, canc, tr[k..], e);
      }
      PartsJoined(setUp, main, NOTHING, canc, tr, e, k, r1);
    }
  }
}
