/**
 Time limits stay where they are set: a run ends early only if it is cancelled from outside or a limit set in
 it or around it is up.
 */
module JobLimits {
  import opened JobConfig
  import opened JobVisit
  import opened JobRuns

  /** No limit that is set in t is up in a run that lasts as long as canc says. */
  predicate Unlimited(t: Tree, canc: Cancellation)
    decreases t
  {
    match t
    case Leaf(_, a) => a.Timeout? ==> canc.lasts < a.d
    case Group(_, _, children) => forall c :: c in children ==> Unlimited(c, canc)
    case Safeguard(_, child) => Unlimited(child, canc)
    case Bounds(_, child) => Unlimited(child, canc)
    case Retry(_, child, _) => Unlimited(child, canc)
    case Probe(_, child, _) => Unlimited(child, canc)
  }

  /** The run was not cut short, and what follows it is not either. */
  ghost predicate RanThrough(r: Result, canc: Cancellation) {
    r != Failed(Cancelled) && (r.Returned? && r.ctx.Some? ==> !MayBeDone(r.ctx.value, canc))
  }

  /** Where nothing is cancelled from outside and no limit is up, nothing is cut short. */
  lemma {:induction false} RunsThrough(t: Tree, ctx: Context, canc: Cancellation, tr: Trace, r: Result)
    requires Unlimited(t, canc) && !MayBeDone(ctx, canc) && Runs(t, ctx, canc, tr, r)
    ensures RanThrough(r, canc)
    decreases t, 0
  {
    match t
    case Leaf(_, a) =>
    case Group(_, kind, children) =>
      if IsParallel(kind) {
        var bs: seq<Branch> :| BranchesRun(children, ctx, canc, bs) && Interleaves(tr, bs) && Joined(bs, false, r);
        BranchesRunThrough(children, ctx, canc, bs);
      } else {
        RunThroughInOrder(children, ctx, canc, tr, r);
      }
    case Safeguard(id, child) =>
      if ctx.logger.Some? {
        var r1 := GuardedRun(id, child, ctx, canc, tr, r);
        RunsThrough(child, ctx, canc, tr, r1);
      }
    case Bounds(id, child) =>
      var r1 := BoundedRun(id, child, ctx, canc, tr, r);
      RunsThrough(child, ctx, canc, tr, r1);
    case Retry(_, child, n) =>
      if ctx.logger.Some? {
        RetriesRunThrough(child, n, ctx, canc, tr, r);
      }
    case Probe(id, child, _) => RunsThrough(child, Watched(ctx, id), canc, tr[1..|tr| - 1], r);
  }

  lemma {:induction false} RunThroughInOrder(ts: seq<Tree>, ctx: Context, canc: Cancellation, tr: Trace, r: Result)
    requires (forall t :: t in ts ==> Unlimited(t, canc)) && !MayBeDone(ctx, canc)
    requires SequentialRuns(ts, ctx, canc, tr, r)
    ensures RanThrough(r, canc)
    decreases ts, 1
  {
    if ts != [] {
      var k, r1 := FirstRun(ts, ctx, canc, tr, r);
      RunsThrough(ts[0], ctx, canc, tr[..k], r1);
      if r1.Returned? {
        RunThroughInOrder(ts[1..], Passed(r1, ctx), canc, tr[k..], r);
      }
    }
  }

  lemma {:induction false} RetriesRunThrough(t: Tree, n: nat, ctx: Context, canc: Cancellation, tr: Trace, r: Result)
    requires Unlimited(t, canc) && !MayBeDone(ctx, canc) && RetryRuns(t, n, ctx, canc, tr, r)
    ensures RanThrough(r, canc)
    decreases t, 1, n
  {
    if n > 0 {
      var k, r1 := FirstAttempt(t, n, ctx, canc, tr, r);
      RunsThrough(t, ctx, canc, tr[..k], r1);
      if r1.Failed? && n > 1 {
        RetriesRunThrough(t, n - 1, ctx, canc, tr[k..], r);
      }
    }
  }

  lemma {:induction false} BranchesRunThrough(ts: seq<Tree>, ctx: Context, canc: Cancellation, bs: seq<Branch>)
    requires (forall t :: t in ts ==> Unlimited(t, canc)) && !MayBeDone(ctx, canc) && BranchesRun(ts, ctx, canc, bs)
    ensures forall b :: b in bs ==> b.r != Failed(Cancelled)
    decreases ts, 0
  {
    if ts != [] {
      RunsThrough(ts[0], ctx, canc, bs[0].full, bs[0].r);
      BranchesRunThrough(ts[1..], ctx, canc, bs[1..]);
    }
  }

  // ---- commands

  /** The time limit of a command or of one in it is up in a run that lasts as long as canc says. */
  predicate LimitUp(cmd: Command, canc: Cancellation)
    decreases cmd
  {
    || (cmd.timeout != "" && DURATION(cmd.timeout).Some? && DURATION(cmd.timeout).value <= canc.lasts)
    || exists c :: c in cmd.commands && LimitUp(c, canc)
  }

  lemma {:induction false} CommandUnlimited(cmd: Command, n: nat, canc: Cancellation)
    requires VisitCommand(cmd, n).Visited? && !LimitUp(cmd, canc)
    ensures Unlimited(VisitCommand(cmd, n).node, canc)
    decreases cmd, 1
  {
    var (opens, n1) := Redirect(cmd, n + 1).Extract();
    var (limits, n2) := Limit(cmd.timeout, n1).Extract();
    var (body, n3) := VisitBody(cmd, n2).Extract();
    if cmd.command == "" {
      var (children, _) := VisitAll(cmd.commands, n2 + 1).Extract();
      CommandsUnlimited(cmd.commands, n2 + 1, canc);
      assert Unlimited(body, canc);
    }
    assert Unlimited(Group(n + 1, CommandsGroup, opens + (limits + [body])), canc);
  }

  lemma {:induction false} CommandsUnlimited(cmds: seq<Command>, n: nat, canc: Cancellation)
    requires VisitAll(cmds, n).Visited? && forall c :: c in cmds ==> !LimitUp(c, canc)
    ensures forall t :: t in VisitAll(cmds, n).node ==> Unlimited(t, canc)
    decreases cmds
  {
    if cmds != [] {
      var (_, n1) := VisitCommand(cmds[0], n).Extract();
      CommandUnlimited(cmds[0], n, canc);
      CommandsUnlimited(cmds[1..], n1, canc);
    }
  }

  /** A command is cut short only if the scope around it may be done, or a limit set in it is up. */
  lemma CutShortByItsLimits(cmd: Command, n: nat, ctx: Context, canc: Cancellation, tr: Trace)
    requires VisitCommand(cmd, n).Visited? && Runs(VisitCommand(cmd, n).node, ctx, canc, tr, Failed(Cancelled))
    ensures MayBeDone(ctx, canc) || LimitUp(cmd, canc)
  {
    if !MayBeDone(ctx, canc) && !LimitUp(cmd, canc) {
      CommandUnlimited(cmd, n, canc);
      RunsThrough(VisitCommand(cmd, n).node, ctx, canc, tr, Failed(Cancelled));
    }
  }

  /** A command made local sets no limit at any depth. */
  lemma {:induction false} LocalizedHasNoLimit(cmd: Command, canc: Cancellation)
    ensures !LimitUp(Localized(cmd), canc)
    decreases cmd, 1
  {
    LocalizedListsHaveNoLimit(cmd.commands, canc);
  }

  lemma {:induction false} LocalizedListsHaveNoLimit(cmds: seq<Command>, canc: Cancellation)
    ensures forall c :: c in LocalizedAll(cmds) ==> !LimitUp(c, canc)
    decreases cmds, 0
  {
    if cmds != [] {
      LocalizedHasNoLimit(cmds[0], canc);
      LocalizedListsHaveNoLimit(cmds[1..], canc);
    }
  }

  /** Some command in it sets a time limit. */
  predicate SetsLimit(cmd: Command)
    decreases cmd
  {
    (cmd.timeout != "" && DURATION(cmd.timeout).Some?) || exists c :: c in cmd.commands && SetsLimit(c)
  }

  /** A limit that is set is up in a run that lasts long enough, and no other is. */
  lemma {:induction false} LimitIsUpOnce(cmd: Command) returns (canc: Cancellation)
    ensures LimitUp(cmd, canc) <==> SetsLimit(cmd)
    decreases cmd
  {
    if cmd.timeout != "" && DURATION(cmd.timeout).Some? {
      var d := DURATION(cmd.timeout).value;
      canc := Cancellation(false, if d < 0 then 0 else d);
    } else if c :| c in cmd.commands && SetsLimit(c) {
      canc := LimitIsUpOnce(c);
    } else {
      canc := Cancellation(false, 0);
      NoLimitSet(cmd, canc);
    }
  }

  lemma {:induction false} NoLimitSet(cmd: Command, canc: Cancellation)
    requires !SetsLimit(cmd)
    ensures !LimitUp(cmd, canc)
    decreases cmd
  {
    forall c | c in cmd.commands ensures !LimitUp(c, canc) {
      NoLimitSet(c, canc);
    }
  }

  /** Made local, a command keeps its time limits exactly if there are none in it. */
  lemma LimitsKeptExactlyIf(cmd: Command)
    ensures (forall canc :: LimitUp(Localized(cmd), canc) <==> LimitUp(cmd, canc)) <==> !SetsLimit(cmd)
  {
    hide LimitUp, SetsLimit, Localized;
    forall canc ensures !LimitUp(Localized(cmd), canc) {
      LocalizedHasNoLimit(cmd, canc);
    }
    if SetsLimit(cmd) {
      var canc := LimitIsUpOnce(cmd);
      assert !LimitUp(Localized(cmd), canc);
    } else {
      forall canc ensures !LimitUp(cmd, canc) {
        NoLimitSet(cmd, canc);
      }
    }
  }
}
