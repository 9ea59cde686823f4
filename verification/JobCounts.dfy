/**
 How often a step can run: at most as often as the retries on its path allow.
 */
module JobCounts {
  import opened Options
  import opened JobConfig
  import opened JobVisit
  import opened JobRuns
  import opened JobMeaning

  /** What is counted: steps that are taken, or events that are logged. */
  datatype What = Taking(a: Action) | Logging(id: nat)

  predicate Is(e: Event, what: What) {
    match what
    case Taking(a) => e.Did? && e.a == a
    case Logging(id) => e.Note? && e.id == id
  }

  function Count(tr: Trace, what: What): nat {
    if tr == [] then 0 else (if Is(tr[0], what) then 1 else 0) + Count(tr[1..], what)
  }

  /** A bound for the count in every run of t. */
  function Most(t: Tree, what: What): nat
    decreases t
  {
    match t
    case Leaf(_, a) => if what == Taking(a) then 1 else 0
    case Group(_, _, children) => MostAll(children, what)
    case Safeguard(_, child) => Most(child, what)
    case Bounds(_, child) => Most(child, what)
    case Retry(_, child, n) => n * Most(child, what)
    case Probe(id, child, _) => (if what == Logging(id) then 2 else 0) + Most(child, what)
  }

  function MostAll(ts: seq<Tree>, what: What): nat
    decreases ts
  {
    if ts == [] then 0 else Most(ts[0], what) + MostAll(ts[1..], what)
  }

  lemma {:induction false} CountConcat(a: Trace, b: Trace, what: What)
    ensures Count(a + b, what) == Count(a, what) + Count(b, what)
    decreases |a|
  {
    if a == [] {
      assert a + b == b;
    } else {
      assert (a + b)[1..] == a[1..] + b;
      CountConcat(a[1..], b, what);
    }
  }

  lemma CountCut(tr: Trace, k: nat, what: What)
    requires k <= |tr|
    ensures Count(tr, what) == Count(tr[..k], what) + Count(tr[k..], what)
  {
    CountConcat(tr[..k], tr[k..], what);
    assert tr == tr[..k] + tr[k..];
  }

  lemma CountInner(tr: Trace, what: What)
    requires |tr| >= 2
    ensures var own := (if Is(tr[0], what) then 1 else 0) + (if Is(tr[|tr| - 1], what) then 1 else 0);
            Count(tr, what) == own + Count(tr[1..|tr| - 1], what)
  {
    var inner, last := tr[1..|tr| - 1], [tr[|tr| - 1]];
    assert tr[1..] == inner + last && last[1..] == [];
    CountConcat(inner, last, what);
  }

  lemma {:induction false} CountShuffle(tr: Trace, a: Trace, b: Trace, what: What)
    requires Shuffle(tr, a, b)
    ensures Count(tr, what) == Count(a, what) + Count(b, what)
    decreases |tr|
  {
    if tr != [] {
      if a != [] && a[0] == tr[0] && Shuffle(tr[1..], a[1..], b) {
        CountShuffle(tr[1..], a[1..], b, what);
      } else {
        CountShuffle(tr[1..], a, b[1..], what);
      }
    }
  }

  lemma {:induction false} AtMost(t: Tree, ctx: Context, canc: Cancellation, tr: Trace, r: Result, what: What)
    requires Runs(t, ctx, canc, tr, r)
    ensures Count(tr, what) <= Most(t, what)
    decreases t, 0
  {
    match t
    case Leaf(_, a) => assert tr[1..] == [];
    case Group(_, kind, children) =>
      if !IsParallel(kind) {
        AtMostInOrder(children, ctx, canc, tr, r, what);
      } else if !(MayBeDone(ctx, canc) && tr == [] && r == Returned(None)) {
        var bs: seq<Branch> :| BranchesRun(children, ctx, canc, bs) && Interleaves(tr, bs)
                               && Joined(bs, MayBeDone(ctx, canc), r);
        AtMostInParallel(children, ctx, canc, bs, tr, what);
      }
    case Safeguard(id, child) =>
      if ctx.logger.Some? {
        var r1 := GuardedRun(id, child, ctx, canc, tr, r);
        AtMost(child, ctx, canc, tr, r1, what);
      } else {
        assert tr[1..] == [];
      }
    case Bounds(id, child) =>
      var r1 := BoundedRun(id, child, ctx, canc, tr, r);
      AtMost(child, ctx, canc, tr, r1, what);
    case Retry(_, child, n) =>
      if ctx.logger.Some? {
        AtMostRetried(child, n, ctx, canc, tr, r, what);
      } else {
        assert tr[1..] == [];
      }
    case Probe(id, child, at) =>
      var inner := tr[1..|tr| - 1];
      AtMost(child, Watched(ctx, id), canc, inner, r, what);
      CountInner(tr, what);
  }

  lemma {:induction false} AtMostInOrder(ts: seq<Tree>, ctx: Context, canc: Cancellation, tr: Trace, r: Result,
                                         what: What)
    requires SequentialRuns(ts, ctx, canc, tr, r)
    ensures Count(tr, what) <= MostAll(ts, what)
    decreases ts, 1
  {
    if ts != [] && !(MayBeDone(ctx, canc) && tr == [] && r == Failed(Cancelled)) {
      var k, r1 := FirstRun(ts, ctx, canc, tr, r);
      AtMost(ts[0], ctx, canc, tr[..k], r1, what);
      CountCut(tr, k, what);
      if r1.Returned? {
        AtMostInOrder(ts[1..], Passed(r1, ctx), canc, tr[k..], r, what);
      }
    }
  }

  lemma {:induction false} AtMostInParallel(ts: seq<Tree>, ctx: Context, canc: Cancellation, bs: seq<Branch>,
                                            tr: Trace, what: What)
    requires BranchesRun(ts, ctx, canc, bs) && Interleaves(tr, bs)
    ensures Count(tr, what) <= MostAll(ts, what)
    decreases ts, 1
  {
    if ts != [] {
      var b := bs[0];
      var rest :| Interleaves(rest, bs[1..]) && Shuffle(tr, b.part, rest);
      CountShuffle(tr, b.part, rest, what);
      AtMost(ts[0], ctx, canc, b.full, b.r, what);
      CountCut(b.full, |b.part|, what);
      assert b.full[..|b.part|] == b.part;
      AtMostInParallel(ts[1..], ctx, canc, bs[1..], rest, what);
    }
  }

  lemma OneLess(n: nat, x: nat)
    requires n > 0
    ensures n * x == x + (n - 1) * x && 0 <= (n - 1) * x
  {
  }

  lemma {:induction false} AtMostRetried(t: Tree, n: nat, ctx: Context, canc: Cancellation, tr: Trace, r: Result,
                                         what: What)
    requires RetryRuns(t, n, ctx, canc, tr, r)
    ensures Count(tr, what) <= n * Most(t, what)
    decreases t, 1, n
  {
    if n > 0 {
      var k, r1 := FirstAttempt(t, n, ctx, canc, tr, r);
      AtMost(t, ctx, canc, tr[..k], r1, what);
      CountCut(tr, k, what);
      OneLess(n, Most(t, what));
      if r1.Failed? && n > 1 {
        AtMostRetried(t, n - 1, ctx, canc, tr[k..], r, what);
      }
    }
  }

  // ---- commands

  function Attempts(cmd: Command): nat {
    if cmd.retries > 1 then cmd.retries else 1
  }

  /** How often the steps of a list contain a. */
  function Times(steps: seq<Action>, a: Action): nat {
    if steps == [] then 0 else (if steps[0] == a then 1 else 0) + Times(steps[1..], a)
  }

  /** Over all places where a command takes a step, the product of the attempts on the path to it. */
  function MostOf(cmd: Command, a: Action): nat
    decreases cmd
  {
    Attempts(cmd) * (Times(Preparations(cmd), a) +
                     if cmd.command != "" then Times([CommandStep(cmd)], a) else MostOfAll(cmd.commands, a))
  }

  function MostOfAll(cmds: seq<Command>, a: Action): nat
    decreases cmds
  {
    if cmds == [] then 0 else MostOf(cmds[0], a) + MostOfAll(cmds[1..], a)
  }

  lemma {:induction false} MostConcat(ts: seq<Tree>, us: seq<Tree>, what: What)
    ensures MostAll(ts + us, what) == MostAll(ts, what) + MostAll(us, what)
    decreases |ts|
  {
    if ts == [] {
      assert ts + us == us;
    } else {
      assert (ts + us)[1..] == ts[1..] + us;
      MostConcat(ts[1..], us, what);
    }
  }

  lemma {:induction false} MostOfSteps(leaves: seq<Tree>, steps: seq<Action>, a: Action)
    requires |leaves| == |steps| && forall i :: 0 <= i < |steps| ==> leaves[i].Leaf? && leaves[i].action == steps[i]
    ensures MostAll(leaves, Taking(a)) == Times(steps, a)
    decreases |steps|
  {
    if steps != [] {
      MostOfSteps(leaves[1..], steps[1..], a);
    }
  }

  lemma {:induction false} MostOfCommand(cmd: Command, n: nat, a: Action)
    requires VisitCommand(cmd, n).Visited?
    ensures Most(VisitCommand(cmd, n).node, Taking(a)) == MostOf(cmd, a)
    decreases cmd, 1
  {
    hide VisitBody, Redirect, Limit, Plain, AllPlain, Times, Preparations, Most, MostAll;
    var (opens, n1) := Redirect(cmd, n + 1).Extract();
    var (limits, n2) := Limit(cmd.timeout, n1).Extract();
    var (body, n3) := VisitBody(cmd, n2).Extract();
    var group := Group(n + 1, CommandsGroup, opens + (limits + [body]));
    if cmd.command == "" {
      BodyOfCommands(cmd, n2);
      MostOfCommands(cmd.commands, n2 + 1, a);
    }
    MostOfBody(cmd, body, n2, a);
    MostOfGroup(cmd, n, n1, opens, limits, body, a);
    MostOfWrapped(cmd, group, n3, Taking(a));
  }

  lemma BodyOfCommands(cmd: Command, n: nat)
    requires VisitBody(cmd, n).Visited? && cmd.command == ""
    ensures VisitAll(cmd.commands, n + 1).Visited?
  {
  }

  lemma MostOfGroup(cmd: Command, n: nat, n1: nat, opens: seq<Tree>, limits: seq<Tree>, body: Tree, a: Action)
    requires Redirect(cmd, n + 1) == Visited(opens, n1)
    requires Limit(cmd.timeout, n1).Visited? && limits == Limit(cmd.timeout, n1).node
    ensures Most(Group(n + 1, CommandsGroup, opens + (limits + [body])), Taking(a)) ==
            Times(Preparations(cmd), a) + MostAll([body], Taking(a))
  {
    MostOfSteps(opens + limits, Preparations(cmd), a);
    MostConcat(opens + limits, [body], Taking(a));
    assert opens + limits + [body] == opens + (limits + [body]);
  }

  lemma MostOfBody(cmd: Command, body: Tree, n: nat, a: Action)
    requires VisitBody(cmd, n).Visited? && body == VisitBody(cmd, n).node
    requires cmd.command == "" ==> MostAll(VisitAll(cmd.commands, n + 1).node, Taking(a)) == MostOfAll(cmd.commands, a)
    ensures MostAll([body], Taking(a)) ==
            if cmd.command != "" then Times([CommandStep(cmd)], a) else MostOfAll(cmd.commands, a)
  {
    assert MostAll([body], Taking(a)) == Most(body, Taking(a)) + MostAll([], Taking(a));
    assert [CommandStep(cmd)][1..] == [];
  }

  lemma MostOfWrapped(cmd: Command, t: Tree, n: nat, what: What)
    ensures Most(Wrapped(cmd, t, n).node, what) == Attempts(cmd) * Most(t, what)
  {
    hide Most;
    var bounds := Bounds(n + 1, t);
    var retry := Retry(n + 2, bounds, cmd.retries);
    var w := Wrapped(cmd, t, n).node;
    MostInside(bounds, what);
    MostRetried(retry, what);
    if w.Safeguard? {
      MostInside(w, what);
    }
  }

  lemma MostInside(t: Tree, what: What)
    requires t.Bounds? || t.Safeguard?
    ensures Most(t, what) == Most(t.child, what)
  {
  }

  lemma MostRetried(t: Tree, what: What)
    requires t.Retry?
    ensures Most(t, what) == t.retries * Most(t.child, what)
  {
  }

  lemma {:induction false} MostOfCommands(cmds: seq<Command>, n: nat, a: Action)
    requires VisitAll(cmds, n).Visited?
    ensures MostAll(VisitAll(cmds, n).node, Taking(a)) == MostOfAll(cmds, a)
    decreases cmds
  {
    if cmds != [] {
      MostOfCommand(cmds[0], n, a);
      MostOfCommands(cmds[1..], VisitCommand(cmds[0], n).next, a);
      var ts := VisitAll(cmds, n).node;
      assert ts[1..] == VisitAll(cmds[1..], VisitCommand(cmds[0], n).next).node;
    }
  }

  /** In no run does a command take a step more often than its places and the attempts on their paths allow. */
  lemma StepsAreBounded(cmd: Command, n: nat, ctx: Context, canc: Cancellation, tr: Trace, r: Result, a: Action)
    requires VisitCommand(cmd, n).Visited? && Runs(VisitCommand(cmd, n).node, ctx, canc, tr, r)
    ensures Count(tr, Taking(a)) <= MostOf(cmd, a)
  {
    AtMost(VisitCommand(cmd, n).node, ctx, canc, tr, r, Taking(a));
    MostOfCommand(cmd, n, a);
  }

  // ---- a command that always fails

  /** An attempt in which all steps succeed but the command itself. */
  function FailedAttempt(cmd: Command, steps: seq<Action>, ctx: Context): Trace {
    if steps == [] then [Did(CommandStep(cmd), ctx, false)]
    else [Did(steps[0], ctx, true)] + FailedAttempt(cmd, steps[1..], Scoped(steps[0], ctx))
  }

  lemma {:induction false} AttemptCanFail(cmd: Command, steps: seq<Action>, ctx: Context, canc: Cancellation)
    requires cmd.command != "" && CommandStep(cmd) !in steps
    ensures var tr := FailedAttempt(cmd, steps, ctx);
            && Prepares(cmd, steps, ctx, canc, tr, Some(StepFailed(CommandStep(cmd))))
            && Count(tr, Taking(CommandStep(cmd))) == 1
    decreases |steps|
  {
    var tr := FailedAttempt(cmd, steps, ctx);
    if steps == [] {
      assert tr[1..] == [];
    } else {
      AttemptCanFail(cmd, steps[1..], Scoped(steps[0], ctx), canc);
      assert tr[1..] == FailedAttempt(cmd, steps[1..], Scoped(steps[0], ctx));
    }
  }

  function FailedAttempts(cmd: Command, n: nat, ctx: Context): Trace {
    if n == 0 then [] else FailedAttempt(cmd, Preparations(cmd), ctx) + FailedAttempts(cmd, n - 1, ctx)
  }

  lemma {:induction false} AllAttemptsCanFail(cmd: Command, n: nat, ctx: Context, canc: Cancellation)
    requires cmd.command != "" && n > 0
    ensures var tr := FailedAttempts(cmd, n, ctx);
            && Tries(cmd, n, ctx, canc, tr, Some(StepFailed(CommandStep(cmd))))
            && Count(tr, Taking(CommandStep(cmd))) == n
    decreases n
  {
    hide Prepares, Preparations, FailedAttempt, Count;
    var e := Some(StepFailed(CommandStep(cmd)));
    var first, rest := FailedAttempt(cmd, Preparations(cmd), ctx), FailedAttempts(cmd, n - 1, ctx);
    var tr, k := FailedAttempts(cmd, n, ctx), |first|;
    NotAPreparation(cmd);
    AttemptCanFail(cmd, Preparations(cmd), ctx, canc);
    CountConcat(first, rest, Taking(CommandStep(cmd)));
    assert tr == first + rest && tr[..k] == first && tr[k..] == rest;
    if n > 1 {
      AllAttemptsCanFail(cmd, n - 1, ctx, canc);
    } else {
      assert Count(rest, Taking(CommandStep(cmd))) == 0 by { CountNothing(Taking(CommandStep(cmd))); }
    }
    assert OtherTries(cmd, n, ctx, canc, tr, e, k, e);
  }

  lemma CountNothing(what: What)
    ensures Count([], what) == 0
  {
  }

  lemma NotAPreparation(cmd: Command)
    ensures CommandStep(cmd) !in Preparations(cmd)
    ensures Times(Preparations(cmd), CommandStep(cmd)) == 0
  {
    NotCounted(Preparations(cmd), CommandStep(cmd));
  }

  lemma {:induction false} NotCounted(steps: seq<Action>, a: Action)
    requires a !in steps
    ensures Times(steps, a) == 0
    decreases |steps|
  {
    if steps != [] {
      NotCounted(steps[1..], a);
    }
  }

  /** A command can fail in every attempt: then it is taken as often as it can be at most. */
  lemma CanFailEachTime(cmd: Command, n: nat, ctx: Context, canc: Cancellation) returns (tr: Trace, r: Result)
    requires VisitCommand(cmd, n).Visited? && cmd.command != "" && Equipped(ctx, cmd)
    ensures Runs(VisitCommand(cmd, n).node, ctx, canc, tr, r)
    ensures Count(tr, Taking(CommandStep(cmd))) == Attempts(cmd) == MostOf(cmd, CommandStep(cmd))
  {
    hide Tries, Ends, Preparations, Count, Times, VisitCommand;
    tr := FailedAttempts(cmd, Attempts(cmd), ctx);
    AllAttemptsCanFail(cmd, Attempts(cmd), ctx, canc);
    var e := if cmd.ignoreError then None else Some(StepFailed(CommandStep(cmd)));
    FailureIsMeant(cmd, ctx, canc, tr);
    CommandMeans(cmd, n, ctx, canc, tr, e);
    r := RunThatEnds(VisitCommand(cmd, n).node, ctx, canc, tr, e);
    NotAPreparation(cmd);
    TakenOnce(cmd);
  }

  /** A command that ignores its errors ends without the error of its last attempt. */
  lemma FailureIsMeant(cmd: Command, ctx: Context, canc: Cancellation, tr: Trace)
    requires Tries(cmd, Attempts(cmd), ctx, canc, tr, Some(StepFailed(CommandStep(cmd))))
    ensures Means(cmd, ctx, canc, tr, if cmd.ignoreError then None else Some(StepFailed(CommandStep(cmd))))
  {
  }

  lemma TakenOnce(cmd: Command)
    ensures Times([CommandStep(cmd)], CommandStep(cmd)) == 1
  {
    assert [CommandStep(cmd)][1..] == [];
  }

  lemma RunThatEnds(t: Tree, ctx: Context, canc: Cancellation, tr: Trace, e: Option<Cause>) returns (r: Result)
    requires Ends(t, ctx, canc, tr, e)
    ensures Runs(t, ctx, canc, tr, r)
  {
    r :| Runs(t, ctx, canc, tr, r) && Verdict(r) == e;
  }

  /** A command that fails can be taken once and then as often as its retries say exactly if they say never. */
  lemma RetriedAsSaidExactlyIf(cmd: Command, n: nat, ctx: Context, canc: Cancellation)
    requires VisitCommand(cmd, n).Visited? && cmd.command != "" && Equipped(ctx, cmd)
    ensures (exists tr, r :: Runs(VisitCommand(cmd, n).node, ctx, canc, tr, r)
                             && Count(tr, Taking(CommandStep(cmd))) == 1 + cmd.retries) <==>
            cmd.retries == 0
  {
    hide VisitCommand, Runs, Count, MostOf;
    var t, a := VisitCommand(cmd, n).node, CommandStep(cmd);
    var tr0, r0 := CanFailEachTime(cmd, n, ctx, canc);
    forall tr, r | Runs(t, ctx, canc, tr, r) ensures Count(tr, Taking(a)) <= Attempts(cmd) {
      StepsAreBounded(cmd, n, ctx, canc, tr, r, a);
    }
  }
}
