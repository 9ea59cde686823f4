/**
 What a command means, said directly: an interpreter that knows scopes and no context passing. A tree made
 from a command can do just what the interpreter can.
 */
module JobMeaning {
  import opened Options
  import opened JobConfig
  import opened JobVisit
  import opened JobRuns
  import opened JobSafety

  // ---- the interpreter

  /** The files opened for a command, and its time limit. */
  function Preparations(cmd: Command): seq<Action> {
    Redirections(cmd) + Limitation(cmd)
  }

  /** With one file for both streams, stdout is opened twice and stderr stays where it was. */
  function Redirections(cmd: Command): seq<Action> {
    match (cmd.stdout, cmd.stderr)
    case (None, None) => []
    case (Some(out), None) => [Stdout(out)]
    case (None, Some(err)) => [Stderr(err)]
    case (Some(out), Some(err)) => [Stdout(out), if err.file == out.file then Stdout(out) else Stderr(err)]
  }

  function Limitation(cmd: Command): seq<Action> {
    match DURATION(cmd.timeout)
    case Some(d) => if cmd.timeout != "" then [Timeout(d)] else []
    case None => []
  }

  function CommandStep(cmd: Command): Action {
    if cmd.target == "local" then Local(cmd.command) else Remote(cmd.command)
  }

  /** The scope in which a redirection or a time limit leaves the rest of its command; limits only get tighter. */
  function Scoped(a: Action, ctx: Context): Context {
    match a
    case Stdout(o) => ctx.(stdout := Some(o))
    case Stderr(o) => ctx.(stderr := Some(o))
    case Timeout(d) => ctx.(limit := Tightened(ctx.limit, d))
    case _ => ctx
  }

  /** e is the error that is left, if any. */
  ghost predicate Means(cmd: Command, ctx: Context, canc: Cancellation, tr: Trace, e: Option<Cause>)
    decreases cmd, 5
  {
    var attempts := if cmd.retries > 1 then cmd.retries else 1;
    if cmd.ignoreError then e == None && exists e1 :: Tries(cmd, attempts, ctx, canc, tr, e1)
    else Tries(cmd, attempts, ctx, canc, tr, e)
  }

  /** n attempts at most, up to the first that succeeds. */
  ghost predicate Tries(cmd: Command, n: nat, ctx: Context, canc: Cancellation, tr: Trace, e: Option<Cause>)
    requires n > 0
    decreases cmd, 4, n, 1
  {
    exists k, e1 :: 0 <= k <= |tr| && Prepares(cmd, Preparations(cmd), ctx, canc, tr[..k], e1)
                      && OtherTries(cmd, n, ctx, canc, tr, e, k, e1)
  }

  ghost predicate OtherTries(cmd: Command, n: nat, ctx: Context, canc: Cancellation, tr: Trace, e: Option<Cause>,
                             k: nat, e1: Option<Cause>)
    requires n > 0 && k <= |tr|
    decreases cmd, 4, n, 0
  {
    if e1.Some? && n > 1 then Tries(cmd, n - 1, ctx, canc, tr[k..], e) else k == |tr| && e == e1
  }

  ghost predicate Prepares(cmd: Command, steps: seq<Action>, ctx: Context, canc: Cancellation, tr: Trace,
                           e: Option<Cause>)
    decreases cmd, 2, |steps|
  {
    || (MayBeDone(ctx, canc) && tr == [] && e == Some(Cancelled))
    || if steps == [] then Does(cmd, ctx, canc, tr, e)
       else
         var a := steps[0];
         || (CanFail(a, ctx) && tr == [Did(a, ctx, false)] && e == Some(StepFailed(a)))
         || (tr != [] && tr[0] == Did(a, ctx, true) && Prepares(cmd, steps[1..], Scoped(a, ctx), canc, tr[1..], e))
  }

  /** The command itself. */
  ghost predicate Does(cmd: Command, ctx: Context, canc: Cancellation, tr: Trace, e: Option<Cause>)
    decreases cmd, 1
  {
    if cmd.command != "" then
      var a := CommandStep(cmd);
      (tr == [Did(a, ctx, true)] && e == None) || (tr == [Did(a, ctx, false)] && e == Some(StepFailed(a)))
    else if cmd.flow == "sequential" then InOrder(cmd.commands, ctx, canc, tr, e)
    else AllAtOnce(cmd.commands, ctx, canc, tr, e)
  }

  /** One after the other, up to the first that fails. */
  ghost predicate InOrder(cmds: seq<Command>, ctx: Context, canc: Cancellation, tr: Trace, e: Option<Cause>)
    decreases cmds, 1
  {
    if cmds == [] then tr == [] && e == None
    else
      || (MayBeDone(ctx, canc) && tr == [] && e == Some(Cancelled))
      || exists k, e1 :: 0 <= k <= |tr| && Means(cmds[0], ctx, canc, tr[..k], e1)
                         && OthersInOrder(cmds, ctx, canc, tr, e, k, e1)
  }

  ghost predicate OthersInOrder(cmds: seq<Command>, ctx: Context, canc: Cancellation, tr: Trace, e: Option<Cause>,
                                k: nat, e1: Option<Cause>)
    requires cmds != [] && k <= |tr|
    decreases cmds, 0
  {
    if e1.Some? then k == |tr| && e == e1 else InOrder(cmds[1..], ctx, canc, tr[k..], e)
  }

  function AsResult(e: Option<Cause>): Result {
    if e.Some? then Failed(e.value) else Returned(None)
  }

  /** All at the same time; see JobRuns for what becomes of the others when one fails. */
  ghost predicate AllAtOnce(cmds: seq<Command>, ctx: Context, canc: Cancellation, tr: Trace, e: Option<Cause>)
    decreases cmds, 1
  {
    || (MayBeDone(ctx, canc) && tr == [] && e == None)
    || exists bs :: BranchesMean(cmds, ctx, canc, bs) && Interleaves(tr, bs)
                    && Joined(bs, MayBeDone(ctx, canc), AsResult(e))
  }

  ghost predicate BranchesMean(cmds: seq<Command>, ctx: Context, canc: Cancellation, bs: seq<Branch>)
    decreases cmds, 0
  {
    if cmds == [] then bs == []
    else
      && bs != [] && bs[0].r == AsResult(Verdict(bs[0].r)) && Means(cmds[0], ctx, canc, bs[0].full, Verdict(bs[0].r))
      && bs[0].part <= bs[0].full
      && BranchesMean(cmds[1..], ctx, canc, bs[1..])
  }

  // ---- trees, without the contexts they return

  function Verdict(r: Result): Option<Cause> {
    if r.Failed? then Some(r.cause) else None
  }

  ghost predicate Ends(t: Tree, ctx: Context, canc: Cancellation, tr: Trace, e: Option<Cause>) {
    exists r :: Runs(t, ctx, canc, tr, r) && Verdict(r) == e
  }

  ghost predicate AllEnd(ts: seq<Tree>, ctx: Context, canc: Cancellation, tr: Trace, e: Option<Cause>) {
    exists r :: SequentialRuns(ts, ctx, canc, tr, r) && Verdict(r) == e
  }

  /** A tree from a command hands no context on. */
  lemma CommandHandsNothingOn(cmd: Command, n: nat, ctx: Context, canc: Cancellation, tr: Trace, r: Result)
    requires VisitCommand(cmd, n).Visited? && Runs(VisitCommand(cmd, n).node, ctx, canc, tr, r)
    ensures r == AsResult(Verdict(r))
  {
    hide VisitBody, Limit, Redirect, SequentialRuns;
    HandsNothingOn(VisitCommand(cmd, n).node, ctx, canc, tr, r);
  }

  /** Bounds hands nothing on, and neither does what Wrapped puts around it. */
  lemma {:induction false} HandsNothingOn(t: Tree, ctx: Context, canc: Cancellation, tr: Trace, r: Result)
    requires match t
             case Bounds(_, _) => true
             case Retry(_, child, _) => child.Bounds?
             case Safeguard(_, child) => child.Bounds? || (child.Retry? && child.child.Bounds?)
             case _ => false
    requires Runs(t, ctx, canc, tr, r)
    ensures r == AsResult(Verdict(r))
    decreases t
  {
    if t.Safeguard? && ctx.logger.Some? {
      var r1 := GuardedRun(t.id, t.child, ctx, canc, tr, r);
      HandsNothingOn(t.child, ctx, canc, tr, r1);
    } else if t.Retry? && ctx.logger.Some? {
      RetryHandsNothingOn(t.child, t.retries, ctx, canc, tr, r);
    }
  }

  lemma {:induction false} RetryHandsNothingOn(t: Tree, n: nat, ctx: Context, canc: Cancellation, tr: Trace, r: Result)
    requires t.Bounds? && RetryRuns(t, n, ctx, canc, tr, r)
    ensures r == AsResult(Verdict(r))
    decreases n
  {
    if n > 0 {
      var k, r1 := FirstAttempt(t, n, ctx, canc, tr, r);
      if r1.Failed? && n > 1 {
        RetryHandsNothingOn(t, n - 1, ctx, canc, tr[k..], r);
      }
    }
  }

  // ---- the tree of a command does what the command means

  predicate Equipped(ctx: Context, cmd: Command) {
    Provides(ctx, CommandKeys(cmd))
  }

  /** A step that finds what it needs, before other steps. */
  lemma StepThen(id: nat, a: Action, rest: seq<Tree>, ctx: Context, canc: Cancellation, tr: Trace, e: Option<Cause>)
    requires FirstLack(Needs(a, ctx.output.Some?), ctx) == None
    ensures AllEnd([Leaf(id, a)] + rest, ctx, canc, tr, e) <==>
            || (MayBeDone(ctx, canc) && tr == [] && e == Some(Cancelled))
            || (CanFail(a, ctx) && tr == [Did(a, ctx, false)] && e == Some(StepFailed(a)))
            || (tr != [] && tr[0] == Did(a, ctx, true) &&
                AllEnd(rest, Passed(Returned(ContextAfter(a, ctx)), ctx), canc, tr[1..], e))
  {
    var ts := [Leaf(id, a)] + rest;
    assert ts[1..] == rest;
    if AllEnd(ts, ctx, canc, tr, e) {
      var r :| SequentialRuns(ts, ctx, canc, tr, r) && Verdict(r) == e;
      if !(MayBeDone(ctx, canc) && tr == [] && r == Failed(Cancelled)) {
        var k, r1 := FirstRun(ts, ctx, canc, tr, r);
        assert k == 1 && tr[0] == tr[..k][0];
        assert r1.Failed? ==> tr == tr[..k];
      }
    }
    if MayBeDone(ctx, canc) && tr == [] && e == Some(Cancelled) {
      assert SequentialRuns(ts, ctx, canc, tr, Failed(Cancelled));
    }
    if CanFail(a, ctx) && tr == [Did(a, ctx, false)] && e == Some(StepFailed(a)) {
      assert tr[..1] == tr && GoesOn(ts, ctx, canc, tr, Failed(StepFailed(a)), 1, Failed(StepFailed(a)));
      assert SequentialRuns(ts, ctx, canc, tr, Failed(StepFailed(a)));
    }
    if tr != [] && tr[0] == Did(a, ctx, true) {
      var ctx' := ContextAfter(a, ctx);
      assert tr[..1] == [Did(a, ctx, true)] && Runs(ts[0], ctx, canc, tr[..1], Returned(ctx'));
      if AllEnd(rest, Passed(Returned(ctx'), ctx), canc, tr[1..], e) {
        var r :| SequentialRuns(rest, Passed(Returned(ctx'), ctx), canc, tr[1..], r) && Verdict(r) == e;
        assert GoesOn(ts, ctx, canc, tr, r, 1, Returned(ctx'));
        assert SequentialRuns(ts, ctx, canc, tr, r);
      }
    }
  }

  lemma LastStep(t: Tree, ctx: Context, canc: Cancellation, tr: Trace, e: Option<Cause>)
    ensures AllEnd([t], ctx, canc, tr, e) <==>
            (MayBeDone(ctx, canc) && tr == [] && e == Some(Cancelled)) || Ends(t, ctx, canc, tr, e)
  {
    assert [t][1..] == [] && tr[..|tr|] == tr && tr[|tr|..] == [];
    if AllEnd([t], ctx, canc, tr, e) {
      var r :| SequentialRuns([t], ctx, canc, tr, r) && Verdict(r) == e;
      if !(MayBeDone(ctx, canc) && tr == [] && r == Failed(Cancelled)) {
        var k, r1 := FirstRun([t], ctx, canc, tr, r);
        assert k == |tr|;
      }
    }
    if MayBeDone(ctx, canc) && tr == [] && e == Some(Cancelled) {
      assert SequentialRuns([t], ctx, canc, tr, Failed(Cancelled));
    }
    if Ends(t, ctx, canc, tr, e) {
      var r :| Runs(t, ctx, canc, tr, r) && Verdict(r) == e;
      var r' := if r.Failed? then r else Returned(Some(Passed(r, ctx)));
      assert GoesOn([t], ctx, canc, tr, r', |tr|, r);
      assert SequentialRuns([t], ctx, canc, tr, r');
    }
  }

  predicate IsPreparation(a: Action) {
    a.Stdout? || a.Stderr? || a.Timeout?
  }

  lemma PreparationFindsAll(a: Action, ctx: Context, cmd: Command)
    requires IsPreparation(a) && Equipped(ctx, cmd)
    ensures FirstLack(Needs(a, ctx.output.Some?), ctx) == None
    ensures Passed(Returned(ContextAfter(a, ctx)), ctx) == Scoped(a, ctx) && Equipped(Scoped(a, ctx), cmd)
  {
    assert Has(ctx, LoggerKey) && Has(ctx, TemplatingKey);
    NoLack(Needs(a, ctx.output.Some?), ctx);
  }

  /** The body of a command after n1 nodes, and before it leaves for the actions in steps. */
  lemma {:induction false} PreparedMeans(cmd: Command, n1: nat, steps: seq<Action>, leaves: seq<Tree>,
                                         ctx: Context, canc: Cancellation, tr: Trace, e: Option<Cause>)
    requires VisitBody(cmd, n1).Visited? && Equipped(ctx, cmd)
    requires |leaves| == |steps| && forall i :: 0 <= i < |steps| ==> leaves[i].Leaf? && leaves[i].action == steps[i]
    requires forall a :: a in steps ==> IsPreparation(a)
    ensures AllEnd(leaves + [VisitBody(cmd, n1).node], ctx, canc, tr, e) <==> Prepares(cmd, steps, ctx, canc, tr, e)
    decreases cmd, 2, |steps|
  {
    var body := VisitBody(cmd, n1).node;
    if steps == [] {
      assert leaves + [body] == [body];
      LastStep(body, ctx, canc, tr, e);
      BodyMeans(cmd, n1, ctx, canc, tr, e);
    } else {
      var a, rest := steps[0], leaves[1..] + [body];
      assert leaves + [body] == [Leaf(leaves[0].id, a)] + rest;
      PreparationFindsAll(a, ctx, cmd);
      StepThen(leaves[0].id, a, rest, ctx, canc, tr, e);
      if tr != [] {
        PreparedMeans(cmd, n1, steps[1..], leaves[1..], Scoped(a, ctx), canc, tr[1..], e);
      }
    }
  }

  lemma {:induction false} BodyMeans(cmd: Command, n: nat, ctx: Context, canc: Cancellation, tr: Trace,
                                     e: Option<Cause>)
    requires VisitBody(cmd, n).Visited? && Equipped(ctx, cmd)
    ensures Ends(VisitBody(cmd, n).node, ctx, canc, tr, e) <==> Does(cmd, ctx, canc, tr, e)
    decreases cmd, 1
  {
    var t := VisitBody(cmd, n).node;
    if cmd.command != "" {
      NoLack(Needs(t.action, ctx.output.Some?), ctx);
      assert Runs(t, ctx, canc, tr, Returned(None)) <==> tr == [Did(t.action, ctx, true)];
      assert Runs(t, ctx, canc, tr, Failed(StepFailed(t.action))) <==> tr == [Did(t.action, ctx, false)];
    } else if cmd.flow == SEQUENTIAL {
      InOrderMeans(cmd, cmd.commands, n + 1, ctx, canc, tr, e);
    } else {
      AllAtOnceMeans(cmd, n, ctx, canc, tr, e);
    }
  }

  /** The cmds are some of a command's commands. */
  predicate Within(cmds: seq<Command>, cmd: Command) {
    forall c :: c in cmds ==> c in cmd.commands
  }

  lemma {:induction false} InOrderMeans(cmd: Command, cmds: seq<Command>, n: nat,
                                        ctx: Context, canc: Cancellation, tr: Trace, e: Option<Cause>)
    requires VisitAll(cmds, n).Visited? && Within(cmds, cmd) && Equipped(ctx, cmd)
    ensures AllEnd(VisitAll(cmds, n).node, ctx, canc, tr, e) <==> InOrder(cmds, ctx, canc, tr, e)
    decreases cmd, 0, |cmds|, 1
  {
    var ts := VisitAll(cmds, n).node;
    if cmds == [] {
      assert AllEnd(ts, ctx, canc, tr, e) <==> SequentialRuns(ts, ctx, canc, tr, Returned(Some(ctx))) && e == None;
    } else if MayBeDone(ctx, canc) && tr == [] && e == Some(Cancelled) {
      assert SequentialRuns(ts, ctx, canc, tr, Failed(Cancelled));
    } else {
      if AllEnd(ts, ctx, canc, tr, e) {
        InOrderIsMeant(cmd, cmds, n, ctx, canc, tr, e);
      }
      if InOrder(cmds, ctx, canc, tr, e) {
        MeantIsInOrder(cmd, cmds, n, ctx, canc, tr, e);
      }
    }
  }

  lemma {:induction false} InOrderIsMeant(cmd: Command, cmds: seq<Command>, n: nat,
                                          ctx: Context, canc: Cancellation, tr: Trace, e: Option<Cause>)
    requires VisitAll(cmds, n).Visited? && Within(cmds, cmd) && Equipped(ctx, cmd)
    requires cmds != [] && !(MayBeDone(ctx, canc) && tr == [] && e == Some(Cancelled))
    requires AllEnd(VisitAll(cmds, n).node, ctx, canc, tr, e)
    ensures InOrder(cmds, ctx, canc, tr, e)
    decreases cmd, 0, |cmds|, 0
  {
    var ts, n1 := VisitAll(cmds, n).node, VisitCommand(cmds[0], n).next;
    assert cmds[0] in cmds && ts[1..] == VisitAll(cmds[1..], n1).node;
    var r :| SequentialRuns(ts, ctx, canc, tr, r) && Verdict(r) == e;
    var k, r1 := FirstRun(ts, ctx, canc, tr, r);
    CommandMeans(cmds[0], n, ctx, canc, tr[..k], Verdict(r1));
    CommandHandsNothingOn(cmds[0], n, ctx, canc, tr[..k], r1);
    InOrderMeans(cmd, cmds[1..], n1, ctx, canc, tr[k..], e);
    assert OthersInOrder(cmds, ctx, canc, tr, e, k, Verdict(r1));
  }

  lemma {:induction false} MeantIsInOrder(cmd: Command, cmds: seq<Command>, n: nat,
                                          ctx: Context, canc: Cancellation, tr: Trace, e: Option<Cause>)
    requires VisitAll(cmds, n).Visited? && Within(cmds, cmd) && Equipped(ctx, cmd)
    requires cmds != [] && !(MayBeDone(ctx, canc) && tr == [] && e == Some(Cancelled))
    requires InOrder(cmds, ctx, canc, tr, e)
    ensures AllEnd(VisitAll(cmds, n).node, ctx, canc, tr, e)
    decreases cmd, 0, |cmds|, 0
  {
    var ts, n1 := VisitAll(cmds, n).node, VisitCommand(cmds[0], n).next;
    assert cmds[0] in cmds && ts[1..] == VisitAll(cmds[1..], n1).node;
    var k, e1 :| 0 <= k <= |tr| && Means(cmds[0], ctx, canc, tr[..k], e1)
                 && OthersInOrder(cmds, ctx, canc, tr, e, k, e1);
    CommandMeans(cmds[0], n, ctx, canc, tr[..k], e1);
    var r1 :| Runs(ts[0], ctx, canc, tr[..k], r1) && Verdict(r1) == e1;
    CommandHandsNothingOn(cmds[0], n, ctx, canc, tr[..k], r1);
    InOrderMeans(cmd, cmds[1..], n1, ctx, canc, tr[k..], e);
    var r :| if e1.Some? then r == r1 else SequentialRuns(ts[1..], ctx, canc, tr[k..], r) && Verdict(r) == e;
    assert GoesOn(ts, ctx, canc, tr, r, k, r1);
    assert SequentialRuns(ts, ctx, canc, tr, r);
  }

  lemma {:induction false} AllAtOnceMeans(cmd: Command, n: nat, ctx: Context, canc: Cancellation, tr: Trace,
                                          e: Option<Cause>)
    requires VisitBody(cmd, n).Visited? && cmd.command == "" && cmd.flow != SEQUENTIAL && Equipped(ctx, cmd)
    ensures Ends(VisitBody(cmd, n).node, ctx, canc, tr, e) <==> AllAtOnce(cmd.commands, ctx, canc, tr, e)
    decreases cmd, 0, |cmd.commands| + 1
  {
    var ts := VisitAll(cmd.commands, n + 1).node;
    forall bs: seq<Branch> | true
      ensures BranchesRun(ts, ctx, canc, bs) <==> BranchesMean(cmd.commands, ctx, canc, bs)
    {
      BranchesMeans(cmd, cmd.commands, n + 1, ctx, canc, bs);
    }
    forall bs, r | Joined(bs, MayBeDone(ctx, canc), r) && BranchesRun(ts, ctx, canc, bs)
      ensures r == AsResult(Verdict(r))
    {
    }
    var t := VisitBody(cmd, n).node;
    assert forall r :: Runs(t, ctx, canc, tr, r) ==> r == AsResult(Verdict(r));
    assert Runs(t, ctx, canc, tr, AsResult(e)) <==> AllAtOnce(cmd.commands, ctx, canc, tr, e);
  }

  lemma {:induction false} BranchesMeans(cmd: Command, cmds: seq<Command>, n: nat, ctx: Context, canc: Cancellation,
                                         bs: seq<Branch>)
    requires VisitAll(cmds, n).Visited? && Within(cmds, cmd) && Equipped(ctx, cmd)
    ensures BranchesRun(VisitAll(cmds, n).node, ctx, canc, bs) <==> BranchesMean(cmds, ctx, canc, bs)
    decreases cmd, 0, |cmds|
  {
    if cmds != [] && bs != [] {
      var ts, n1 := VisitAll(cmds, n).node, VisitCommand(cmds[0], n).next;
      assert cmds[0] in cmds && ts[1..] == VisitAll(cmds[1..], n1).node;
      CommandMeans(cmds[0], n, ctx, canc, bs[0].full, Verdict(bs[0].r));
      forall r | Runs(ts[0], ctx, canc, bs[0].full, r) ensures r == AsResult(Verdict(r)) {
        CommandHandsNothingOn(cmds[0], n, ctx, canc, bs[0].full, r);
      }
      BranchesMeans(cmd, cmds[1..], n1, ctx, canc, bs[1..]);
    }
  }

  /** One attempt. */
  lemma {:induction false} AttemptMeans(cmd: Command, n: nat, ctx: Context, canc: Cancellation, tr: Trace,
                                        e: Option<Cause>)
    requires VisitCommand(cmd, n).Visited? && Equipped(ctx, cmd)
    ensures Ends(Attempt(cmd, n), ctx, canc, tr, e) <==> Prepares(cmd, Preparations(cmd), ctx, canc, tr, e)
    decreases cmd, 3
  {
    var (opens, n1) := Redirect(cmd, n + 1).Extract();
    var (limits, n2) := Limit(cmd.timeout, n1).Extract();
    var (body, n3) := VisitBody(cmd, n2).Extract();
    PreparedMeans(cmd, n2, Preparations(cmd), opens + limits, ctx, canc, tr, e);
    assert opens + limits + [body] == opens + (limits + [body]);
    BoundsEnd(Attempt(cmd, n), ctx, canc, tr, e);
  }

  lemma BoundsEnd(t: Tree, ctx: Context, canc: Cancellation, tr: Trace, e: Option<Cause>)
    requires t.Bounds? && t.child.Group? && !IsParallel(t.child.kind)
    ensures Ends(t, ctx, canc, tr, e) <==> AllEnd(t.child.children, ctx, canc, tr, e)
  {
    if AllEnd(t.child.children, ctx, canc, tr, e) {
      var r :| SequentialRuns(t.child.children, ctx, canc, tr, r) && Verdict(r) == e;
      assert Runs(t.child, ctx, canc, tr, r);
      assert Runs(t, ctx, canc, tr, AsResult(e));
    }
    if Ends(t, ctx, canc, tr, e) {
      var r :| Runs(t, ctx, canc, tr, r) && Verdict(r) == e;
      var r1 := BoundedRun(t.id, t.child, ctx, canc, tr, r);
      assert SequentialRuns(t.child.children, ctx, canc, tr, r1) && Verdict(r1) == e;
    }
  }

  /** The command with its preparations, in its bounds. */
  function Attempt(cmd: Command, n: nat): Tree
    requires VisitCommand(cmd, n).Visited?
  {
    var t := VisitCommand(cmd, n).node;
    var t := if t.Safeguard? then t.child else t;
    if t.Retry? then t.child else t
  }

  lemma {:induction false} TriesMeans(cmd: Command, n: nat, m: nat, ctx: Context, canc: Cancellation, tr: Trace,
                                      e: Option<Cause>)
    requires VisitCommand(cmd, n).Visited? && Equipped(ctx, cmd) && m > 0
    ensures (exists r :: RetryRuns(Attempt(cmd, n), m, ctx, canc, tr, r) && Verdict(r) == e) <==>
            Tries(cmd, m, ctx, canc, tr, e)
    decreases cmd, 4, m, 1
  {
    if r :| RetryRuns(Attempt(cmd, n), m, ctx, canc, tr, r) && Verdict(r) == e {
      TriesAreMeant(cmd, n, m, ctx, canc, tr, r);
    }
    if Tries(cmd, m, ctx, canc, tr, e) {
      var r := MeantAreTries(cmd, n, m, ctx, canc, tr, e);
    }
  }

  lemma {:induction false} TriesAreMeant(cmd: Command, n: nat, m: nat, ctx: Context, canc: Cancellation, tr: Trace,
                                         r: Result)
    requires VisitCommand(cmd, n).Visited? && Equipped(ctx, cmd) && m > 0
    requires RetryRuns(Attempt(cmd, n), m, ctx, canc, tr, r)
    ensures Tries(cmd, m, ctx, canc, tr, Verdict(r))
    decreases cmd, 4, m, 0
  {
    var k, r1 := FirstAttempt(Attempt(cmd, n), m, ctx, canc, tr, r);
    AttemptMeans(cmd, n, ctx, canc, tr[..k], Verdict(r1));
    if r1.Failed? && m > 1 {
      TriesAreMeant(cmd, n, m - 1, ctx, canc, tr[k..], r);
    }
    assert OtherTries(cmd, m, ctx, canc, tr, Verdict(r), k, Verdict(r1));
  }

  lemma {:induction false} MeantAreTries(cmd: Command, n: nat, m: nat, ctx: Context, canc: Cancellation, tr: Trace,
                                         e: Option<Cause>)
    returns (r: Result)
    requires VisitCommand(cmd, n).Visited? && Equipped(ctx, cmd) && m > 0
    requires Tries(cmd, m, ctx, canc, tr, e)
    ensures RetryRuns(Attempt(cmd, n), m, ctx, canc, tr, r) && Verdict(r) == e
    decreases cmd, 4, m, 0
  {
    var t := Attempt(cmd, n);
    var k, e1 :| 0 <= k <= |tr| && Prepares(cmd, Preparations(cmd), ctx, canc, tr[..k], e1)
                 && OtherTries(cmd, m, ctx, canc, tr, e, k, e1);
    AttemptMeans(cmd, n, ctx, canc, tr[..k], e1);
    var r1 :| Runs(t, ctx, canc, tr[..k], r1) && Verdict(r1) == e1;
    r := r1;
    if e1.Some? && m > 1 {
      r := MeantAreTries(cmd, n, m - 1, ctx, canc, tr[k..], e);
    }
    assert TriesOn(t, m, ctx, canc, tr, r, k, r1);
  }

  /**
   Compiler correctness: in a context that has what the command needs, cancelled or not, the tree of a command
   can do tr and end with e if and only if that is something the command means.
   */
  lemma {:induction false} CommandMeans(cmd: Command, n: nat, ctx: Context, canc: Cancellation, tr: Trace,
                                        e: Option<Cause>)
    requires VisitCommand(cmd, n).Visited? && Equipped(ctx, cmd)
    ensures Ends(VisitCommand(cmd, n).node, ctx, canc, tr, e) <==> Means(cmd, ctx, canc, tr, e)
    decreases cmd, 5
  {
    var t := VisitCommand(cmd, n).node;
    var unguarded := if t.Safeguard? then t.child else t;
    var attempts := if cmd.retries > 1 then cmd.retries else 1;
    forall e1 | true ensures Ends(unguarded, ctx, canc, tr, e1) <==> Tries(cmd, attempts, ctx, canc, tr, e1) {
      RetriedMeans(cmd, n, ctx, canc, tr, e1);
    }
    if t.Safeguard? {
      SafeguardEnds(t, ctx, canc, tr, e);
    }
  }

  lemma {:induction false} RetriedMeans(cmd: Command, n: nat, ctx: Context, canc: Cancellation, tr: Trace,
                                        e: Option<Cause>)
    requires VisitCommand(cmd, n).Visited? && Equipped(ctx, cmd)
    ensures var t := VisitCommand(cmd, n).node;
            Ends(if t.Safeguard? then t.child else t, ctx, canc, tr, e) <==>
            Tries(cmd, if cmd.retries > 1 then cmd.retries else 1, ctx, canc, tr, e)
    decreases cmd, 4, cmd.retries + 2
  {
    var m := if cmd.retries > 1 then cmd.retries else 1;
    TriesMeans(cmd, n, m, ctx, canc, tr, e);
    if m == 1 {
      forall r | true
        ensures RetryRuns(Attempt(cmd, n), 1, ctx, canc, tr, r) <==> Runs(Attempt(cmd, n), ctx, canc, tr, r)
      {
        OneAttempt(Attempt(cmd, n), ctx, canc, tr, r);
      }
    }
  }

  lemma OneAttempt(t: Tree, ctx: Context, canc: Cancellation, tr: Trace, r: Result)
    ensures RetryRuns(t, 1, ctx, canc, tr, r) <==> Runs(t, ctx, canc, tr, r)
  {
    assert tr[..|tr|] == tr;
    if RetryRuns(t, 1, ctx, canc, tr, r) {
      var k, r1 := FirstAttempt(t, 1, ctx, canc, tr, r);
    }
    if Runs(t, ctx, canc, tr, r) {
      assert TriesOn(t, 1, ctx, canc, tr, r, |tr|, r);
    }
  }

  lemma SafeguardEnds(t: Tree, ctx: Context, canc: Cancellation, tr: Trace, e: Option<Cause>)
    requires t.Safeguard? && ctx.logger.Some?
    ensures Ends(t, ctx, canc, tr, e) <==> e == None && exists e1 :: Ends(t.child, ctx, canc, tr, e1)
  {
    if e1 :| Ends(t.child, ctx, canc, tr, e1) {
      var r1 :| Runs(t.child, ctx, canc, tr, r1) && Verdict(r1) == e1;
      assert Runs(t, ctx, canc, tr, if r1.Failed? then Returned(None) else r1);
    }
    if Ends(t, ctx, canc, tr, e) {
      var r :| Runs(t, ctx, canc, tr, r) && Verdict(r) == e;
      var r1 := GuardedRun(t.id, t.child, ctx, canc, tr, r);
      assert Ends(t.child, ctx, canc, tr, Verdict(r1));
    }
  }

  // ---- where the output of a command goes

  function ScopeAfter(steps: seq<Action>, ctx: Context): Context
    decreases |steps|
  {
    if steps == [] then ctx else ScopeAfter(steps[1..], Scoped(steps[0], ctx))
  }

  /** The time limit of a command in a scope with the given one. */
  function LimitWithin(cmd: Command, outer: Option<int>): Option<int> {
    if cmd.timeout != "" && DURATION(cmd.timeout).Some? then Tightened(outer, DURATION(cmd.timeout).value) else outer
  }

  /** One file is named for both streams. */
  predicate SharesFile(cmd: Command) {
    cmd.stdout.Some? && cmd.stderr.Some? && cmd.stderr.value.file == cmd.stdout.value.file
  }

  /**
   A command runs with its own stdout or the nearest enclosing one. The same holds for stderr exactly if the
   two streams do not share a file, or stderr already went there. Its time limit is the shortest of those that
   are set on it and around it.
   */
  lemma OutputOfACommand(cmd: Command, ctx: Context)
    ensures var scope := ScopeAfter(Preparations(cmd), ctx);
            && scope.stdout == (if cmd.stdout.Some? then cmd.stdout else ctx.stdout)
            && (scope.stderr == (if cmd.stderr.Some? then cmd.stderr else ctx.stderr) <==>
                !SharesFile(cmd) || ctx.stderr == cmd.stderr)
            && scope.limit == LimitWithin(cmd, ctx.limit)
            && scope.(stdout := ctx.stdout, stderr := ctx.stderr, limit := ctx.limit) == ctx
  {
    var steps := Redirections(cmd);
    var redirected := ScopeAfter(steps, ctx);
    ScopeInParts(steps, Limitation(cmd), ctx);
    ScopeOfFew(Limitation(cmd), redirected);
    ScopeOfFew(steps, ctx);
  }

  lemma ScopeOfFew(steps: seq<Action>, ctx: Context)
    ensures |steps| == 1 ==> ScopeAfter(steps, ctx) == Scoped(steps[0], ctx)
    ensures |steps| == 2 ==> ScopeAfter(steps, ctx) == Scoped(steps[1], Scoped(steps[0], ctx))
  {
    if |steps| == 2 {
      var ctx1 := Scoped(steps[0], ctx);
      assert steps[1..] == [steps[1]] && [steps[1]][1..] == [];
      assert ScopeAfter(steps[1..], ctx1) == ScopeAfter([], Scoped(steps[1], ctx1));
    }
  }

  lemma {:induction false} ScopeInParts(first: seq<Action>, rest: seq<Action>, ctx: Context)
    ensures ScopeAfter(first + rest, ctx) == ScopeAfter(rest, ScopeAfter(first, ctx))
    decreases |first|
  {
    if first == [] {
      assert first + rest == rest;
    } else {
      assert (first + rest)[1..] == first[1..] + rest;
      ScopeInParts(first[1..], rest, Scoped(first[0], ctx));
    }
  }

  /** A command that succeeds has run in the scope its preparations left, as its last step. */
  lemma {:induction false} RunsInItsScope(cmd: Command, steps: seq<Action>, ctx: Context, canc: Cancellation, tr: Trace)
    requires cmd.command != "" && Prepares(cmd, steps, ctx, canc, tr, None)
    ensures tr != [] && tr[|tr| - 1] == Did(CommandStep(cmd), ScopeAfter(steps, ctx), true)
    decreases |steps|
  {
    if steps != [] {
      RunsInItsScope(cmd, steps[1..], Scoped(steps[0], ctx), canc, tr[1..]);
    }
  }
}
