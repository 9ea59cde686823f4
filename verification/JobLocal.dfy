/**
 What pre and post mean: the command as it is told, but all of it here, and without its time limits. The interpreter
 reads the original command; it means what the localized command means.
 */
module JobLocal {
  import opened Options
  import opened JobConfig
  import opened JobRuns
  import opened JobVisit
  import opened JobMeaning

  // ---- the interpreter

  /** e is the error that is left, if any. */
  ghost predicate MeansHere(cmd: Command, ctx: Context, canc: Cancellation, tr: Trace, e: Option<Cause>)
    decreases cmd, 5
  {
    var attempts := if cmd.retries > 1 then cmd.retries else 1;
    if cmd.ignoreError then e == None && exists e1 :: TriesHere(cmd, attempts, ctx, canc, tr, e1)
    else TriesHere(cmd, attempts, ctx, canc, tr, e)
  }

  /** n attempts at most, up to the first that succeeds. */
  ghost predicate TriesHere(cmd: Command, n: nat, ctx: Context, canc: Cancellation, tr: Trace, e: Option<Cause>)
    requires n > 0
    decreases cmd, 4, n, 1
  {
    exists k, e1 :: 0 <= k <= |tr| && PreparesHere(cmd, Redirections(cmd), ctx, canc, tr[..k], e1)
                    && OtherTriesHere(cmd, n, ctx, canc, tr, e, k, e1)
  }

  ghost predicate OtherTriesHere(cmd: Command, n: nat, ctx: Context, canc: Cancellation, tr: Trace, e: Option<Cause>,
                                 k: nat, e1: Option<Cause>)
    requires n > 0 && k <= |tr|
    decreases cmd, 4, n, 0
  {
    if e1.Some? && n > 1 then TriesHere(cmd, n - 1, ctx, canc, tr[k..], e) else k == |tr| && e == e1
  }

  /** Opening the files comes first; no limit is set. */
  ghost predicate PreparesHere(cmd: Command, steps: seq<Action>, ctx: Context, canc: Cancellation, tr: Trace,
                               e: Option<Cause>)
    decreases cmd, 2, |steps|
  {
    || (MayBeDone(ctx, canc) && tr == [] && e == Some(Cancelled))
    || if steps == [] then DoesHere(cmd, ctx, canc, tr, e)
       else
         var a := steps[0];
         || (CanFail(a, ctx) && tr == [Did(a, ctx, false)] && e == Some(StepFailed(a)))
         || (tr != [] && tr[0] == Did(a, ctx, true)
             && PreparesHere(cmd, steps[1..], Scoped(a, ctx), canc, tr[1..], e))
  }

  /** The command itself, whatever its target. */
  ghost predicate DoesHere(cmd: Command, ctx: Context, canc: Cancellation, tr: Trace, e: Option<Cause>)
    decreases cmd, 1
  {
    if cmd.command != "" then
      var a := Local(cmd.command);
      (tr == [Did(a, ctx, true)] && e == None) || (tr == [Did(a, ctx, false)] && e == Some(StepFailed(a)))
    else if cmd.flow == "sequential" then InOrderHere(cmd.commands, ctx, canc, tr, e)
    else AllAtOnceHere(cmd.commands, ctx, canc, tr, e)
  }

  ghost predicate InOrderHere(cmds: seq<Command>, ctx: Context, canc: Cancellation, tr: Trace, e: Option<Cause>)
    decreases cmds, 1
  {
    if cmds == [] then tr == [] && e == None
    else
      || (MayBeDone(ctx, canc) && tr == [] && e == Some(Cancelled))
      || exists k, e1 :: 0 <= k <= |tr| && MeansHere(cmds[0], ctx, canc, tr[..k], e1)
                         && OthersInOrderHere(cmds, ctx, canc, tr, e, k, e1)
  }

  ghost predicate OthersInOrderHere(cmds: seq<Command>, ctx: Context, canc: Cancellation, tr: Trace, e: Option<Cause>,
                                    k: nat, e1: Option<Cause>)
    requires cmds != [] && k <= |tr|
    decreases cmds, 0
  {
    if e1.Some? then k == |tr| && e == e1 else InOrderHere(cmds[1..], ctx, canc, tr[k..], e)
  }

  ghost predicate AllAtOnceHere(cmds: seq<Command>, ctx: Context, canc: Cancellation, tr: Trace, e: Option<Cause>)
    decreases cmds, 1
  {
    || (MayBeDone(ctx, canc) && tr == [] && e == None)
    || exists bs :: BranchesMeanHere(cmds, ctx, canc, bs) && Interleaves(tr, bs)
                    && Joined(bs, MayBeDone(ctx, canc), AsResult(e))
  }

  ghost predicate BranchesMeanHere(cmds: seq<Command>, ctx: Context, canc: Cancellation, bs: seq<Branch>)
    decreases cmds, 0
  {
    if cmds == [] then bs == []
    else
      && bs != [] && bs[0].r == AsResult(Verdict(bs[0].r))
      && MeansHere(cmds[0], ctx, canc, bs[0].full, Verdict(bs[0].r))
      && bs[0].part <= bs[0].full
      && BranchesMeanHere(cmds[1..], ctx, canc, bs[1..])
  }

  // ---- it is what the localized command means

  lemma LocalizedPreparations(cmd: Command)
    ensures Preparations(Localized(cmd)) == Redirections(cmd)
  {
  }

  /** Here, a command means what its localized form means. */
  lemma {:induction false} LocalizedMeans(cmd: Command, ctx: Context, canc: Cancellation, tr: Trace, e: Option<Cause>)
    ensures Means(Localized(cmd), ctx, canc, tr, e) <==> MeansHere(cmd, ctx, canc, tr, e)
    decreases cmd, 5
  {
    hide Tries, TriesHere;
    var attempts := if cmd.retries > 1 then cmd.retries else 1;
    forall e1 | true
      ensures Tries(Localized(cmd), attempts, ctx, canc, tr, e1) <==> TriesHere(cmd, attempts, ctx, canc, tr, e1)
    {
      LocalizedTries(cmd, attempts, ctx, canc, tr, e1);
    }
  }

  lemma {:induction false} LocalizedTries(cmd: Command, n: nat, ctx: Context, canc: Cancellation, tr: Trace,
                                          e: Option<Cause>)
    requires n > 0
    ensures Tries(Localized(cmd), n, ctx, canc, tr, e) <==> TriesHere(cmd, n, ctx, canc, tr, e)
    decreases cmd, 4, n, 1
  {
    hide Prepares, PreparesHere, Preparations, Redirections, Localized;
    var lc := Localized(cmd);
    LocalizedPreparations(cmd);
    forall k: nat, e1 | k <= |tr|
      ensures Prepares(lc, Preparations(lc), ctx, canc, tr[..k], e1) <==>
              PreparesHere(cmd, Redirections(cmd), ctx, canc, tr[..k], e1)
      ensures OtherTries(lc, n, ctx, canc, tr, e, k, e1) <==> OtherTriesHere(cmd, n, ctx, canc, tr, e, k, e1)
    {
      LocalizedPrepares(cmd, Redirections(cmd), ctx, canc, tr[..k], e1);
      if n > 1 {
        LocalizedTries(cmd, n - 1, ctx, canc, tr[k..], e);
      }
    }
  }

  lemma {:induction false} LocalizedPrepares(cmd: Command, steps: seq<Action>, ctx: Context, canc: Cancellation,
                                             tr: Trace, e: Option<Cause>)
    ensures Prepares(Localized(cmd), steps, ctx, canc, tr, e) <==> PreparesHere(cmd, steps, ctx, canc, tr, e)
    decreases cmd, 2, |steps|
  {
    hide Does, DoesHere, Localized, CanFail;
    if steps == [] {
      LocalizedDoes(cmd, ctx, canc, tr, e);
    } else if tr != [] {
      LocalizedPrepares(cmd, steps[1..], Scoped(steps[0], ctx), canc, tr[1..], e);
    }
  }

  lemma {:induction false} LocalizedDoes(cmd: Command, ctx: Context, canc: Cancellation, tr: Trace, e: Option<Cause>)
    ensures Does(Localized(cmd), ctx, canc, tr, e) <==> DoesHere(cmd, ctx, canc, tr, e)
    decreases cmd, 1
  {
    hide InOrder, InOrderHere, AllAtOnce, AllAtOnceHere;
    LocalizedInOrder(cmd.commands, ctx, canc, tr, e);
    LocalizedAllAtOnce(cmd.commands, ctx, canc, tr, e);
  }

  lemma {:induction false} LocalizedInOrder(cmds: seq<Command>, ctx: Context, canc: Cancellation, tr: Trace,
                                            e: Option<Cause>)
    ensures InOrder(LocalizedAll(cmds), ctx, canc, tr, e) <==> InOrderHere(cmds, ctx, canc, tr, e)
    decreases cmds, 1
  {
    hide Means, MeansHere, Localized;
    if cmds != [] {
      var ls := LocalizedAll(cmds);
      assert ls[0] == Localized(cmds[0]) && ls[1..] == LocalizedAll(cmds[1..]);
      forall k: nat, e1 | k <= |tr|
        ensures Means(ls[0], ctx, canc, tr[..k], e1) <==> MeansHere(cmds[0], ctx, canc, tr[..k], e1)
        ensures OthersInOrder(ls, ctx, canc, tr, e, k, e1) <==> OthersInOrderHere(cmds, ctx, canc, tr, e, k, e1)
      {
        LocalizedMeans(cmds[0], ctx, canc, tr[..k], e1);
        LocalizedInOrder(cmds[1..], ctx, canc, tr[k..], e);
      }
    }
  }

  lemma {:induction false} LocalizedAllAtOnce(cmds: seq<Command>, ctx: Context, canc: Cancellation, tr: Trace,
                                              e: Option<Cause>)
    ensures AllAtOnce(LocalizedAll(cmds), ctx, canc, tr, e) <==> AllAtOnceHere(cmds, ctx, canc, tr, e)
    decreases cmds, 1
  {
    hide BranchesMean, BranchesMeanHere;
    forall bs: seq<Branch> | true
      ensures BranchesMean(LocalizedAll(cmds), ctx, canc, bs) <==> BranchesMeanHere(cmds, ctx, canc, bs)
    {
      LocalizedBranches(cmds, ctx, canc, bs);
    }
  }

  lemma {:induction false} LocalizedBranches(cmds: seq<Command>, ctx: Context, canc: Cancellation, bs: seq<Branch>)
    ensures BranchesMean(LocalizedAll(cmds), ctx, canc, bs) <==> BranchesMeanHere(cmds, ctx, canc, bs)
    decreases cmds, 0
  {
    hide Means, MeansHere, Localized;
    if cmds != [] && bs != [] {
      var ls := LocalizedAll(cmds);
      assert ls[0] == Localized(cmds[0]) && ls[1..] == LocalizedAll(cmds[1..]);
      LocalizedMeans(cmds[0], ctx, canc, bs[0].full, Verdict(bs[0].r));
      LocalizedBranches(cmds[1..], ctx, canc, bs[1..]);
    }
  }
}
