/**
 The steps as they are programmed, for trees without parallel groups: loops that pass a context on, try again,
 and look loggers up. Steps that can fail do so at will, and a context that may be done is so at any
 moment.
 */
module JobRunner {
  import opened Options
  import opened JobVisit
  import opened JobRuns
  import opened JobNesting

  /** findOriginalLogger */
  method FindOriginalLogger(logger: Option<Logger>) returns (orig: Option<Logger>)
    ensures orig == Unwrapped(logger)
  {
    orig := logger;
    while orig.Some? && orig.value.TelemetryLog?
      invariant Unwrapped(orig) == Unwrapped(logger)
      decreases orig
    {
      orig := orig.value.orig;
    }
  }

  /** After done, whatever the others do from current on completes a run of ts. */
  ghost predicate Leads(ts: seq<Tree>, ctx: Context, canc: Cancellation, done: Trace, others: seq<Tree>,
                        current: Context)
  {
    forall rest, r :: SequentialRuns(others, current, canc, rest, r) ==> SequentialRuns(ts, ctx, canc, done + rest, r)
  }

  lemma LeadsFromStart(ts: seq<Tree>, ctx: Context, canc: Cancellation, done: Trace)
    requires done == []
    ensures Leads(ts, ctx, canc, done, ts[0..], ctx)
  {
    assert ts[0..] == ts;
    forall rest, r | SequentialRuns(ts, ctx, canc, rest, r) ensures SequentialRuns(ts, ctx, canc, done + rest, r) {
      assert done + rest == rest;
    }
  }

  lemma LeadsToCancellation(ts: seq<Tree>, ctx: Context, canc: Cancellation, done: Trace, others: seq<Tree>,
                            current: Context)
    requires Leads(ts, ctx, canc, done, others, current) && others != [] && MayBeDone(current, canc)
    ensures SequentialRuns(ts, ctx, canc, done, Failed(Cancelled))
  {
    assert SequentialRuns(others, current, canc, [], Failed(Cancelled));
    assert done + [] == done;
  }

  lemma LeadsToEnd(ts: seq<Tree>, ctx: Context, canc: Cancellation, done: Trace, others: seq<Tree>, current: Context)
    requires Leads(ts, ctx, canc, done, others, current) && others == []
    ensures SequentialRuns(ts, ctx, canc, done, Returned(Some(current)))
  {
    assert SequentialRuns(others, current, canc, [], Returned(Some(current)));
    assert done + [] == done;
  }

  lemma LeadsOn(ts: seq<Tree>, ctx: Context, canc: Cancellation, done: Trace, others: seq<Tree>, current: Context,
                first: Trace, r1: Result)
    requires Leads(ts, ctx, canc, done, others, current) && others != [] && Runs(others[0], current, canc, first, r1)
    ensures r1.Failed? ==> SequentialRuns(ts, ctx, canc, done + first, r1)
    ensures r1.Returned? ==> Leads(ts, ctx, canc, done + first, others[1..], Passed(r1, current))
  {
    if r1.Failed? {
      StepsJoin(others, current, canc, first, r1, [], r1);
      assert first + [] == first;
    } else {
      forall rest, r | SequentialRuns(others[1..], Passed(r1, current), canc, rest, r)
        ensures SequentialRuns(ts, ctx, canc, done + first + rest, r)
      {
        StepsJoin(others, current, canc, first, r1, rest, r);
        assert done + (first + rest) == done + first + rest;
      }
    }
  }

  /** After done, whatever left more attempts do completes n attempts. */
  ghost predicate RetriesLead(t: Tree, n: nat, ctx: Context, canc: Cancellation, done: Trace, left: nat) {
    forall rest, r :: RetryRuns(t, left, ctx, canc, rest, r) ==> RetryRuns(t, n, ctx, canc, done + rest, r)
  }

  lemma RetriesFromStart(t: Tree, n: nat, ctx: Context, canc: Cancellation, done: Trace)
    requires done == []
    ensures RetriesLead(t, n, ctx, canc, done, n)
    ensures n == 0 ==> RetryRuns(t, n, ctx, canc, done, Returned(None))
  {
    forall rest, r | RetryRuns(t, n, ctx, canc, rest, r) ensures RetryRuns(t, n, ctx, canc, done + rest, r) {
      assert done + rest == rest;
    }
  }

  lemma RetriesLeadOn(t: Tree, n: nat, ctx: Context, canc: Cancellation, done: Trace, left: nat, first: Trace,
                      r1: Result)
    requires 0 < left && RetriesLead(t, n, ctx, canc, done, left) && Runs(t, ctx, canc, first, r1)
    ensures r1.Returned? || left == 1 ==> RetryRuns(t, n, ctx, canc, done + first, r1)
    ensures r1.Failed? && left > 1 ==> RetriesLead(t, n, ctx, canc, done + first, left - 1)
  {
    if r1.Returned? || left == 1 {
      AttemptsJoin(t, left, ctx, canc, first, r1, [], r1);
      assert first + [] == first;
    } else {
      forall rest, r | RetryRuns(t, left - 1, ctx, canc, rest, r)
        ensures RetryRuns(t, n, ctx, canc, done + first + rest, r)
      {
        AttemptsJoin(t, left, ctx, canc, first, r1, rest, r);
        assert done + (first + rest) == done + first + rest;
      }
    }
  }

  lemma RetryIsRun(id: nat, t: Tree, n: nat, ctx: Context, canc: Cancellation, tr: Trace, r: Result)
    requires ctx.logger.Some? && RetryRuns(t, n, ctx, canc, tr, r)
    ensures Runs(Retry(id, t, n), ctx, canc, tr, r)
  {
  }

  lemma RetryLacks(id: nat, t: Tree, n: nat, ctx: Context, canc: Cancellation)
    requires ctx.logger.None?
    ensures Runs(Retry(id, t, n), ctx, canc, [Lacked(LoggerKey)], Failed(StepLacked(LoggerKey)))
  {
  }

  lemma ProbeIsRun(id: nat, t: Tree, at: seq<nat>, ctx: Context, canc: Cancellation, inner: Trace, r: Result)
    requires Runs(t, Watched(ctx, id), canc, inner, r)
    ensures var tr := [Note(at, id, Start)] + inner + [Note(at, id, if r.Failed? then Fail else End)];
            Runs(Probe(id, t, at), ctx, canc, tr, r)
  {
    var tr := [Note(at, id, Start)] + inner + [Note(at, id, if r.Failed? then Fail else End)];
    assert tr[1..|tr| - 1] == inner;
  }

  class Runner {
    /** What has been done so far. */
    var trace: Trace
    /** What may end the run early. */
    const canc: Cancellation

    constructor (canc: Cancellation)
      ensures trace == [] && this.canc == canc
    {
      trace, this.canc := [], canc;
    }

    /** What has been done since the trace was before. */
    ghost function Since(before: Trace): Trace
      reads this
    {
      if |before| <= |trace| then trace[|before|..] else []
    }

    ghost predicate Extends(before: Trace)
      reads this
    {
      before <= trace
    }

    /** Whether ctx is done at this moment. */
    method IsDone(ctx: Context) returns (done: bool)
      ensures done ==> MayBeDone(ctx, canc)
    {
      done := *;
      done := done && MayBeDone(ctx, canc);
    }

    method RunTree(t: Tree, ctx: Context) returns (r: Result)
      requires NoParallel(t)
      modifies this
      ensures Extends(old(trace)) && Runs(t, ctx, canc, Since(old(trace)), r)
      decreases t, 0
    {
      match t {
        case Leaf(_, a) => r := RunStep(a, ctx);
        case Group(_, _, children) => r := RunSequential(children, ctx);
        case Safeguard(_, child) => r := RunSafeguard(t.id, child, ctx);
        case Bounds(_, child) => r := RunBounds(t.id, child, ctx);
        case Retry(_, child, n) => r := RunRetry(t.id, child, n, ctx);
        case Probe(id, child, at) => r := RunProbe(id, child, at, ctx);
      }
    }

    method RunStep(a: Action, ctx: Context) returns (r: Result)
      modifies this
      ensures Extends(old(trace)) && StepRuns(a, ctx, Since(old(trace)), r)
    {
      var needs := Needs(a, ctx.output.Some?);
      assert needs[0..] == needs;
      for i := 0 to |needs|
        invariant trace == old(trace) && FirstLack(needs[i..], ctx) == FirstLack(needs, ctx)
      {
        assert needs[i..][1..] == needs[i + 1..];
        if !Has(ctx, needs[i]) {
          trace := trace + [Lacked(needs[i])];
          return Failed(StepLacked(needs[i]));
        }
      }
      var ok: bool := *;
      ok := ok || !CanFail(a, ctx);
      trace := trace + [Did(a, ctx, ok)];
      r := if ok then Returned(ContextAfter(a, ctx)) else Failed(StepFailed(a));
    }

    /** Sequential */
    method RunSequential(ts: seq<Tree>, ctx: Context) returns (r: Result)
      requires forall t :: t in ts ==> NoParallel(t)
      modifies this
      ensures Extends(old(trace)) && SequentialRuns(ts, ctx, canc, Since(old(trace)), r)
      decreases ts, 1
    {
      hide SequentialRuns, Runs, NoParallel;
      var current := ctx;
      LeadsFromStart(ts, ctx, canc, Since(old(trace)));
      for i := 0 to |ts|
        invariant Extends(old(trace)) && Leads(ts, ctx, canc, Since(old(trace)), ts[i..], current)
      {
        ghost var done, before := Since(old(trace)), trace;
        assert ts[i..][0] == ts[i] && ts[i..][1..] == ts[i + 1..];
        var isDone := IsDone(current);
        if isDone {
          LeadsToCancellation(ts, ctx, canc, done, ts[i..], current);
          return Failed(Cancelled);
        }
        r := RunTree(ts[i], current);
        assert Since(old(trace)) == done + Since(before);
        LeadsOn(ts, ctx, canc, done, ts[i..], current, Since(before), r);
        if r.Failed? {
          return;
        }
        if r.ctx.Some? {
          current := r.ctx.value;
        }
      }
      LeadsToEnd(ts, ctx, canc, Since(old(trace)), ts[|ts|..], current);
      r := Returned(Some(current));
    }

    /** ErrorSafeguard */
    method RunSafeguard(id: nat, child: Tree, ctx: Context) returns (r: Result)
      requires NoParallel(child)
      modifies this
      ensures Extends(old(trace)) && Runs(Safeguard(id, child), ctx, canc, Since(old(trace)), r)
      decreases child, 2
    {
      if ctx.logger.None? {
        trace := trace + [Lacked(LoggerKey)];
        return Failed(StepLacked(LoggerKey));
      }
      r := RunTree(child, ctx);
      if r.Failed? {
        return Returned(None);
      }
    }

    /** ContextBounds */
    method RunBounds(id: nat, child: Tree, ctx: Context) returns (r: Result)
      requires NoParallel(child)
      modifies this
      ensures Extends(old(trace)) && Runs(Bounds(id, child), ctx, canc, Since(old(trace)), r)
      decreases child, 2
    {
      r := RunTree(child, ctx);
      if r.Returned? {
        return Returned(None);
      }
    }

    /** Retry */
    method RunRetry(id: nat, child: Tree, n: nat, ctx: Context) returns (r: Result)
      requires NoParallel(child)
      modifies this
      ensures Extends(old(trace)) && Runs(Retry(id, child, n), ctx, canc, Since(old(trace)), r)
      decreases child, 2
    {
      hide Runs, RetryRuns, NoParallel;
      if ctx.logger.None? {
        trace := trace + [Lacked(LoggerKey)];
        RetryLacks(id, child, n, ctx, canc);
        assert Since(old(trace)) == [Lacked(LoggerKey)];
        return Failed(StepLacked(LoggerKey));
      }
      r := Returned(None);
      RetriesFromStart(child, n, ctx, canc, Since(old(trace)));
      for i := 0 to n
        invariant Extends(old(trace)) && (i < n ==> RetriesLead(child, n, ctx, canc, Since(old(trace)), n - i))
        invariant i == n ==> RetryRuns(child, n, ctx, canc, Since(old(trace)), r)
      {
        ghost var done, before := Since(old(trace)), trace;
        r := RunTree(child, ctx);
        assert Since(old(trace)) == done + Since(before);
        RetriesLeadOn(child, n, ctx, canc, done, n - i, Since(before), r);
        if r.Returned? {
          break;
        }
      }
      RetryIsRun(id, child, n, ctx, canc, Since(old(trace)), r);
    }

    /** instrument: the step logs its start and its end, and gets a logger of its own. */
    method RunProbe(id: nat, child: Tree, at: seq<nat>, ctx: Context) returns (r: Result)
      requires NoParallel(child)
      modifies this
      ensures Extends(old(trace)) && Runs(Probe(id, child, at), ctx, canc, Since(old(trace)), r)
      decreases child, 2
    {
      hide Runs, NoParallel;
      var orig := FindOriginalLogger(ctx.logger);
      trace := trace + [Note(at, id, Start)];
      ghost var before := trace;
      r := RunTree(child, ctx.(logger := Some(TelemetryLog(id, orig))));
      ghost var inner := Since(before);
      trace := trace + [Note(at, id, if r.Failed? then Fail else End)];
      assert Since(old(trace)) == [Note(at, id, Start)] + inner + [Note(at, id, if r.Failed? then Fail else End)];
      ProbeIsRun(id, child, at, ctx, canc, inner, r);
    }
  }
}
