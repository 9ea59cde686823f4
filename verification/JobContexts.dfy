/**
 What the steps of a tree can do to its contexts. A property of contexts that each step keeps holds of every context
 in every run. So a context that is done stays done, whatever limits are set in it, and a job's output stays its own.
 */
module JobContexts {
  import opened Options
  import opened JobConfig
  import opened JobVisit
  import opened JobRuns
  import opened JobSafety

  /** No step in t takes p from a context. */
  ghost predicate Keeps(t: Tree, p: Context -> bool)
    decreases t
  {
    match t
    case Leaf(_, a) => forall ctx :: p(ctx) && ContextAfter(a, ctx).Some? ==> p(ContextAfter(a, ctx).value)
    case Group(_, _, children) => forall c :: c in children ==> Keeps(c, p)
    case Safeguard(_, child) => Keeps(child, p)
    case Bounds(_, child) => Keeps(child, p)
    case Retry(_, child, _) => Keeps(child, p)
    case Probe(id, child, _) => Keeps(child, p) && forall ctx :: p(ctx) ==> p(Watched(ctx, id))
  }

  ghost predicate AllHave(p: Context -> bool, tr: Trace, r: Result) {
    && (forall e :: e in tr && e.Did? ==> p(e.ctx))
    && (r.Returned? && r.ctx.Some? ==> p(r.ctx.value))
  }

  /** What every step keeps, every step is taken with. */
  lemma {:induction false} ContextsKeep(t: Tree, p: Context -> bool, ctx: Context, canc: Cancellation, tr: Trace,
                                        r: Result)
    requires Keeps(t, p) && p(ctx) && Runs(t, ctx, canc, tr, r)
    ensures AllHave(p, tr, r)
    decreases t, 0
  {
    match t
    case Leaf(_, a) =>
    case Group(_, kind, children) =>
      if !IsParallel(kind) {
        InOrderKeep(children, p, ctx, canc, tr, r);
      } else if !(MayBeDone(ctx, canc) && tr == [] && r == Returned(None)) {
        var bs: seq<Branch> :| BranchesRun(children, ctx, canc, bs) && Interleaves(tr, bs)
                               && Joined(bs, MayBeDone(ctx, canc), r);
        BranchesKeep(children, p, ctx, canc, bs);
        forall e | e in tr && e.Did? ensures p(e.ctx) {
          var i := FromABranch(tr, bs, e);
          assert bs[i] in bs && e in bs[i].full;
        }
      }
    case Safeguard(id, child) =>
      if ctx.logger.Some? {
        var r1 := GuardedRun(id, child, ctx, canc, tr, r);
        ContextsKeep(child, p, ctx, canc, tr, r1);
      }
    case Bounds(id, child) =>
      var r1 := BoundedRun(id, child, ctx, canc, tr, r);
      ContextsKeep(child, p, ctx, canc, tr, r1);
    case Retry(_, child, n) =>
      if ctx.logger.Some? {
        RetriesKeep(child, p, n, ctx, canc, tr, r);
      }
    case Probe(id, child, _) =>
      var inner := tr[1..|tr| - 1];
      ContextsKeep(child, p, Watched(ctx, id), canc, inner, r);
      assert tr == [tr[0]] + inner + [tr[|tr| - 1]];
  }

  lemma {:induction false} InOrderKeep(ts: seq<Tree>, p: Context -> bool, ctx: Context, canc: Cancellation, tr: Trace,
                                       r: Result)
    requires (forall t :: t in ts ==> Keeps(t, p)) && p(ctx) && SequentialRuns(ts, ctx, canc, tr, r)
    ensures AllHave(p, tr, r)
    decreases ts, 1
  {
    if ts != [] && !(MayBeDone(ctx, canc) && tr == [] && r == Failed(Cancelled)) {
      var k, r1 := FirstRun(ts, ctx, canc, tr, r);
      ContextsKeep(ts[0], p, ctx, canc, tr[..k], r1);
      assert tr == tr[..k] + tr[k..];
      if r1.Returned? {
        InOrderKeep(ts[1..], p, Passed(r1, ctx), canc, tr[k..], r);
      }
    }
  }

  lemma {:induction false} RetriesKeep(t: Tree, p: Context -> bool, n: nat, ctx: Context, canc: Cancellation, tr: Trace,
                                       r: Result)
    requires Keeps(t, p) && p(ctx) && RetryRuns(t, n, ctx, canc, tr, r)
    ensures AllHave(p, tr, r)
    decreases t, 1, n
  {
    if n > 0 {
      var k, r1 := FirstAttempt(t, n, ctx, canc, tr, r);
      ContextsKeep(t, p, ctx, canc, tr[..k], r1);
      assert tr == tr[..k] + tr[k..];
      if r1.Failed? && n > 1 {
        RetriesKeep(t, p, n - 1, ctx, canc, tr[k..], r);
      }
    }
  }

  lemma {:induction false} BranchesKeep(ts: seq<Tree>, p: Context -> bool, ctx: Context, canc: Cancellation,
                                        bs: seq<Branch>)
    requires (forall t :: t in ts ==> Keeps(t, p)) && p(ctx) && BranchesRun(ts, ctx, canc, bs)
    ensures forall b :: b in bs ==> AllHave(p, b.full, b.r) && b.part <= b.full
    decreases ts, 0
  {
    if ts != [] {
      ContextsKeep(ts[0], p, ctx, canc, bs[0].full, bs[0].r);
      BranchesKeep(ts[1..], p, ctx, canc, bs[1..]);
      assert bs == [bs[0]] + bs[1..];
    }
  }

  // ---- limits only get tighter

  /** After a time limit is set, a context is done just if it was, or if that limit is up. */
  lemma TimeoutTightens(d: int, ctx: Context, canc: Cancellation)
    ensures var after := ContextAfter(Timeout(d), ctx);
            after.Some? && (MayBeDone(after.value, canc) <==> MayBeDone(ctx, canc) || d <= canc.lasts)
  {
  }

  /** No other step changes whether a context is done. */
  lemma OthersSetNoLimit(a: Action, ctx: Context, canc: Cancellation)
    requires !a.Timeout? && ContextAfter(a, ctx).Some?
    ensures MayBeDone(ContextAfter(a, ctx).value, canc) <==> MayBeDone(ctx, canc)
  {
  }

  lemma {:induction false} KeepsDone(t: Tree, canc: Cancellation)
    ensures Keeps(t, ctx => MayBeDone(ctx, canc))
    decreases t
  {
    match t
    case Leaf(_, a) =>
      forall ctx: Context | MayBeDone(ctx, canc) && ContextAfter(a, ctx).Some?
        ensures MayBeDone(ContextAfter(a, ctx).value, canc)
      {
        if a.Timeout? {
          TimeoutTightens(a.d, ctx, canc);
        } else {
          OthersSetNoLimit(a, ctx, canc);
        }
      }
    case Group(_, _, children) =>
      forall c | c in children ensures Keeps(c, ctx => MayBeDone(ctx, canc)) {
        KeepsDone(c, canc);
      }
    case Safeguard(_, child) => KeepsDone(child, canc);
    case Bounds(_, child) => KeepsDone(child, canc);
    case Retry(_, child, _) => KeepsDone(child, canc);
    case Probe(_, child, _) => KeepsDone(child, canc);
  }

  /** Once a context is done, so is every context that is made from it, whatever limits are set there. */
  lemma DoneStaysDone(t: Tree, ctx: Context, canc: Cancellation, tr: Trace, r: Result)
    requires MayBeDone(ctx, canc) && Runs(t, ctx, canc, tr, r)
    ensures forall e :: e in tr && e.Did? ==> MayBeDone(e.ctx, canc)
    ensures r.Returned? && r.ctx.Some? ==> MayBeDone(r.ctx.value, canc)
  {
    KeepsDone(t, canc);
    ContextsKeep(t, c => MayBeDone(c, canc), ctx, canc, tr, r);
  }

  // ---- a job writes to its own output

  /** Where a job writes: to the file it names, or to the standard output. */
  function OutputOf(c: Config): Writer {
    match c.output
    case Some(o) => ToFile(o)
    case None => StandardOutput
  }

  lemma {:induction false} KeepsOutput(t: Tree, w: Writer)
    ensures Keeps(t, (ctx: Context) => ctx.output == Some(w))
    decreases t
  {
    match t
    case Leaf(_, a) =>
    case Group(_, _, children) =>
      forall c | c in children ensures Keeps(c, (ctx: Context) => ctx.output == Some(w)) {
        KeepsOutput(c, w);
      }
    case Safeguard(_, child) => KeepsOutput(child, w);
    case Bounds(_, child) => KeepsOutput(child, w);
    case Retry(_, child, _) => KeepsOutput(child, w);
    case Probe(_, child, _) => KeepsOutput(child, w);
  }

  /** A step of a job is taken with the job's output, but for the two that come before the output is set. */
  ghost predicate WritesTo(c: Config, e: Event) {
    e.Did? ==>
      || e.ctx.output == Some(OutputOf(c))
      || (e.ctx.output == None && (e.a == Templating(None) || e.a == SetOutput(c.output)))
  }

  /** In every run of a job all steps write to the output the job names. */
  lemma JobWritesToItsOutput(c: Config, canc: Cancellation, tr: Trace, r: Result)
    requires VisitConfig(c).Visited? && Runs(VisitConfig(c).node, NOTHING, canc, tr, r)
    ensures forall e :: e in tr ==> WritesTo(c, e)
  {
    hide SequentialRuns, VisitConfig, Plain;
    var ts := FirstTwo(c, canc, tr, r);
    if !(canc.outside && tr == [] && r == Failed(Cancelled)) {
      var k, r1 := FirstRun(ts, NOTHING, canc, tr, r);
      assert tr == tr[..k] + tr[k..];
      assert r1 == Returned(Some(NOTHING.(templating := Some(Engine(None)))));
      AfterTemplating(c, ts[1..], r1.ctx.value, canc, tr[k..], r);
    }
  }

  /** The steps of a job, of which the first two are known. */
  lemma FirstTwo(c: Config, canc: Cancellation, tr: Trace, r: Result) returns (ts: seq<Tree>)
    requires VisitConfig(c).Visited? && Runs(VisitConfig(c).node, NOTHING, canc, tr, r)
    ensures |ts| >= 2 && SequentialRuns(ts, NOTHING, canc, tr, r)
    ensures ts[0].Leaf? && ts[0].action == Templating(None) && ts[1].Leaf? && ts[1].action == SetOutput(c.output)
  {
    hide VisitTargets, VisitCommand, VisitLocal, Plain, SequentialRuns;
    ts := VisitConfig(c).node.children;
    var setUp := SetUp(c, 1).node;
    assert ts[0] == setUp[0] && ts[1] == setUp[1];
  }

  lemma AfterTemplating(c: Config, ts: seq<Tree>, ctx: Context, canc: Cancellation, tr: Trace, r: Result)
    requires ts != [] && ts[0].Leaf? && ts[0].action == SetOutput(c.output)
    requires ctx.output == None && ctx.templating.Some? && SequentialRuns(ts, ctx, canc, tr, r)
    ensures forall e :: e in tr ==> WritesTo(c, e)
  {
    if !(MayBeDone(ctx, canc) && tr == [] && r == Failed(Cancelled)) {
      var k, r1 := FirstRun(ts, ctx, canc, tr, r);
      assert tr == tr[..k] + tr[k..];
      if r1.Returned? {
        forall t | t in ts[1..] ensures Keeps(t, (ctx: Context) => ctx.output == Some(OutputOf(c))) {
          KeepsOutput(t, OutputOf(c));
        }
        InOrderKeep(ts[1..], (ctx: Context) => ctx.output == Some(OutputOf(c)), Passed(r1, ctx), canc, tr[k..], r);
      }
    }
  }
}
