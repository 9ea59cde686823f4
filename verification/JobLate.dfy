/**
 What goes on after a parallel group has returned early: its context is done, but children that were not through
 may still take steps, next to whatever the job does then. The runs of JobRuns end a child's events when its
 group returns; here the later ones are kept too, and what holds of all steps is shown for them as well.
 */
module JobLate {
  import opened Options
  import opened JobConfig
  import opened JobVisit
  import opened JobRuns
  import opened JobSafety
  import opened JobCounts
  import opened JobHosts

  /** The context is done. */
  function Stopped(canc: Cancellation): Cancellation {
    canc.(outside := true)
  }

  /**
   What a child did in all, as a run of its own in which it may be stopped at any moment: the first seen events of
   whole, and own, what groups in it left behind.
   */
  datatype Going = Going(whole: Trace, seen: nat, own: Trace, r: Result)

  /** The child's events after its group returned. */
  function Rest(b: Branch, g: Going): Trace {
    if |b.part| <= g.seen <= |g.whole| then g.whole[|b.part|..g.seen] else []
  }

  function Leftovers(bs: seq<Branch>, gs: seq<Going>): Trace {
    if bs == [] || gs == [] then [] else Rest(bs[0], gs[0]) + gs[0].own + Leftovers(bs[1..], gs[1..])
  }

  /**
   The tree t can do tr and end with r, and late are the events of children that go on after their group has
   returned. They may come at any time after that, so their order says nothing.
   */
  ghost predicate Happens(t: Tree, ctx: Context, canc: Cancellation, tr: Trace, late: Trace, r: Result)
    decreases t, 0
  {
    match t
    case Leaf(_, a) => StepRuns(a, ctx, tr, r) && late == []
    case Group(_, kind, children) =>
      if IsParallel(kind) then AtOnceHappens(children, ctx, canc, tr, late, r)
      else InOrderHappens(children, ctx, canc, tr, late, r)
    case Safeguard(_, child) =>
      if ctx.logger.None? then LacksKey(LoggerKey, tr, r) && late == []
      else exists r1 :: Happens(child, ctx, canc, tr, late, r1) && r == if r1.Failed? then Returned(None) else r1
    case Bounds(_, child) =>
      exists r1 :: Happens(child, ctx, canc, tr, late, r1) && r == if r1.Failed? then r1 else Returned(None)
    case Retry(_, child, n) =>
      if ctx.logger.None? then LacksKey(LoggerKey, tr, r) && late == []
      else TriesHappen(child, n, ctx, canc, tr, late, r)
    case Probe(id, child, at) =>
      && |tr| >= 2
      && tr[0] == Note(at, id, Start) && tr[|tr| - 1] == Note(at, id, if r.Failed? then Fail else End)
      && Happens(child, Watched(ctx, id), canc, tr[1..|tr| - 1], late, r)
  }

  ghost predicate InOrderHappens(ts: seq<Tree>, ctx: Context, canc: Cancellation, tr: Trace, late: Trace, r: Result)
    decreases ts, 1
  {
    if ts == [] then tr == [] && late == [] && r == Returned(Some(ctx))
    else
      || (MayBeDone(ctx, canc) && tr == [] && late == [] && r == Failed(Cancelled))
      || exists k, m, r1 :: 0 <= k <= |tr| && 0 <= m <= |late| && Happens(ts[0], ctx, canc, tr[..k], late[..m], r1)
                            && HappensOn(ts, ctx, canc, tr, late, r, k, m, r1)
  }

  ghost predicate HappensOn(ts: seq<Tree>, ctx: Context, canc: Cancellation, tr: Trace, late: Trace, r: Result,
                            k: nat, m: nat, r1: Result)
    requires ts != [] && k <= |tr| && m <= |late|
    decreases ts, 0
  {
    if r1.Failed? then k == |tr| && m == |late| && r == r1
    else InOrderHappens(ts[1..], Passed(r1, ctx), canc, tr[k..], late[m..], r)
  }

  ghost predicate TriesHappen(t: Tree, n: nat, ctx: Context, canc: Cancellation, tr: Trace, late: Trace, r: Result)
    decreases t, 1, n, 1
  {
    if n == 0 then tr == [] && late == [] && r == Returned(None)
    else exists k, m, r1 :: 0 <= k <= |tr| && 0 <= m <= |late| && Happens(t, ctx, canc, tr[..k], late[..m], r1)
                            && TryAgain(t, n, ctx, canc, tr, late, r, k, m, r1)
  }

  ghost predicate TryAgain(t: Tree, n: nat, ctx: Context, canc: Cancellation, tr: Trace, late: Trace, r: Result,
                           k: nat, m: nat, r1: Result)
    requires n > 0 && k <= |tr| && m <= |late|
    decreases t, 1, n, 0
  {
    if r1.Failed? && n > 1 then TriesHappen(t, n - 1, ctx, canc, tr[k..], late[m..], r)
    else k == |tr| && m == |late| && r == r1
  }

  ghost predicate AtOnceHappens(ts: seq<Tree>, ctx: Context, canc: Cancellation, tr: Trace, late: Trace, r: Result)
    decreases ts, 1
  {
    || (MayBeDone(ctx, canc) && tr == [] && late == [] && r == Returned(None))
    || exists bs, gs :: BranchesRun(ts, ctx, canc, bs) && Interleaves(tr, bs) && Joined(bs, MayBeDone(ctx, canc), r)
                        && GoOn(ts, ctx, Stopped(canc), bs, gs) && (r.Returned? ==> Through(bs, gs))
                        && late == Leftovers(bs, gs)
  }

  /** No child has anything left to do. */
  predicate Through(bs: seq<Branch>, gs: seq<Going>) {
    |bs| == |gs| && forall i :: 0 <= i < |bs| ==> gs[i].whole == bs[i].part
  }

  ghost predicate GoOn(ts: seq<Tree>, ctx: Context, canc: Cancellation, bs: seq<Branch>, gs: seq<Going>)
    decreases ts, 0
  {
    if ts == [] then bs == [] && gs == []
    else
      && bs != [] && gs != [] && Happens(ts[0], ctx, canc, gs[0].whole, gs[0].own, gs[0].r)
      && bs[0].part <= gs[0].whole && |bs[0].part| <= gs[0].seen <= |gs[0].whole|
      && GoOn(ts[1..], ctx, canc, bs[1..], gs[1..])
  }

  // ---- the first parts

  lemma FirstHappens(ts: seq<Tree>, ctx: Context, canc: Cancellation, tr: Trace, late: Trace, r: Result)
    returns (k: nat, m: nat, r1: Result)
    requires ts != [] && InOrderHappens(ts, ctx, canc, tr, late, r)
    requires !(MayBeDone(ctx, canc) && tr == [] && late == [] && r == Failed(Cancelled))
    ensures k <= |tr| && m <= |late| && Happens(ts[0], ctx, canc, tr[..k], late[..m], r1)
    ensures HappensOn(ts, ctx, canc, tr, late, r, k, m, r1)
  {
    k, m, r1 :| 0 <= k <= |tr| && 0 <= m <= |late| && Happens(ts[0], ctx, canc, tr[..k], late[..m], r1)
                && HappensOn(ts, ctx, canc, tr, late, r, k, m, r1);
  }

  lemma FirstTry(t: Tree, n: nat, ctx: Context, canc: Cancellation, tr: Trace, late: Trace, r: Result)
    returns (k: nat, m: nat, r1: Result)
    requires n > 0 && TriesHappen(t, n, ctx, canc, tr, late, r)
    ensures k <= |tr| && m <= |late| && Happens(t, ctx, canc, tr[..k], late[..m], r1)
    ensures TryAgain(t, n, ctx, canc, tr, late, r, k, m, r1)
  {
    k, m, r1 :| 0 <= k <= |tr| && 0 <= m <= |late| && Happens(t, ctx, canc, tr[..k], late[..m], r1)
                && TryAgain(t, n, ctx, canc, tr, late, r, k, m, r1);
  }

  /** The run behind a guard, and the one behind bounds. */
  lemma InnerHappens(t: Tree, ctx: Context, canc: Cancellation, tr: Trace, late: Trace, r: Result) returns (r1: Result)
    requires (t.Safeguard? && ctx.logger.Some?) || t.Bounds?
    requires Happens(t, ctx, canc, tr, late, r)
    ensures Happens(t.child, ctx, canc, tr, late, r1)
    ensures r == if t.Safeguard? then (if r1.Failed? then Returned(None) else r1)
                 else if r1.Failed? then r1 else Returned(None)
  {
    if t.Safeguard? {
      r1 :| Happens(t.child, ctx, canc, tr, late, r1) && r == if r1.Failed? then Returned(None) else r1;
    } else {
      r1 :| Happens(t.child, ctx, canc, tr, late, r1) && r == if r1.Failed? then r1 else Returned(None);
    }
  }

  lemma ChildrenHappen(ts: seq<Tree>, ctx: Context, canc: Cancellation, tr: Trace, late: Trace, r: Result)
    returns (bs: seq<Branch>, gs: seq<Going>)
    requires AtOnceHappens(ts, ctx, canc, tr, late, r)
    requires !(MayBeDone(ctx, canc) && tr == [] && late == [] && r == Returned(None))
    ensures BranchesRun(ts, ctx, canc, bs) && Interleaves(tr, bs) && Joined(bs, MayBeDone(ctx, canc), r)
    ensures GoOn(ts, ctx, Stopped(canc), bs, gs) && (r.Returned? ==> Through(bs, gs)) && late == Leftovers(bs, gs)
  {
    bs, gs :| BranchesRun(ts, ctx, canc, bs) && Interleaves(tr, bs) && Joined(bs, MayBeDone(ctx, canc), r)
              && GoOn(ts, ctx, Stopped(canc), bs, gs) && (r.Returned? ==> Through(bs, gs)) && late == Leftovers(bs, gs);
  }

  // ---- without the later events these are the runs

  lemma {:induction false} HappensIsRun(t: Tree, ctx: Context, canc: Cancellation, tr: Trace, late: Trace, r: Result)
    requires Happens(t, ctx, canc, tr, late, r)
    ensures Runs(t, ctx, canc, tr, r)
    decreases t, 0
  {
    match t
    case Leaf(_, _) =>
    case Group(_, kind, children) =>
      if !IsParallel(kind) {
        InOrderIsRun(children, ctx, canc, tr, late, r);
      }
    case Safeguard(_, child) =>
      if ctx.logger.Some? {
        var r1 := InnerHappens(t, ctx, canc, tr, late, r);
        HappensIsRun(child, ctx, canc, tr, late, r1);
      }
    case Bounds(_, child) =>
      var r1 := InnerHappens(t, ctx, canc, tr, late, r);
      HappensIsRun(child, ctx, canc, tr, late, r1);
    case Retry(_, child, n) =>
      if ctx.logger.Some? {
        TriesAreRun(child, n, ctx, canc, tr, late, r);
      }
    case Probe(id, child, _) => HappensIsRun(child, Watched(ctx, id), canc, tr[1..|tr| - 1], late, r);
  }

  lemma {:induction false} InOrderIsRun(ts: seq<Tree>, ctx: Context, canc: Cancellation, tr: Trace, late: Trace,
                                        r: Result)
    requires InOrderHappens(ts, ctx, canc, tr, late, r)
    ensures SequentialRuns(ts, ctx, canc, tr, r)
    decreases ts, 1
  {
    if ts != [] && !(MayBeDone(ctx, canc) && tr == [] && late == [] && r == Failed(Cancelled)) {
      var k, m, r1 := FirstHappens(ts, ctx, canc, tr, late, r);
      HappensIsRun(ts[0], ctx, canc, tr[..k], late[..m], r1);
      if r1.Returned? {
        InOrderIsRun(ts[1..], Passed(r1, ctx), canc, tr[k..], late[m..], r);
      }
      StepsJoin(ts, ctx, canc, tr[..k], r1, tr[k..], r);
      assert tr[..k] + tr[k..] == tr;
    }
  }

  lemma {:induction false} TriesAreRun(t: Tree, n: nat, ctx: Context, canc: Cancellation, tr: Trace, late: Trace,
                                       r: Result)
    requires TriesHappen(t, n, ctx, canc, tr, late, r)
    ensures RetryRuns(t, n, ctx, canc, tr, r)
    decreases t, 1, n
  {
    if n > 0 {
      var k, m, r1 := FirstTry(t, n, ctx, canc, tr, late, r);
      HappensIsRun(t, ctx, canc, tr[..k], late[..m], r1);
      if r1.Failed? && n > 1 {
        TriesAreRun(t, n - 1, ctx, canc, tr[k..], late[m..], r);
      }
      AttemptsJoin(t, n, ctx, canc, tr[..k], r1, tr[k..], r);
      assert tr[..k] + tr[k..] == tr;
    }
  }

  // ---- and every run happens, with nothing after its groups, or with all that its branches have left to do

  lemma HappensInOrder(ts: seq<Tree>, ctx: Context, canc: Cancellation, first: Trace, r1: Result, rest: Trace,
                       r: Result)
    requires ts != [] && Happens(ts[0], ctx, canc, first, [], r1)
    requires if r1.Failed? then rest == [] && r == r1
             else InOrderHappens(ts[1..], Passed(r1, ctx), canc, rest, [], r)
    ensures InOrderHappens(ts, ctx, canc, first + rest, [], r)
  {
    var tr, late: Trace := first + rest, [];
    assert tr[..|first|] == first && tr[|first|..] == rest && late[..0] == [] && late[0..] == [];
    assert HappensOn(ts, ctx, canc, tr, late, r, |first|, 0, r1);
  }

  lemma HappensAgain(t: Tree, n: nat, ctx: Context, canc: Cancellation, first: Trace, r1: Result, rest: Trace,
                     r: Result)
    requires n > 0 && Happens(t, ctx, canc, first, [], r1)
    requires if r1.Failed? && n > 1 then TriesHappen(t, n - 1, ctx, canc, rest, [], r) else rest == [] && r == r1
    ensures TriesHappen(t, n, ctx, canc, first + rest, [], r)
  {
    var tr, late: Trace := first + rest, [];
    assert tr[..|first|] == first && tr[|first|..] == rest && late[..0] == [] && late[0..] == [];
    assert TryAgain(t, n, ctx, canc, tr, late, r, |first|, 0, r1);
  }

  /** A run is one that happens, also if its context may be done in more ways. */
  lemma {:induction false} RunHappens(t: Tree, ctx: Context, canc: Cancellation, more: Cancellation, tr: Trace,
                                      r: Result)
    requires Runs(t, ctx, canc, tr, r) && (more == canc || more == Stopped(canc))
    ensures Happens(t, ctx, more, tr, [], r)
    decreases t, 0
  {
    match t
    case Leaf(_, _) =>
    case Group(_, kind, children) =>
      if IsParallel(kind) {
        AtOnceRunHappens(children, ctx, canc, more, tr, r);
      } else {
        InOrderRunHappens(children, ctx, canc, more, tr, r);
      }
    case Safeguard(id, child) =>
      if ctx.logger.Some? {
        var r1 := GuardedRun(id, child, ctx, canc, tr, r);
        RunHappens(child, ctx, canc, more, tr, r1);
      }
    case Bounds(id, child) =>
      var r1 := BoundedRun(id, child, ctx, canc, tr, r);
      RunHappens(child, ctx, canc, more, tr, r1);
    case Retry(_, child, n) =>
      if ctx.logger.Some? {
        RetryRunHappens(child, n, ctx, canc, more, tr, r);
      }
    case Probe(id, child, _) => RunHappens(child, Watched(ctx, id), canc, more, tr[1..|tr| - 1], r);
  }

  lemma {:induction false} InOrderRunHappens(ts: seq<Tree>, ctx: Context, canc: Cancellation, more: Cancellation,
                                             tr: Trace, r: Result)
    requires SequentialRuns(ts, ctx, canc, tr, r) && (more == canc || more == Stopped(canc))
    ensures InOrderHappens(ts, ctx, more, tr, [], r)
    decreases ts, 1
  {
    if ts != [] && !(MayBeDone(ctx, canc) && tr == [] && r == Failed(Cancelled)) {
      var k, r1 := FirstRun(ts, ctx, canc, tr, r);
      RunHappens(ts[0], ctx, canc, more, tr[..k], r1);
      if r1.Returned? {
        InOrderRunHappens(ts[1..], Passed(r1, ctx), canc, more, tr[k..], r);
      }
      HappensInOrder(ts, ctx, more, tr[..k], r1, tr[k..], r);
      assert tr[..k] + tr[k..] == tr;
    }
  }

  lemma {:induction false} RetryRunHappens(t: Tree, n: nat, ctx: Context, canc: Cancellation, more: Cancellation,
                                           tr: Trace, r: Result)
    requires RetryRuns(t, n, ctx, canc, tr, r) && (more == canc || more == Stopped(canc))
    ensures TriesHappen(t, n, ctx, more, tr, [], r)
    decreases t, 1, n
  {
    if n > 0 {
      var k, r1 := FirstAttempt(t, n, ctx, canc, tr, r);
      RunHappens(t, ctx, canc, more, tr[..k], r1);
      if r1.Failed? && n > 1 {
        RetryRunHappens(t, n - 1, ctx, canc, more, tr[k..], r);
      }
      HappensAgain(t, n, ctx, more, tr[..k], r1, tr[k..], r);
      assert tr[..k] + tr[k..] == tr;
    }
  }

  lemma {:induction false} AtOnceRunHappens(ts: seq<Tree>, ctx: Context, canc: Cancellation, more: Cancellation,
                                            tr: Trace, r: Result)
    requires ParallelRuns(ts, ctx, canc, tr, r) && (more == canc || more == Stopped(canc))
    ensures AtOnceHappens(ts, ctx, more, tr, [], r)
    decreases ts, 1
  {
    if !(MayBeDone(ctx, canc) && tr == [] && r == Returned(None)) {
      var bs: seq<Branch> :| BranchesRun(ts, ctx, canc, bs) && Interleaves(tr, bs)
                             && Joined(bs, MayBeDone(ctx, canc), r);
      BranchesHappen(ts, ctx, canc, more, bs);
      var gs := Goings(bs, false);
      NothingLeft(bs);
      assert AtOnceHappens(ts, ctx, more, tr, Leftovers(bs, gs), r);
    }
  }

  /** The children's runs as they are: each goes on until its end, or stops where its group returned. */
  function Goings(bs: seq<Branch>, on: bool): (gs: seq<Going>)
    ensures |gs| == |bs|
    ensures forall i :: 0 <= i < |bs| ==> gs[i].whole == bs[i].full
  {
    if bs == [] then []
    else [Going(bs[0].full, |if on then bs[0].full else bs[0].part|, [], bs[0].r)] + Goings(bs[1..], on)
  }

  lemma {:induction false} NothingLeft(bs: seq<Branch>)
    ensures Leftovers(bs, Goings(bs, false)) == []
    decreases |bs|
  {
    if bs != [] {
      NothingLeft(bs[1..]);
      assert Goings(bs, false)[1..] == Goings(bs[1..], false);
    }
  }

  lemma {:induction false} BranchesHappen(ts: seq<Tree>, ctx: Context, canc: Cancellation, more: Cancellation,
                                          bs: seq<Branch>)
    requires BranchesRun(ts, ctx, canc, bs) && (more == canc || more == Stopped(canc))
    ensures BranchesRun(ts, ctx, more, bs)
    ensures forall on :: GoOn(ts, ctx, Stopped(more), bs, Goings(bs, on))
    decreases ts, 0
  {
    if ts != [] {
      var b := bs[0];
      RunHappens(ts[0], ctx, canc, more, b.full, b.r);
      HappensIsRun(ts[0], ctx, more, b.full, [], b.r);
      RunHappens(ts[0], ctx, canc, Stopped(canc), b.full, b.r);
      BranchesHappen(ts[1..], ctx, canc, more, bs[1..]);
      forall on: bool ensures GoOn(ts, ctx, Stopped(more), bs, Goings(bs, on)) {
        var gs := Goings(bs, on);
        assert gs[1..] == Goings(bs[1..], on);
      }
    }
  }

  /** What the branches of a group have not done when it returns. */
  function Rests(bs: seq<Branch>): Trace {
    if bs == [] then []
    else (if |bs[0].part| <= |bs[0].full| then bs[0].full[|bs[0].part|..] else []) + Rests(bs[1..])
  }

  lemma {:induction false} RestsLeft(bs: seq<Branch>)
    ensures Leftovers(bs, Goings(bs, true)) == Rests(bs)
    decreases |bs|
  {
    if bs != [] {
      var b := bs[0];
      var g, others := Going(b.full, |b.full|, [], b.r), Goings(bs[1..], true);
      RestsLeft(bs[1..]);
      LeftoversCons(b, bs[1..], g, others);
      assert bs == [b] + bs[1..] && Goings(bs, true) == [g] + others;
      WholeRest(b, g);
    }
  }

  lemma WholeRest(b: Branch, g: Going)
    requires g.whole == b.full && g.seen == |b.full|
    ensures Rest(b, g) == if |b.part| <= |b.full| then b.full[|b.part|..] else []
  {
  }

  lemma LeftoversCons(b: Branch, bs: seq<Branch>, g: Going, gs: seq<Going>)
    ensures Leftovers([b] + bs, [g] + gs) == Rest(b, g) + g.own + Leftovers(bs, gs)
  {
    assert ([b] + bs)[1..] == bs && ([g] + gs)[1..] == gs;
  }

  /** When a parallel group fails, everything its branches have left to do may still happen. */
  lemma RestsHappen(ts: seq<Tree>, ctx: Context, canc: Cancellation, bs: seq<Branch>, tr: Trace, r: Result)
    requires BranchesRun(ts, ctx, canc, bs) && Interleaves(tr, bs) && Joined(bs, MayBeDone(ctx, canc), r) && r.Failed?
    ensures AtOnceHappens(ts, ctx, canc, tr, Rests(bs), r)
  {
    BranchesHappen(ts, ctx, canc, canc, bs);
    RestsLeft(bs);
    assert GoOn(ts, ctx, Stopped(canc), bs, Goings(bs, true));
  }

  // ---- how often steps happen

  /** A late event does not add to what the retries allow: both together stay below the bound of all runs. */
  lemma {:induction false} LateCount(t: Tree, ctx: Context, canc: Cancellation, tr: Trace, late: Trace, r: Result,
                                     what: What)
    requires Happens(t, ctx, canc, tr, late, r)
    ensures Count(tr, what) + Count(late, what) <= Most(t, what)
    decreases t, 0
  {
    match t
    case Leaf(_, a) => assert tr[1..] == [];
    case Group(_, kind, children) =>
      if !IsParallel(kind) {
        LateCountInOrder(children, ctx, canc, tr, late, r, what);
      } else if !(MayBeDone(ctx, canc) && tr == [] && late == [] && r == Returned(None)) {
        var bs, gs := ChildrenHappen(children, ctx, canc, tr, late, r);
        LateCountAtOnce(children, ctx, Stopped(canc), bs, gs, tr, what);
      }
    case Safeguard(_, child) =>
      if ctx.logger.Some? {
        var r1 := InnerHappens(t, ctx, canc, tr, late, r);
        LateCount(child, ctx, canc, tr, late, r1, what);
      } else {
        assert tr[1..] == [];
      }
    case Bounds(_, child) =>
      var r1 := InnerHappens(t, ctx, canc, tr, late, r);
      LateCount(child, ctx, canc, tr, late, r1, what);
    case Retry(_, child, n) =>
      if ctx.logger.Some? {
        LateCountTries(child, n, ctx, canc, tr, late, r, what);
      } else {
        assert tr[1..] == [];
      }
    case Probe(id, child, _) =>
      LateCount(child, Watched(ctx, id), canc, tr[1..|tr| - 1], late, r, what);
      CountInner(tr, what);
  }

  lemma {:induction false} LateCountInOrder(ts: seq<Tree>, ctx: Context, canc: Cancellation, tr: Trace, late: Trace,
                                            r: Result, what: What)
    requires InOrderHappens(ts, ctx, canc, tr, late, r)
    ensures Count(tr, what) + Count(late, what) <= MostAll(ts, what)
    decreases ts, 1
  {
    if ts != [] && !(MayBeDone(ctx, canc) && tr == [] && late == [] && r == Failed(Cancelled)) {
      var k, m, r1 := FirstHappens(ts, ctx, canc, tr, late, r);
      LateCount(ts[0], ctx, canc, tr[..k], late[..m], r1, what);
      CountCut(tr, k, what);
      CountCut(late, m, what);
      if r1.Returned? {
        LateCountInOrder(ts[1..], Passed(r1, ctx), canc, tr[k..], late[m..], r, what);
      }
    }
  }

  lemma {:induction false} LateCountTries(t: Tree, n: nat, ctx: Context, canc: Cancellation, tr: Trace, late: Trace,
                                          r: Result, what: What)
    requires TriesHappen(t, n, ctx, canc, tr, late, r)
    ensures Count(tr, what) + Count(late, what) <= n * Most(t, what)
    decreases t, 1, n
  {
    if n > 0 {
      var k, m, r1 := FirstTry(t, n, ctx, canc, tr, late, r);
      LateCount(t, ctx, canc, tr[..k], late[..m], r1, what);
      CountCut(tr, k, what);
      CountCut(late, m, what);
      OneLess(n, Most(t, what));
      if r1.Failed? && n > 1 {
        LateCountTries(t, n - 1, ctx, canc, tr[k..], late[m..], r, what);
      }
    }
  }

  lemma {:induction false} LateCountAtOnce(ts: seq<Tree>, ctx: Context, canc: Cancellation, bs: seq<Branch>,
                                           gs: seq<Going>, tr: Trace, what: What)
    requires GoOn(ts, ctx, canc, bs, gs) && Interleaves(tr, bs)
    ensures Count(tr, what) + Count(Leftovers(bs, gs), what) <= MostAll(ts, what)
    decreases ts, 0
  {
    if ts != [] {
      var b, g := bs[0], gs[0];
      var rest :| Interleaves(rest, bs[1..]) && Shuffle(tr, b.part, rest);
      CountShuffle(tr, b.part, rest, what);
      LateCount(ts[0], ctx, canc, g.whole, g.own, g.r, what);
      CountOfChild(b, g, what);
      LateCountAtOnce(ts[1..], ctx, canc, bs[1..], gs[1..], rest, what);
      CountConcat(Rest(b, g) + g.own, Leftovers(bs[1..], gs[1..]), what);
      CountConcat(Rest(b, g), g.own, what);
    }
  }

  lemma CountOfChild(b: Branch, g: Going, what: What)
    requires b.part <= g.whole && |b.part| <= g.seen <= |g.whole|
    ensures Count(b.part, what) + Count(Rest(b, g), what) <= Count(g.whole, what)
  {
    CountCut(g.whole, g.seen, what);
    CountConcat(b.part, Rest(b, g), what);
    assert g.whole[..g.seen] == b.part + Rest(b, g);
  }

  /** With what comes after its groups have returned, a command takes no step more often than the retries allow. */
  lemma AllStepsAreBounded(cmd: Command, n: nat, ctx: Context, canc: Cancellation, tr: Trace, late: Trace, r: Result,
                           a: Action)
    requires VisitCommand(cmd, n).Visited? && Happens(VisitCommand(cmd, n).node, ctx, canc, tr, late, r)
    ensures Count(tr, Taking(a)) + Count(late, Taking(a)) <= MostOf(cmd, a)
  {
    LateCount(VisitCommand(cmd, n).node, ctx, canc, tr, late, r, Taking(a));
    MostOfCommand(cmd, n, a);
  }

  /** Nothing in pre or post ever runs remotely, not even after its groups have returned. */
  lemma PreAndPostStayLocalLate(cmd: Command, n: nat, ctx: Context, canc: Cancellation, tr: Trace, late: Trace,
                                r: Result, text: string)
    requires VisitCommand(Localized(cmd), n).Visited?
    requires Happens(VisitCommand(Localized(cmd), n).node, ctx, canc, tr, late, r)
    ensures Count(tr, Taking(Remote(text))) == 0 && Count(late, Taking(Remote(text))) == 0
  {
    AllStepsAreBounded(Localized(cmd), n, ctx, canc, tr, late, r, Remote(text));
    LocalizedNeverRemote(cmd, text);
  }

  // ---- nothing is lacking late

  lemma {:induction false} LateSound(t: Tree, keys: set<Key>, ctx: Context, canc: Cancellation, tr: Trace, late: Trace,
                                     r: Result)
    requires Safe(t, keys) && Provides(ctx, keys) && Happens(t, ctx, canc, tr, late, r)
    ensures LacksNothing(late)
    decreases t, 0
  {
    match t
    case Leaf(_, _) =>
    case Group(_, kind, children) =>
      if !IsParallel(kind) {
        LateSoundInOrder(children, keys, ctx, canc, tr, late, r);
      } else if !(MayBeDone(ctx, canc) && tr == [] && late == [] && r == Returned(None)) {
        var bs, gs := ChildrenHappen(children, ctx, canc, tr, late, r);
        LateSoundAtOnce(children, keys, ctx, Stopped(canc), bs, gs);
      }
    case Safeguard(_, child) =>
      var r1 := InnerHappens(t, ctx, canc, tr, late, r);
      LateSound(child, keys, ctx, canc, tr, late, r1);
    case Bounds(_, child) =>
      var r1 := InnerHappens(t, ctx, canc, tr, late, r);
      LateSound(child, keys, ctx, canc, tr, late, r1);
    case Retry(_, child, n) => LateSoundTries(child, n, keys, ctx, canc, tr, late, r);
    case Probe(id, child, _) => LateSound(child, keys, Watched(ctx, id), canc, tr[1..|tr| - 1], late, r);
  }

  lemma {:induction false} LateSoundInOrder(ts: seq<Tree>, keys: set<Key>, ctx: Context, canc: Cancellation, tr: Trace,
                                            late: Trace, r: Result)
    requires SafeInOrder(ts, keys) && Provides(ctx, keys) && InOrderHappens(ts, ctx, canc, tr, late, r)
    ensures LacksNothing(late)
    decreases ts, 1
  {
    if ts != [] && !(MayBeDone(ctx, canc) && tr == [] && late == [] && r == Failed(Cancelled)) {
      var k, m, r1 := FirstHappens(ts, ctx, canc, tr, late, r);
      LateSound(ts[0], keys, ctx, canc, tr[..k], late[..m], r1);
      assert late == late[..m] + late[m..];
      if r1.Returned? {
        HappensIsRun(ts[0], ctx, canc, tr[..k], late[..m], r1);
        Sound(ts[0], keys, ctx, canc, tr[..k], r1);
        LateSoundInOrder(ts[1..], KeysAfter(ts[0], keys), Passed(r1, ctx), canc, tr[k..], late[m..], r);
      }
    }
  }

  lemma {:induction false} LateSoundTries(t: Tree, n: nat, keys: set<Key>, ctx: Context, canc: Cancellation, tr: Trace,
                                          late: Trace, r: Result)
    requires Safe(t, keys) && Provides(ctx, keys) && TriesHappen(t, n, ctx, canc, tr, late, r)
    ensures LacksNothing(late)
    decreases t, 1, n
  {
    if n > 0 {
      var k, m, r1 := FirstTry(t, n, ctx, canc, tr, late, r);
      LateSound(t, keys, ctx, canc, tr[..k], late[..m], r1);
      assert late == late[..m] + late[m..];
      if r1.Failed? && n > 1 {
        LateSoundTries(t, n - 1, keys, ctx, canc, tr[k..], late[m..], r);
      }
    }
  }

  lemma {:induction false} LateSoundAtOnce(ts: seq<Tree>, keys: set<Key>, ctx: Context, canc: Cancellation,
                                           bs: seq<Branch>, gs: seq<Going>)
    requires (forall t :: t in ts ==> Safe(t, keys)) && Provides(ctx, keys) && GoOn(ts, ctx, canc, bs, gs)
    ensures LacksNothing(Leftovers(bs, gs))
    decreases ts, 0
  {
    if ts != [] {
      var g := gs[0];
      LateSound(ts[0], keys, ctx, canc, g.whole, g.own, g.r);
      HappensIsRun(ts[0], ctx, canc, g.whole, g.own, g.r);
      Sound(ts[0], keys, ctx, canc, g.whole, g.r);
      LateSoundAtOnce(ts[1..], keys, ctx, canc, bs[1..], gs[1..]);
    }
  }

  /** No step of a job ever lacks anything, not even one taken after its group has returned. */
  lemma JobNeverLacks(c: Config, canc: Cancellation, tr: Trace, late: Trace, r: Result)
    requires VisitConfig(c).Visited? && Happens(VisitConfig(c).node, NOTHING, canc, tr, late, r)
    ensures LacksNothing(tr) && LacksNothing(late)
  {
    hide VisitConfig;
    HappensIsRun(VisitConfig(c).node, NOTHING, canc, tr, late, r);
    JobLacksNothing(c, canc, tr, r);
    ConfigIsSafe(c);
    LateSound(VisitConfig(c).node, {}, NOTHING, canc, tr, late, r);
  }

  // ---- late commands serve their host too

  ghost predicate AllInScope(ctx: Context, tr: Trace) {
    forall e :: e in tr && e.Did? ==> SameScope(e.ctx, ctx)
  }

  lemma {:induction false} LateStaysInScope(t: Tree, ctx: Context, canc: Cancellation, tr: Trace, late: Trace,
                                            r: Result)
    requires OnlyCommands(t) && Happens(t, ctx, canc, tr, late, r)
    ensures AllInScope(ctx, late)
    decreases t, 0
  {
    match t
    case Leaf(_, _) =>
    case Group(_, kind, children) =>
      if !IsParallel(kind) {
        LateInOrderInScope(children, ctx, canc, tr, late, r);
      } else if !(MayBeDone(ctx, canc) && tr == [] && late == [] && r == Returned(None)) {
        var bs, gs := ChildrenHappen(children, ctx, canc, tr, late, r);
        LateAtOnceInScope(children, ctx, Stopped(canc), bs, gs);
      }
    case Safeguard(_, child) =>
      if ctx.logger.Some? {
        var r1 := InnerHappens(t, ctx, canc, tr, late, r);
        LateStaysInScope(child, ctx, canc, tr, late, r1);
      }
    case Bounds(_, child) =>
      var r1 := InnerHappens(t, ctx, canc, tr, late, r);
      LateStaysInScope(child, ctx, canc, tr, late, r1);
    case Retry(_, child, n) =>
      if ctx.logger.Some? {
        LateTriesInScope(child, n, ctx, canc, tr, late, r);
      }
  }

  lemma {:induction false} LateInOrderInScope(ts: seq<Tree>, ctx: Context, canc: Cancellation, tr: Trace, late: Trace,
                                              r: Result)
    requires (forall t :: t in ts ==> OnlyCommands(t)) && InOrderHappens(ts, ctx, canc, tr, late, r)
    ensures AllInScope(ctx, late)
    decreases ts, 1
  {
    if ts != [] && !(MayBeDone(ctx, canc) && tr == [] && late == [] && r == Failed(Cancelled)) {
      var k, m, r1 := FirstHappens(ts, ctx, canc, tr, late, r);
      LateStaysInScope(ts[0], ctx, canc, tr[..k], late[..m], r1);
      assert late == late[..m] + late[m..];
      if r1.Returned? {
        HappensIsRun(ts[0], ctx, canc, tr[..k], late[..m], r1);
        CommandsStayInScope(ts[0], ctx, canc, tr[..k], r1);
        LateInOrderInScope(ts[1..], Passed(r1, ctx), canc, tr[k..], late[m..], r);
      }
    }
  }

  lemma {:induction false} LateTriesInScope(t: Tree, n: nat, ctx: Context, canc: Cancellation, tr: Trace, late: Trace,
                                            r: Result)
    requires OnlyCommands(t) && TriesHappen(t, n, ctx, canc, tr, late, r)
    ensures AllInScope(ctx, late)
    decreases t, 1, n
  {
    if n > 0 {
      var k, m, r1 := FirstTry(t, n, ctx, canc, tr, late, r);
      LateStaysInScope(t, ctx, canc, tr[..k], late[..m], r1);
      assert late == late[..m] + late[m..];
      if r1.Failed? && n > 1 {
        LateTriesInScope(t, n - 1, ctx, canc, tr[k..], late[m..], r);
      }
    }
  }

  lemma {:induction false} LateAtOnceInScope(ts: seq<Tree>, ctx: Context, canc: Cancellation, bs: seq<Branch>,
                                             gs: seq<Going>)
    requires (forall t :: t in ts ==> OnlyCommands(t)) && GoOn(ts, ctx, canc, bs, gs)
    ensures AllInScope(ctx, Leftovers(bs, gs))
    decreases ts, 0
  {
    if ts != [] {
      var g := gs[0];
      LateStaysInScope(ts[0], ctx, canc, g.whole, g.own, g.r);
      HappensIsRun(ts[0], ctx, canc, g.whole, g.own, g.r);
      CommandsStayInScope(ts[0], ctx, canc, g.whole, g.r);
      LateAtOnceInScope(ts[1..], ctx, canc, bs[1..], gs[1..]);
    }
  }

  /** Behind steps without groups, only the last step of a list leaves something for later. */
  lemma {:induction false} OnlyTheLast(ts: seq<Tree>, t: Tree, ctx: Context, canc: Cancellation, tr: Trace, late: Trace,
                                       r: Result)
    returns (k: nat, inner: Context, own: Trace, r1: Result)
    requires (forall s :: s in ts ==> s.Leaf?) && late != [] && InOrderHappens(ts + [t], ctx, canc, tr, late, r)
    ensures k <= |tr| && SequentialRuns(ts, ctx, canc, tr[..k], Returned(Some(inner)))
    ensures Happens(t, inner, canc, own, late, r1)
    decreases |ts|
  {
    var all := ts + [t];
    var j, m, r0 := FirstHappens(all, ctx, canc, tr, late, r);
    if ts == [] {
      assert all[1..] == [] && late[..|late|] == late;
      k, inner, own, r1 := 0, ctx, tr[..j], r0;
    } else {
      assert all[0] == ts[0] && all[1..] == ts[1..] + [t] && late[0..] == late;
      var i;
      i, inner, own, r1 := OnlyTheLast(ts[1..], t, Passed(r0, ctx), canc, tr[j..], late, r);
      k := j + i;
      StepsJoin(ts, ctx, canc, tr[..j], r0, tr[j..][..i], Returned(Some(inner)));
      assert tr[..k] == tr[..j] + tr[j..][..i];
    }
  }

  lemma ConnectIsLeaves(c: Config, cmd: Command, h: Host, n: nat)
    requires Connect(c, cmd, h, n).Visited?
    ensures forall t :: t in Connect(c, cmd, h, n).node ==> t.Leaf?
  {
  }

  /** What the host's own steps leave behind serves the host. */
  lemma PreparedForHost(c: Config, cmd: Command, h: Host, n: nat, own: seq<Tree>, ctx: Context, canc: Cancellation,
                        tr: Trace, inner: Context)
    requires Connect(c, cmd, h, n).Visited?
    requires |own| == 2 && own[0].Leaf? && own[0].action == HostLogger(h)
    requires own[1].Leaf? && own[1].action == Templating(Some(h))
    requires SequentialRuns(own + Connect(c, cmd, h, n).node, ctx, canc, tr, Returned(Some(inner)))
    ensures Serves(inner, h, IsRemote(cmd))
  {
    hide SequentialRuns, Connect;
    var k, r1 := SplitRun(own, Connect(c, cmd, h, n).node, ctx, canc, tr, Returned(Some(inner)));
    OwnStepsServe(own, h, ctx, canc, tr[..k], r1);
    ConnectServes(c, cmd, h, n, r1.ctx.value, canc, tr[k..], Returned(Some(inner)));
  }

  /**
   Every command of a host's group runs for that host, also one that goes on after its group has returned, beside
   what the host, the other hosts or post do then.
   */
  lemma AllCommandsServeTheirHost(c: Config, cmd: Command, m: nat, h: Host, n: nat, ctx: Context, canc: Cancellation,
                                  tr: Trace, late: Trace, r: Result)
    requires VisitCommand(cmd, m).Visited? && VisitHost(c, cmd, VisitCommand(cmd, m).node, h, n).Visited?
    requires Happens(Guarded(VisitHost(c, cmd, VisitCommand(cmd, m).node, h, n).node), ctx, canc, tr, late, r)
    ensures forall e :: e in tr + late && e.Did? && IsCommand(e.a) ==> Serves(e.ctx, h, IsRemote(cmd))
  {
    var t := VisitCommand(cmd, m).node;
    var group := Guarded(VisitHost(c, cmd, t, h, n).node);
    HappensIsRun(group, ctx, canc, tr, late, r);
    CommandsServeTheirHost(c, cmd, m, h, n, ctx, canc, tr, r);
    if late != [] {
      var own := [Leaf(n + 2, HostLogger(h)), Leaf(n + 3, Templating(Some(h)))];
      var connect := Connect(c, cmd, h, n + 3).node;
      assert group.children == own + connect + [t];
      LateServes(c, cmd, m, h, n + 3, own, ctx, canc, tr, late, r);
    }
  }

  lemma LateServes(c: Config, cmd: Command, m: nat, h: Host, n: nat, own: seq<Tree>, ctx: Context, canc: Cancellation,
                   tr: Trace, late: Trace, r: Result)
    requires VisitCommand(cmd, m).Visited? && Connect(c, cmd, h, n).Visited? && late != []
    requires |own| == 2 && own[0].Leaf? && own[0].action == HostLogger(h)
    requires own[1].Leaf? && own[1].action == Templating(Some(h))
    requires InOrderHappens(own + Connect(c, cmd, h, n).node + [VisitCommand(cmd, m).node], ctx, canc, tr, late, r)
    ensures forall e :: e in late && e.Did? ==> Serves(e.ctx, h, IsRemote(cmd))
  {
    hide InOrderHappens, SequentialRuns, Happens, VisitCommand, Connect;
    var t := VisitCommand(cmd, m).node;
    ConnectIsLeaves(c, cmd, h, n);
    var k, inner, done, r1 := OnlyTheLast(own + Connect(c, cmd, h, n).node, t, ctx, canc, tr, late, r);
    PreparedForHost(c, cmd, h, n, own, ctx, canc, tr[..k], inner);
    CommandTreesOnly(cmd, m);
    LateStaysInScope(t, inner, canc, done, late, r1);
  }
}
