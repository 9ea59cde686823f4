/**
 How the events of an instrumented job nest. Without parallel groups the log of every run is a word of
 brackets, nested like the tree. With them, the log of a run in which nothing fails keeps everything a node
 logs, and all below it, between the node's start and its end.
 */
module JobNesting {
  import opened Options
  import opened JobVisit
  import opened JobRuns
  import opened JobProbes

  // ---- brackets

  /** A node that has started and not ended. */
  datatype Opening = Opening(at: seq<nat>, id: nat)

  /** at is the place of a child of the innermost open node. */
  predicate Fits(at: seq<nat>, open: seq<Opening>) {
    open == [] || (var top := open[|open| - 1].at; |at| == |top| + 1 && top <= at)
  }

  /** The nodes open after tr, if each start fits and each end or failure closes the innermost open node. */
  function Nest(tr: Trace, open: seq<Opening>): Option<seq<Opening>>
    decreases |tr|
  {
    if tr == [] then Some(open)
    else if !tr[0].Note? then Nest(tr[1..], open)
    else if tr[0].mark.Start? then
      if Fits(tr[0].at, open) then Nest(tr[1..], open + [Opening(tr[0].at, tr[0].id)]) else None
    else if open != [] && open[|open| - 1] == Opening(tr[0].at, tr[0].id) then Nest(tr[1..], open[..|open| - 1])
    else None
  }

  lemma {:induction false} NestConcat(a: Trace, b: Trace, open: seq<Opening>)
    requires Nest(a, open).Some?
    ensures Nest(a + b, open) == Nest(b, Nest(a, open).value)
    decreases |a|
  {
    if a == [] {
      assert a + b == b;
    } else {
      assert (a + b)[1..] == a[1..] + b;
      if !a[0].Note? {
        NestConcat(a[1..], b, open);
      } else if a[0].mark.Start? {
        NestConcat(a[1..], b, open + [Opening(a[0].at, a[0].id)]);
      } else {
        NestConcat(a[1..], b, open[..|open| - 1]);
      }
    }
  }

  predicate NoParallel(t: Tree)
    decreases t
  {
    match t
    case Leaf(_, _) => true
    case Group(_, kind, children) => !IsParallel(kind) && forall c :: c in children ==> NoParallel(c)
    case Safeguard(_, child) => NoParallel(child)
    case Bounds(_, child) => NoParallel(child)
    case Retry(_, child, _) => NoParallel(child)
    case Probe(_, child, _) => NoParallel(child)
  }

  /** The log of a run, whatever fails, is retried or is cancelled, opens and closes brackets as the tree nests. */
  lemma {:induction false} LogNests(t: Tree, at: seq<nat>, ctx: Context, canc: Cancellation, tr: Trace, r: Result,
                                    open: seq<Opening>)
    requires Plain(t) && NoParallel(t) && Runs(Instrumented(t, at), ctx, canc, tr, r) && Fits(at, open)
    ensures Nest(tr, open) == Some(open)
    decreases t, 1
  {
    hide Nest;
    OpenedNests(t, at, Watched(ctx, t.id), canc, tr[1..|tr| - 1], r, open + [Opening(at, t.id)]);
    BracketNests(tr, at, t.id, open);
  }

  lemma BracketNests(tr: Trace, at: seq<nat>, id: nat, open: seq<Opening>)
    requires |tr| >= 2 && tr[0] == Note(at, id, Start) && Fits(at, open)
    requires tr[|tr| - 1] == Note(at, id, End) || tr[|tr| - 1] == Note(at, id, Fail)
    requires Nest(tr[1..|tr| - 1], open + [Opening(at, id)]) == Some(open + [Opening(at, id)])
    ensures Nest(tr, open) == Some(open)
  {
    var inner, last, here := tr[1..|tr| - 1], [tr[|tr| - 1]], open + [Opening(at, id)];
    NestConcat(inner, last, here);
    assert tr[1..] == inner + last;
    assert here[..|here| - 1] == open && last[1..] == [];
  }

  /** Some node in open is at, and innermost. */
  predicate Innermost(at: seq<nat>, open: seq<Opening>) {
    open != [] && open[|open| - 1].at == at
  }

  lemma {:induction false} OpenedNests(t: Tree, at: seq<nat>, ctx: Context, canc: Cancellation, tr: Trace, r: Result,
                                       open: seq<Opening>)
    requires Plain(t) && NoParallel(t) && Runs(Opened(t, at), ctx, canc, tr, r) && Innermost(at, open)
    ensures Nest(tr, open) == Some(open)
    decreases t, 0
  {
    match t
    case Leaf(_, a) => assert tr[1..] == [];
    case Group(_, kind, children) => InOrderNests(children, at, 0, ctx, canc, tr, r, open);
    case Safeguard(id, child) =>
      if ctx.logger.Some? {
        var r1 := GuardedRun(id, Instrumented(child, at + [0]), ctx, canc, tr, r);
        LogNests(child, at + [0], ctx, canc, tr, r1, open);
      } else {
        assert tr[1..] == [];
      }
    case Bounds(id, child) =>
      var r1 := BoundedRun(id, Instrumented(child, at + [0]), ctx, canc, tr, r);
      LogNests(child, at + [0], ctx, canc, tr, r1, open);
    case Retry(_, child, n) =>
      if ctx.logger.Some? {
        RetryNests(child, at, n, ctx, canc, tr, r, open);
      } else {
        assert tr[1..] == [];
      }
  }

  lemma {:induction false} InOrderNests(ts: seq<Tree>, at: seq<nat>, i: nat, ctx: Context, canc: Cancellation,
                                        tr: Trace, r: Result, open: seq<Opening>)
    requires (forall t :: t in ts ==> Plain(t) && NoParallel(t)) && Innermost(at, open)
    requires SequentialRuns(InstrumentedAll(ts, at, i), ctx, canc, tr, r)
    ensures Nest(tr, open) == Some(open)
    decreases ts
  {
    if ts != [] && !(MayBeDone(ctx, canc) && tr == [] && r == Failed(Cancelled)) {
      var k, r1 := FirstRun(InstrumentedAll(ts, at, i), ctx, canc, tr, r);
      LogNests(ts[0], at + [i], ctx, canc, tr[..k], r1, open);
      assert tr == tr[..k] + tr[k..];
      NestConcat(tr[..k], tr[k..], open);
      if r1.Returned? {
        InOrderNests(ts[1..], at, i + 1, Passed(r1, ctx), canc, tr[k..], r, open);
      }
    }
  }

  lemma {:induction false} RetryNests(t: Tree, at: seq<nat>, n: nat, ctx: Context, canc: Cancellation, tr: Trace,
                                      r: Result, open: seq<Opening>)
    requires Plain(t) && NoParallel(t) && Innermost(at, open)
    requires RetryRuns(Instrumented(t, at + [0]), n, ctx, canc, tr, r)
    ensures Nest(tr, open) == Some(open)
    decreases t, 2, n
  {
    if n > 0 {
      var k, r1 := FirstAttempt(Instrumented(t, at + [0]), n, ctx, canc, tr, r);
      LogNests(t, at + [0], ctx, canc, tr[..k], r1, open);
      assert tr == tr[..k] + tr[k..];
      NestConcat(tr[..k], tr[k..], open);
      if r1.Failed? && n > 1 {
        RetryNests(t, at, n - 1, ctx, canc, tr[k..], r, open);
      }
    }
  }

  // ---- intervals

  /** What is logged at q or below it. */
  function LogOf(tr: Trace, q: seq<nat>): Trace {
    if tr == [] then []
    else if tr[0].Note? && q <= tr[0].at then [tr[0]] + LogOf(tr[1..], q)
    else LogOf(tr[1..], q)
  }

  /** Nothing is logged at q or below it, or it is logged between q's only start and q's only end. */
  predicate Enclosed(tr: Trace, q: seq<nat>) {
    var log := LogOf(tr, q);
    log == [] ||
    (&& |log| >= 2
     && IsMark(log[0], q, Start) && IsMark(log[|log| - 1], q, End)
     && forall i :: 0 < i < |log| - 1 ==> log[i].Note? && log[i].at != q)
  }

  predicate IsMark(e: Event, q: seq<nat>, mark: Mark) {
    e.Note? && e.at == q && e.mark == mark
  }

  predicate NothingFails(tr: Trace) {
    forall e :: e in tr && e.Note? ==> !e.mark.Fail?
  }

  /** Everything tr logs is logged at at or below it. */
  predicate Under(tr: Trace, at: seq<nat>) {
    forall e :: e in tr && e.Note? ==> at <= e.at
  }

  /** Everything tr logs is logged below at, at its i-th child or a later one. */
  predicate UnderFrom(tr: Trace, at: seq<nat>, i: nat) {
    forall e :: e in tr && e.Note? ==> at <= e.at && |at| < |e.at| && i <= e.at[|at|]
  }

  lemma {:induction false} LogOfConcat(a: Trace, b: Trace, q: seq<nat>)
    ensures LogOf(a + b, q) == LogOf(a, q) + LogOf(b, q)
    decreases |a|
  {
    if a == [] {
      assert a + b == b;
    } else {
      assert (a + b)[1..] == a[1..] + b;
      LogOfConcat(a[1..], b, q);
    }
  }

  lemma {:induction false} NoLog(tr: Trace, q: seq<nat>)
    requires forall e :: e in tr && e.Note? ==> !(q <= e.at)
    ensures LogOf(tr, q) == []
    decreases |tr|
  {
    if tr != [] {
      assert tr[0] in tr;
      NoLog(tr[1..], q);
    }
  }

  lemma {:induction false} LogOfMembers(tr: Trace, q: seq<nat>)
    ensures forall e :: e in LogOf(tr, q) ==> e in tr && e.Note?
    decreases |tr|
  {
    if tr != [] {
      LogOfMembers(tr[1..], q);
    }
  }

  /** Where only one side of a shuffle logs. */
  lemma {:induction false} LogOfShuffle(tr: Trace, a: Trace, b: Trace, q: seq<nat>)
    requires Shuffle(tr, a, b)
    ensures LogOf(b, q) == [] ==> LogOf(tr, q) == LogOf(a, q)
    ensures LogOf(a, q) == [] ==> LogOf(tr, q) == LogOf(b, q)
    decreases |tr|
  {
    if tr != [] {
      if a != [] && a[0] == tr[0] && Shuffle(tr[1..], a[1..], b) {
        LogOfShuffle(tr[1..], a[1..], b, q);
      } else {
        LogOfShuffle(tr[1..], a, b[1..], q);
      }
    }
  }

  lemma {:induction false} ShuffleMembers(tr: Trace, a: Trace, b: Trace)
    requires Shuffle(tr, a, b)
    ensures forall e :: e in tr <==> e in a || e in b
    decreases |tr|
  {
    if tr != [] {
      assert tr == [tr[0]] + tr[1..];
      if a != [] && a[0] == tr[0] && Shuffle(tr[1..], a[1..], b) {
        assert a == [a[0]] + a[1..];
        ShuffleMembers(tr[1..], a[1..], b);
      } else {
        assert b == [b[0]] + b[1..];
        ShuffleMembers(tr[1..], a, b[1..]);
      }
    }
  }

  lemma LogsUnder(t: Tree, at: seq<nat>, ctx: Context, canc: Cancellation, tr: Trace, r: Result)
    requires Plain(t) && Runs(Instrumented(t, at), ctx, canc, tr, r)
    ensures Under(tr, at)
    decreases t, 1
  {
    var inner := tr[1..|tr| - 1];
    assert tr == [tr[0]] + inner + [tr[|tr| - 1]];
    OpenedLogsUnder(t, at, Watched(ctx, t.id), canc, inner, r);
  }

  lemma {:induction false} OpenedLogsUnder(t: Tree, at: seq<nat>, ctx: Context, canc: Cancellation, tr: Trace,
                                           r: Result)
    requires Plain(t) && Runs(Opened(t, at), ctx, canc, tr, r)
    ensures UnderFrom(tr, at, 0)
    decreases t, 0
  {
    match t
    case Leaf(_, a) =>
    case Group(_, kind, children) =>
      if !IsParallel(kind) {
        InOrderLogsUnder(children, at, 0, ctx, canc, tr, r);
      } else if !(MayBeDone(ctx, canc) && tr == [] && r == Returned(None)) {
        var bs: seq<Branch> :| BranchesRun(InstrumentedAll(children, at, 0), ctx, canc, bs) && Interleaves(tr, bs) &&
            Joined(bs, MayBeDone(ctx, canc), r);
        BranchesLogUnder(children, at, 0, ctx, canc, bs, tr);
      }
    case Safeguard(id, child) =>
      if ctx.logger.Some? {
        var r1 := GuardedRun(id, Instrumented(child, at + [0]), ctx, canc, tr, r);
        LogsUnder(child, at + [0], ctx, canc, tr, r1);
      }
    case Bounds(id, child) =>
      var r1 := BoundedRun(id, Instrumented(child, at + [0]), ctx, canc, tr, r);
      LogsUnder(child, at + [0], ctx, canc, tr, r1);
    case Retry(_, child, n) =>
      if ctx.logger.Some? {
        RetryLogsUnder(child, at, n, ctx, canc, tr, r);
      }
  }

  lemma {:induction false} InOrderLogsUnder(ts: seq<Tree>, at: seq<nat>, i: nat, ctx: Context, canc: Cancellation,
                                            tr: Trace, r: Result)
    requires (forall t :: t in ts ==> Plain(t)) && SequentialRuns(InstrumentedAll(ts, at, i), ctx, canc, tr, r)
    ensures UnderFrom(tr, at, i)
    decreases ts
  {
    if ts != [] && !(MayBeDone(ctx, canc) && tr == [] && r == Failed(Cancelled)) {
      var k, r1 := FirstRun(InstrumentedAll(ts, at, i), ctx, canc, tr, r);
      LogsUnder(ts[0], at + [i], ctx, canc, tr[..k], r1);
      assert tr == tr[..k] + tr[k..];
      if r1.Returned? {
        InOrderLogsUnder(ts[1..], at, i + 1, Passed(r1, ctx), canc, tr[k..], r);
      }
    }
  }

  lemma {:induction false} RetryLogsUnder(t: Tree, at: seq<nat>, n: nat, ctx: Context, canc: Cancellation, tr: Trace,
                                          r: Result)
    requires Plain(t) && RetryRuns(Instrumented(t, at + [0]), n, ctx, canc, tr, r)
    ensures UnderFrom(tr, at, 0)
    decreases t, 2, n
  {
    if n > 0 {
      var k, r1 := FirstAttempt(Instrumented(t, at + [0]), n, ctx, canc, tr, r);
      LogsUnder(t, at + [0], ctx, canc, tr[..k], r1);
      assert tr == tr[..k] + tr[k..];
      if r1.Failed? && n > 1 {
        RetryLogsUnder(t, at, n - 1, ctx, canc, tr[k..], r);
      }
    }
  }

  lemma {:induction false} BranchesLogUnder(ts: seq<Tree>, at: seq<nat>, i: nat, ctx: Context, canc: Cancellation,
                                            bs: seq<Branch>, tr: Trace)
    requires (forall t :: t in ts ==> Plain(t)) && BranchesRun(InstrumentedAll(ts, at, i), ctx, canc, bs)
    requires Interleaves(tr, bs)
    ensures UnderFrom(tr, at, i)
    decreases ts
  {
    if ts != [] {
      var us := InstrumentedAll(ts, at, i);
      assert us[1..] == InstrumentedAll(ts[1..], at, i + 1);
      LogsUnder(ts[0], at + [i], ctx, canc, bs[0].full, bs[0].r);
      var rest :| Interleaves(rest, bs[1..]) && Shuffle(tr, bs[0].part, rest);
      BranchesLogUnder(ts[1..], at, i + 1, ctx, canc, bs[1..], rest);
      ShuffleMembers(tr, bs[0].part, rest);
    }
  }

  /** What a node logs at q, around what is logged below it. */
  lemma LogOfNode(tr: Trace, at: seq<nat>, q: seq<nat>)
    requires |tr| >= 2 && tr[0].Note? && tr[0].at == at && tr[|tr| - 1].Note? && tr[|tr| - 1].at == at && at <= q
    ensures var log := LogOf(tr[1..|tr| - 1], q);
            LogOf(tr, q) == if q == at then [tr[0]] + log + [tr[|tr| - 1]] else log
  {
    var inner, first, last := tr[1..|tr| - 1], [tr[0]], [tr[|tr| - 1]];
    assert tr == first + (inner + last);
    LogOfConcat(first, inner + last, q);
    LogOfConcat(inner, last, q);
    assert first[1..] == [] && last[1..] == [];
  }

  lemma NodeEncloses(tr: Trace, at: seq<nat>)
    requires |tr| >= 2 && IsMark(tr[0], at, Start) && IsMark(tr[|tr| - 1], at, End) && UnderFrom(tr[1..|tr| - 1], at, 0)
    ensures Enclosed(tr, at)
  {
    LogOfNode(tr, at, at);
    var log := LogOf(tr[1..|tr| - 1], at);
    LogOfMembers(tr[1..|tr| - 1], at);
    forall i | 0 < i <= |log| ensures LogOf(tr, at)[i].Note? && LogOf(tr, at)[i].at != at {
      assert log[i - 1] in log;
    }
  }

  /** In a run in which nothing fails, what a node and everything below it log is enclosed by its start and its end. */
  lemma {:induction false} LogEncloses(t: Tree, at: seq<nat>, q: seq<nat>, ctx: Context, canc: Cancellation,
                                       tr: Trace, r: Result)
    requires Plain(t) && Runs(Instrumented(t, at), ctx, canc, tr, r) && NothingFails(tr) && at <= q
    ensures Enclosed(tr, q)
    decreases t, 1
  {
    hide LogOf;
    var inner := tr[1..|tr| - 1];
    assert tr[|tr| - 1] in tr;
    if q == at {
      OpenedLogsUnder(t, at, Watched(ctx, t.id), canc, inner, r);
      NodeEncloses(tr, at);
    } else {
      OpenedEncloses(t, at, q, Watched(ctx, t.id), canc, inner, r);
      LogOfNode(tr, at, q);
    }
  }

  lemma {:induction false} OpenedEncloses(t: Tree, at: seq<nat>, q: seq<nat>, ctx: Context, canc: Cancellation,
                                          tr: Trace, r: Result)
    requires Plain(t) && Runs(Opened(t, at), ctx, canc, tr, r) && NothingFails(tr) && r.Returned? && at < q
    requires ctx.logger.Some?
    ensures Enclosed(tr, q)
    decreases t, 0
  {
    match t
    case Leaf(_, a) => NoLog(tr, q);
    case Group(_, kind, children) =>
      if !IsParallel(kind) {
        InOrderEncloses(children, at, 0, q, ctx, canc, tr, r);
      } else if !(MayBeDone(ctx, canc) && tr == [] && r == Returned(None)) {
        var bs: seq<Branch> :| BranchesRun(InstrumentedAll(children, at, 0), ctx, canc, bs) && Interleaves(tr, bs) &&
            Joined(bs, MayBeDone(ctx, canc), r);
        BranchesEnclose(children, at, 0, q, ctx, canc, bs, tr);
      }
    case Safeguard(id, child) =>
      var r1 := GuardedRun(id, Instrumented(child, at + [0]), ctx, canc, tr, r);
      ChildEncloses(child, at, q, ctx, canc, tr, r1);
    case Bounds(id, child) =>
      var r1 := BoundedRun(id, Instrumented(child, at + [0]), ctx, canc, tr, r);
      ChildEncloses(child, at, q, ctx, canc, tr, r1);
    case Retry(_, child, n) =>
      if n > 0 {
        var k, r1 := FirstAttempt(Instrumented(child, at + [0]), n, ctx, canc, tr, r);
        NothingFailed(child, at + [0], ctx, canc, tr[..k], r1);
        assert tr[..k] == tr;
        ChildEncloses(child, at, q, ctx, canc, tr, r1);
      }
  }

  /** Where nothing fails, a node returns. */
  lemma NothingFailed(t: Tree, at: seq<nat>, ctx: Context, canc: Cancellation, tr: Trace, r: Result)
    requires Plain(t) && Runs(Instrumented(t, at), ctx, canc, tr, r) && NothingFails(tr)
    ensures r.Returned?
  {
    assert tr[|tr| - 1] in tr;
  }

  /** The only child of a node. */
  lemma {:induction false} ChildEncloses(t: Tree, at: seq<nat>, q: seq<nat>, ctx: Context, canc: Cancellation,
                                         tr: Trace, r: Result)
    requires Plain(t) && NothingFails(tr) && at < q && Runs(Instrumented(t, at + [0]), ctx, canc, tr, r)
    ensures Enclosed(tr, q)
    decreases t, 2
  {
    if at + [0] <= q {
      LogEncloses(t, at + [0], q, ctx, canc, tr, r);
    } else {
      LogsUnder(t, at + [0], ctx, canc, tr, r);
      NotUnder(tr, at, 0, q);
    }
  }

  /** Nothing is logged at q if it lies below another child of at. */
  lemma NotUnder(tr: Trace, at: seq<nat>, i: nat, q: seq<nat>)
    requires Under(tr, at + [i]) && at < q && !(at + [i] <= q)
    ensures LogOf(tr, q) == []
  {
    forall e | e in tr && e.Note? ensures !(q <= e.at) {
      PrefixesMeet(at + [i], q, e.at);
    }
    NoLog(tr, q);
  }

  lemma PrefixesMeet(p: seq<nat>, q: seq<nat>, a: seq<nat>)
    ensures p <= a && q <= a && |p| <= |q| ==> p <= q
  {
  }

  lemma {:induction false} InOrderEncloses(ts: seq<Tree>, at: seq<nat>, i: nat, q: seq<nat>,
                                           ctx: Context, canc: Cancellation, tr: Trace, r: Result)
    requires (forall t :: t in ts ==> Plain(t)) && NothingFails(tr) && r.Returned? && at < q
    requires SequentialRuns(InstrumentedAll(ts, at, i), ctx, canc, tr, r)
    ensures Enclosed(tr, q)
    decreases ts
  {
    hide Runs, LogOf, Enclosed;
    if ts == [] {
      NothingEnclosed(tr, q);
    } else {
      var k, r1 := FirstRun(InstrumentedAll(ts, at, i), ctx, canc, tr, r);
      assert tr == tr[..k] + tr[k..];
      LogOfConcat(tr[..k], tr[k..], q);
      LogsUnder(ts[0], at + [i], ctx, canc, tr[..k], r1);
      InOrderLogsUnder(ts[1..], at, i + 1, Passed(r1, ctx), canc, tr[k..], r);
      if at + [i] <= q {
        LogEncloses(ts[0], at + [i], q, ctx, canc, tr[..k], r1);
        LaterIsElsewhere(tr[k..], at, i, q);
        EnclosedAlike(tr, tr[..k], q);
      } else {
        NotUnder(tr[..k], at, i, q);
        InOrderEncloses(ts[1..], at, i + 1, q, Passed(r1, ctx), canc, tr[k..], r);
        EnclosedAlike(tr, tr[k..], q);
      }
    }
  }

  lemma NothingEnclosed(tr: Trace, q: seq<nat>)
    requires tr == []
    ensures Enclosed(tr, q)
  {
  }

  lemma EnclosedAlike(tr: Trace, part: Trace, q: seq<nat>)
    requires LogOf(tr, q) == LogOf(part, q) && Enclosed(part, q)
    ensures Enclosed(tr, q)
  {
  }

  lemma LaterIsElsewhere(tr: Trace, at: seq<nat>, i: nat, q: seq<nat>)
    requires UnderFrom(tr, at, i + 1) && at + [i] <= q
    ensures LogOf(tr, q) == []
  {
    assert q[|at|] == i;
    NoLog(tr, q);
  }

  lemma {:induction false} BranchesEnclose(ts: seq<Tree>, at: seq<nat>, i: nat, q: seq<nat>,
                                           ctx: Context, canc: Cancellation, bs: seq<Branch>, tr: Trace)
    requires (forall t :: t in ts ==> Plain(t)) && NothingFails(tr) && at < q
    requires BranchesRun(InstrumentedAll(ts, at, i), ctx, canc, bs) && Interleaves(tr, bs)
    requires forall b :: b in bs ==> b.part == b.full
    ensures Enclosed(tr, q)
    decreases ts
  {
    if ts != [] {
      var us, b := InstrumentedAll(ts, at, i), bs[0];
      assert us[1..] == InstrumentedAll(ts[1..], at, i + 1) && b in bs;
      var rest :| Interleaves(rest, bs[1..]) && Shuffle(tr, b.part, rest);
      ShuffleMembers(tr, b.part, rest);
      LogOfShuffle(tr, b.part, rest, q);
      LogsUnder(ts[0], at + [i], ctx, canc, b.full, b.r);
      BranchesLogUnder(ts[1..], at, i + 1, ctx, canc, bs[1..], rest);
      hide Runs, Shuffle, LogOf, Interleaves, Enclosed;
      if at + [i] <= q {
        LogEncloses(ts[0], at + [i], q, ctx, canc, b.full, b.r);
        LaterIsElsewhere(rest, at, i, q);
        EnclosedAlike(tr, b.part, q);
      } else {
        NotUnder(b.part, at, i, q);
        BranchesEnclose(ts[1..], at, i + 1, q, ctx, canc, bs[1..], rest);
        EnclosedAlike(tr, rest, q);
      }
    }
  }
}
