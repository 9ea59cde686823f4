/**
 Telemetry wraps every step in one that logs its start and its end and gives it a logger of its own. The
 wrapped tree does what the plain tree does.
 */
module JobProbes {
  import opened Options
  import opened JobConfig
  import opened JobVisit
  import opened JobRuns
  import opened JobSafety

  /** The tree with a probe around every node; at is where in the whole tree the node is. */
  function Instrumented(t: Tree, at: seq<nat>): Tree
    requires Plain(t)
    decreases t, 1
  {
    Probe(t.id, Opened(t, at), at)
  }

  /** The node itself, with its children instrumented. */
  function Opened(t: Tree, at: seq<nat>): Tree
    requires Plain(t)
    decreases t, 0
  {
    match t
    case Leaf(_, _) => t
    case Group(id, kind, children) => Group(id, kind, InstrumentedAll(children, at, 0))
    case Safeguard(id, child) => Safeguard(id, Instrumented(child, at + [0]))
    case Bounds(id, child) => Bounds(id, Instrumented(child, at + [0]))
    case Retry(id, child, n) => Retry(id, Instrumented(child, at + [0]), n)
  }

  /** Siblings from the i-th on. */
  function InstrumentedAll(ts: seq<Tree>, at: seq<nat>, i: nat): seq<Tree>
    requires forall t :: t in ts ==> Plain(t)
    decreases ts
  {
    if ts == [] then [] else [Instrumented(ts[0], at + [i])] + InstrumentedAll(ts[1..], at, i + 1)
  }

  // ---- what is left of a run without telemetry

  function Erased(ctx: Context): Context {
    ctx.(logger := Unwrapped(ctx.logger))
  }

  function ErasedResult(r: Result): Result {
    if r.Returned? && r.ctx.Some? then Returned(Some(Erased(r.ctx.value))) else r
  }

  /** What is left of one event. */
  function Kept(e: Event): Trace {
    match e
    case Note(_, _, _) => []
    case Did(a, ctx, ok) => [Did(a, Erased(ctx), ok)]
    case Lacked(_) => [e]
  }

  function ErasedTrace(tr: Trace): Trace {
    if tr == [] then [] else Kept(tr[0]) + ErasedTrace(tr[1..])
  }

  function ErasedBranches(bs: seq<Branch>): seq<Branch> {
    if bs == [] then []
    else [Branch(ErasedTrace(bs[0].full), ErasedTrace(bs[0].part), ErasedResult(bs[0].r))] + ErasedBranches(bs[1..])
  }

  lemma {:induction false} ErasedConcat(a: Trace, b: Trace)
    ensures ErasedTrace(a + b) == ErasedTrace(a) + ErasedTrace(b)
    decreases |a|
  {
    if a == [] {
      assert a + b == b;
    } else {
      hide Kept;
      ErasedConcat(a[1..], b);
      assert (a + b)[1..] == a[1..] + b;
      assert Kept(a[0]) + (ErasedTrace(a[1..]) + ErasedTrace(b)) == Kept(a[0]) + ErasedTrace(a[1..]) + ErasedTrace(b);
    }
  }

  /** Cutting a trace cuts what is left of it. */
  lemma ErasedCut(tr: Trace, k: nat) returns (j: nat)
    requires k <= |tr|
    ensures j <= |ErasedTrace(tr)| && ErasedTrace(tr[..k]) == ErasedTrace(tr)[..j]
            && ErasedTrace(tr[k..]) == ErasedTrace(tr)[j..]
    ensures k == |tr| ==> j == |ErasedTrace(tr)|
  {
    ErasedConcat(tr[..k], tr[k..]);
    assert tr == tr[..k] + tr[k..];
    j := |ErasedTrace(tr[..k])|;
  }

  lemma ErasedInner(tr: Trace)
    requires |tr| >= 2 && tr[0].Note? && tr[|tr| - 1].Note?
    ensures ErasedTrace(tr) == ErasedTrace(tr[1..|tr| - 1])
  {
    var inner, last := tr[1..|tr| - 1], [tr[|tr| - 1]];
    assert tr[1..] == inner + last;
    ErasedConcat(inner, last);
    assert last[1..] == [];
  }

  lemma {:induction false} ErasedShuffle(tr: Trace, a: Trace, b: Trace)
    requires Shuffle(tr, a, b)
    ensures Shuffle(ErasedTrace(tr), ErasedTrace(a), ErasedTrace(b))
    decreases |tr|
  {
    if tr != [] {
      if a != [] && a[0] == tr[0] && Shuffle(tr[1..], a[1..], b) {
        ErasedShuffle(tr[1..], a[1..], b);
        ShuffleCons(ErasedTrace(tr), ErasedTrace(tr[1..]), ErasedTrace(a), ErasedTrace(a[1..]), ErasedTrace(b),
                    !tr[0].Note?);
      } else {
        ErasedShuffle(tr[1..], a, b[1..]);
        ShuffleSwap(ErasedTrace(tr[1..]), ErasedTrace(a), ErasedTrace(b[1..]));
        ShuffleCons(ErasedTrace(tr), ErasedTrace(tr[1..]), ErasedTrace(b), ErasedTrace(b[1..]), ErasedTrace(a),
                    !tr[0].Note?);
        ShuffleSwap(ErasedTrace(tr), ErasedTrace(b), ErasedTrace(a));
      }
    }
  }

  lemma ShuffleCons(tr: Trace, tr1: Trace, a: Trace, a1: Trace, b: Trace, more: bool)
    requires Shuffle(tr1, a1, b)
    requires if more then tr != [] && a != [] && tr[0] == a[0] && tr[1..] == tr1 && a[1..] == a1
             else tr == tr1 && a == a1
    ensures Shuffle(tr, a, b)
  {
  }

  lemma {:induction false} ShuffleSwap(tr: Trace, a: Trace, b: Trace)
    requires Shuffle(tr, a, b)
    ensures Shuffle(tr, b, a)
    decreases |tr|
  {
    if tr != [] {
      if a != [] && a[0] == tr[0] && Shuffle(tr[1..], a[1..], b) {
        ShuffleSwap(tr[1..], a[1..], b);
      } else {
        ShuffleSwap(tr[1..], a, b[1..]);
      }
    }
  }

  lemma {:induction false} ErasedInterleaves(tr: Trace, bs: seq<Branch>)
    requires Interleaves(tr, bs)
    ensures Interleaves(ErasedTrace(tr), ErasedBranches(bs))
    decreases |bs|
  {
    if bs != [] {
      var rest :| Interleaves(rest, bs[1..]) && Shuffle(tr, bs[0].part, rest);
      ErasedInterleaves(rest, bs[1..]);
      ErasedShuffle(tr, bs[0].part, rest);
      assert ErasedBranches(bs)[1..] == ErasedBranches(bs[1..]);
    }
  }

  lemma {:induction false} ErasedJoined(bs: seq<Branch>, mayBeDone: bool, r: Result)
    requires Joined(bs, mayBeDone, r)
    ensures Joined(ErasedBranches(bs), mayBeDone, ErasedResult(r))
  {
    ErasedMembers(bs);
    var es := ErasedBranches(bs);
    if b :| b in bs && b.part == b.full && b.r.Failed? && b.r == r {
      var i :| 0 <= i < |bs| && bs[i] == b;
      assert es[i] in es;
    }
  }

  lemma {:induction false} ErasedMembers(bs: seq<Branch>)
    ensures |ErasedBranches(bs)| == |bs|
    ensures forall i :: 0 <= i < |bs| ==>
              ErasedBranches(bs)[i] == Branch(ErasedTrace(bs[i].full), ErasedTrace(bs[i].part), ErasedResult(bs[i].r))
    decreases |bs|
  {
    if bs != [] {
      ErasedMembers(bs[1..]);
    }
  }

  /** A probe's logger is unwrapped to the logger it wraps. */
  lemma WatchedErased(ctx: Context, id: nat)
    ensures Erased(Watched(ctx, id)) == Erased(ctx) && Erased(Erased(ctx)) == Erased(ctx)
  {
    assert Unwrapped(Unwrapped(ctx.logger)) == Unwrapped(ctx.logger);
    assert Unwrapped(Watched(ctx, id).logger) == Unwrapped(Unwrapped(ctx.logger));
  }

  // ---- an instrumented run is a plain run with telemetry

  /** Every run of the instrumented tree is, without its telemetry, a run of the plain tree. */
  lemma {:induction false} ProbesAddNothing(t: Tree, at: seq<nat>, keys: set<Key>, ctx: Context, canc: Cancellation,
                                            tr: Trace, r: Result)
    requires Plain(t) && Safe(t, keys) && Provides(Erased(ctx), keys)
    requires Runs(Instrumented(t, at), ctx, canc, tr, r)
    ensures Runs(t, Erased(ctx), canc, ErasedTrace(tr), ErasedResult(r))
    decreases t, 1
  {
    ErasedInner(tr);
    WatchedErased(ctx, t.id);
    OpenedAddsNothing(t, at, keys, Watched(ctx, t.id), canc, tr[1..|tr| - 1], r);
  }

  lemma {:induction false} OpenedAddsNothing(t: Tree, at: seq<nat>, keys: set<Key>, ctx: Context, canc: Cancellation,
                                             tr: Trace, r: Result)
    requires Plain(t) && Safe(t, keys) && Provides(Erased(ctx), keys) && ctx.logger.Some?
    requires Runs(Opened(t, at), ctx, canc, tr, r)
    ensures Runs(t, Erased(ctx), canc, ErasedTrace(tr), ErasedResult(r))
    decreases t, 0
  {
    match t
    case Leaf(_, a) => StepAddsNothing(a, keys, ctx, tr, r);
    case Group(_, kind, children) =>
      if IsParallel(kind) {
        ParallelAddsNothing(children, at, keys, ctx, canc, tr, r);
      } else {
        InOrderAddsNothing(children, at, 0, keys, ctx, canc, tr, r);
      }
    case Safeguard(id, child) =>
      var r1 := GuardedRun(id, Instrumented(child, at + [0]), ctx, canc, tr, r);
      ProbesAddNothing(child, at + [0], keys, ctx, canc, tr, r1);
      assert Has(Erased(ctx), LoggerKey);
    case Bounds(id, child) =>
      var r1 := BoundedRun(id, Instrumented(child, at + [0]), ctx, canc, tr, r);
      ProbesAddNothing(child, at + [0], keys, ctx, canc, tr, r1);
    case Retry(_, child, n) =>
      assert Has(Erased(ctx), LoggerKey);
      RetryAddsNothing(child, at + [0], n, keys, ctx, canc, tr, r);
  }

  lemma StepAddsNothing(a: Action, keys: set<Key>, ctx: Context, tr: Trace, r: Result)
    requires forall key :: key in Needs(a, OutputKey in keys) ==> key in keys
    requires Provides(Erased(ctx), keys) && StepRuns(a, ctx, tr, r)
    ensures StepRuns(a, Erased(ctx), ErasedTrace(tr), ErasedResult(r))
  {
    ErasedFindsAll(a, keys, ctx);
    ErasedAfter(a, ctx);
    assert tr[1..] == [] && Kept(tr[0]) + [] == Kept(tr[0]);
  }

  /** What a step leaves, the telemetry logger aside. */
  lemma ErasedAfter(a: Action, ctx: Context)
    ensures ErasedResult(Returned(ContextAfter(a, ctx))) == Returned(ContextAfter(a, Erased(ctx)))
  {
    WatchedErased(ctx, 0);
  }

  /** A step finds what it needs with the telemetry logger and without. */
  lemma ErasedFindsAll(a: Action, keys: set<Key>, ctx: Context)
    requires forall key :: key in Needs(a, OutputKey in keys) ==> key in keys
    requires Provides(Erased(ctx), keys)
    ensures FirstLack(Needs(a, ctx.output.Some?), Erased(ctx)) == None
    ensures FirstLack(Needs(a, ctx.output.Some?), ctx) == None
  {
    forall key | Has(Erased(ctx), key) ensures Has(ctx, key) {
    }
    NoLack(Needs(a, ctx.output.Some?), Erased(ctx));
    NoLack(Needs(a, ctx.output.Some?), ctx);
  }

  lemma {:induction false} InOrderAddsNothing(ts: seq<Tree>, at: seq<nat>, i: nat, keys: set<Key>,
                                              ctx: Context, canc: Cancellation, tr: Trace, r: Result)
    requires (forall t :: t in ts ==> Plain(t)) && SafeInOrder(ts, keys) && Provides(Erased(ctx), keys)
    requires SequentialRuns(InstrumentedAll(ts, at, i), ctx, canc, tr, r)
    ensures SequentialRuns(ts, Erased(ctx), canc, ErasedTrace(tr), ErasedResult(r))
    decreases ts
  {
    if ts != [] && !(MayBeDone(ctx, canc) && tr == [] && r == Failed(Cancelled)) {
      var us := InstrumentedAll(ts, at, i);
      var k, r1 := FirstRun(us, ctx, canc, tr, r);
      ProbesAddNothing(ts[0], at + [i], keys, ctx, canc, tr[..k], r1);
      var j := ErasedCut(tr, k);
      if r1.Returned? {
        Sound(ts[0], keys, Erased(ctx), canc, ErasedTrace(tr)[..j], ErasedResult(r1));
        InOrderAddsNothing(ts[1..], at, i + 1, KeysAfter(ts[0], keys), Passed(r1, ctx), canc, tr[k..], r);
      }
      assert GoesOn(ts, Erased(ctx), canc, ErasedTrace(tr), ErasedResult(r), j, ErasedResult(r1));
    }
  }

  lemma {:induction false} RetryAddsNothing(t: Tree, at: seq<nat>, n: nat, keys: set<Key>,
                                            ctx: Context, canc: Cancellation, tr: Trace, r: Result)
    requires Plain(t) && Safe(t, keys) && Provides(Erased(ctx), keys)
    requires RetryRuns(Instrumented(t, at), n, ctx, canc, tr, r)
    ensures RetryRuns(t, n, Erased(ctx), canc, ErasedTrace(tr), ErasedResult(r))
    decreases t, 2, n
  {
    if n > 0 {
      var k, r1 := FirstAttempt(Instrumented(t, at), n, ctx, canc, tr, r);
      ProbesAddNothing(t, at, keys, ctx, canc, tr[..k], r1);
      var j := ErasedCut(tr, k);
      if r1.Failed? && n > 1 {
        RetryAddsNothing(t, at, n - 1, keys, ctx, canc, tr[k..], r);
      }
      assert TriesOn(t, n, Erased(ctx), canc, ErasedTrace(tr), ErasedResult(r), j, ErasedResult(r1));
    }
  }

  lemma {:induction false} ParallelAddsNothing(ts: seq<Tree>, at: seq<nat>, keys: set<Key>,
                                               ctx: Context, canc: Cancellation, tr: Trace, r: Result)
    requires (forall t :: t in ts ==> Plain(t) && Safe(t, keys)) && Provides(Erased(ctx), keys)
    requires ParallelRuns(InstrumentedAll(ts, at, 0), ctx, canc, tr, r)
    ensures ParallelRuns(ts, Erased(ctx), canc, ErasedTrace(tr), ErasedResult(r))
    decreases ts, 1
  {
    if !(MayBeDone(ctx, canc) && tr == [] && r == Returned(None)) {
      var bs: seq<Branch> :| BranchesRun(InstrumentedAll(ts, at, 0), ctx, canc, bs) && Interleaves(tr, bs) &&
          Joined(bs, MayBeDone(ctx, canc), r);
      BranchesAddNothing(ts, at, 0, keys, ctx, canc, bs);
      ErasedInterleaves(tr, bs);
      ErasedJoined(bs, MayBeDone(ctx, canc), r);
    }
  }

  lemma {:induction false} BranchesAddNothing(ts: seq<Tree>, at: seq<nat>, i: nat, keys: set<Key>,
                                              ctx: Context, canc: Cancellation, bs: seq<Branch>)
    requires (forall t :: t in ts ==> Plain(t) && Safe(t, keys)) && Provides(Erased(ctx), keys)
    requires BranchesRun(InstrumentedAll(ts, at, i), ctx, canc, bs)
    ensures BranchesRun(ts, Erased(ctx), canc, ErasedBranches(bs))
    decreases ts, 0
  {
    if ts != [] {
      var us := InstrumentedAll(ts, at, i);
      assert us[1..] == InstrumentedAll(ts[1..], at, i + 1);
      ProbesAddNothing(ts[0], at + [i], keys, ctx, canc, bs[0].full, bs[0].r);
      BranchesAddNothing(ts[1..], at, i + 1, keys, ctx, canc, bs[1..]);
      var k := ErasedCut(bs[0].full, |bs[0].part|);
      assert bs[0].full[..|bs[0].part|] == bs[0].part;
      var es := ErasedBranches(bs);
      assert es[1..] == ErasedBranches(bs[1..]);
    }
  }

  // ---- every plain run can be instrumented

  /** Telemetry put back into a shuffled trace. */
  lemma {:induction false} ShuffleBack(tr: Trace, a: Trace, b: Trace) returns (tr': Trace)
    requires Shuffle(tr, ErasedTrace(a), ErasedTrace(b))
    ensures Shuffle(tr', a, b) && ErasedTrace(tr') == tr
    decreases |a| + |b|
  {
    ErasedFirst(a);
    ErasedFirst(b);
    hide ErasedTrace;
    if a != [] && a[0].Note? {
      var rest := ShuffleBack(tr, a[1..], b);
      tr' := TakeLeft(rest, a, b);
    } else if b != [] && b[0].Note? {
      var rest := ShuffleBack(tr, a, b[1..]);
      tr' := TakeRight(rest, a, b);
    } else if tr == [] {
      tr' := [];
    } else if a != [] && ErasedTrace(a)[0] == tr[0] && Shuffle(tr[1..], ErasedTrace(a)[1..], ErasedTrace(b)) {
      var rest := ShuffleBack(tr[1..], a[1..], b);
      tr' := TakeLeft(rest, a, b);
    } else {
      var rest := ShuffleBack(tr[1..], a, b[1..]);
      tr' := TakeRight(rest, a, b);
    }
  }

  lemma TakeLeft(rest: Trace, a: Trace, b: Trace) returns (tr: Trace)
    requires a != [] && Shuffle(rest, a[1..], b)
    ensures Shuffle(tr, a, b) && ErasedTrace(tr) == Kept(a[0]) + ErasedTrace(rest)
  {
    tr := [a[0]] + rest;
    assert tr[1..] == rest;
  }

  lemma TakeRight(rest: Trace, a: Trace, b: Trace) returns (tr: Trace)
    requires b != [] && Shuffle(rest, a, b[1..])
    ensures Shuffle(tr, a, b) && ErasedTrace(tr) == Kept(b[0]) + ErasedTrace(rest)
  {
    tr := [b[0]] + rest;
    assert tr[1..] == rest;
  }

  lemma ErasedFirst(tr: Trace)
    ensures tr == [] ==> ErasedTrace(tr) == []
    ensures tr != [] && tr[0].Note? ==> ErasedTrace(tr) == ErasedTrace(tr[1..])
    ensures tr != [] && !tr[0].Note? ==> ErasedTrace(tr) == Kept(tr[0]) + ErasedTrace(tr[1..]) && |Kept(tr[0])| == 1
  {
  }

  lemma {:induction false} InterleavesBack(tr: Trace, bs: seq<Branch>) returns (tr': Trace)
    requires Interleaves(tr, ErasedBranches(bs))
    ensures Interleaves(tr', bs) && ErasedTrace(tr') == tr
    decreases |bs|
  {
    if bs == [] {
      tr' := [];
    } else {
      var es := ErasedBranches(bs);
      assert es[1..] == ErasedBranches(bs[1..]);
      var rest :| Interleaves(rest, es[1..]) && Shuffle(tr, es[0].part, rest);
      var rest' := InterleavesBack(rest, bs[1..]);
      tr' := ShuffleBack(tr, bs[0].part, rest');
    }
  }

  /** The telemetry up to a cut of the plain trace; all of it, if the cut is at the end. */
  lemma {:induction false} CutBack(tr: Trace, part: Trace) returns (part': Trace)
    requires part <= ErasedTrace(tr)
    ensures part' <= tr && ErasedTrace(part') == part
    ensures part == ErasedTrace(tr) ==> part' == tr
    decreases |tr|
  {
    if part == ErasedTrace(tr) {
      part' := tr;
    } else if part == [] {
      part' := [];
    } else {
      var rest := if tr[0].Note? then part else part[1..];
      part' := CutBack(tr[1..], rest);
      part' := [tr[0]] + part';
    }
  }

  /** Every run of the plain tree is a run of the instrumented tree without its telemetry. */
  lemma {:induction false} ProbesLoseNothing(t: Tree, at: seq<nat>, keys: set<Key>, ctx: Context, canc: Cancellation,
                                             tr: Trace, r: Result)
    returns (tr': Trace, r': Result)
    requires Plain(t) && Safe(t, keys) && Provides(Erased(ctx), keys)
    requires Runs(t, Erased(ctx), canc, tr, r)
    ensures Runs(Instrumented(t, at), ctx, canc, tr', r')
    ensures ErasedTrace(tr') == tr && ErasedResult(r') == r
    decreases t, 1
  {
    WatchedErased(ctx, t.id);
    var inner;
    inner, r' := OpenedLosesNothing(t, at, keys, Watched(ctx, t.id), canc, tr, r);
    tr' := [Note(at, t.id, Start)] + inner + [Note(at, t.id, if r'.Failed? then Fail else End)];
    assert tr'[1..|tr'| - 1] == inner;
    ErasedInner(tr');
  }

  lemma {:induction false} OpenedLosesNothing(t: Tree, at: seq<nat>, keys: set<Key>, ctx: Context, canc: Cancellation,
                                              tr: Trace, r: Result)
    returns (tr': Trace, r': Result)
    requires Plain(t) && Safe(t, keys) && Provides(Erased(ctx), keys) && ctx.logger.Some?
    requires Runs(t, Erased(ctx), canc, tr, r)
    ensures Runs(Opened(t, at), ctx, canc, tr', r')
    ensures ErasedTrace(tr') == tr && ErasedResult(r') == r
    decreases t, 0
  {
    match t
    case Leaf(_, a) => tr', r' := StepLosesNothing(a, keys, ctx, tr, r);
    case Group(_, kind, children) =>
      if IsParallel(kind) {
        tr', r' := ParallelLosesNothing(children, at, keys, ctx, canc, tr, r);
      } else {
        tr', r' := InOrderLosesNothing(children, at, 0, keys, ctx, canc, tr, r);
      }
    case Safeguard(id, child) =>
      assert Has(Erased(ctx), LoggerKey);
      var r1 := GuardedRun(id, child, Erased(ctx), canc, tr, r);
      tr', r' := ProbesLoseNothing(child, at + [0], keys, ctx, canc, tr, r1);
      r' := if r'.Failed? then Returned(None) else r';
    case Bounds(id, child) =>
      var r1 := BoundedRun(id, child, Erased(ctx), canc, tr, r);
      tr', r' := ProbesLoseNothing(child, at + [0], keys, ctx, canc, tr, r1);
      r' := if r'.Failed? then r' else Returned(None);
    case Retry(_, child, n) =>
      assert Has(Erased(ctx), LoggerKey);
      tr', r' := RetryLosesNothing(child, at + [0], n, keys, ctx, canc, tr, r);
  }

  lemma StepLosesNothing(a: Action, keys: set<Key>, ctx: Context, tr: Trace, r: Result) returns (tr': Trace, r': Result)
    requires forall key :: key in Needs(a, OutputKey in keys) ==> key in keys
    requires Provides(Erased(ctx), keys) && StepRuns(a, Erased(ctx), tr, r)
    ensures StepRuns(a, ctx, tr', r') && ErasedTrace(tr') == tr && ErasedResult(r') == r
  {
    ErasedFindsAll(a, keys, ctx);
    ErasedAfter(a, ctx);
    tr' := [Did(a, ctx, tr[0].ok)];
    r' := if r.Failed? then r else Returned(ContextAfter(a, ctx));
    assert tr'[1..] == [];
  }

  lemma {:induction false} InOrderLosesNothing(ts: seq<Tree>, at: seq<nat>, i: nat, keys: set<Key>,
                                               ctx: Context, canc: Cancellation, tr: Trace, r: Result)
    returns (tr': Trace, r': Result)
    requires (forall t :: t in ts ==> Plain(t)) && SafeInOrder(ts, keys) && Provides(Erased(ctx), keys)
    requires SequentialRuns(ts, Erased(ctx), canc, tr, r)
    ensures SequentialRuns(InstrumentedAll(ts, at, i), ctx, canc, tr', r')
    ensures ErasedTrace(tr') == tr && ErasedResult(r') == r
    decreases ts, 1
  {
    hide Runs, GoesOn, Instrumented, Safe;
    if ts == [] {
      tr', r' := [], Returned(Some(ctx));
    } else if MayBeDone(ctx, canc) && tr == [] && r == Failed(Cancelled) {
      tr', r' := tr, r;
    } else {
      tr', r' := StepsLoseNothing(ts, at, i, keys, ctx, canc, tr, r);
    }
  }

  /** A list of steps that is not cancelled at once. */
  lemma {:induction false} StepsLoseNothing(ts: seq<Tree>, at: seq<nat>, i: nat, keys: set<Key>,
                                            ctx: Context, canc: Cancellation, tr: Trace, r: Result)
    returns (tr': Trace, r': Result)
    requires ts != [] && (forall t :: t in ts ==> Plain(t)) && SafeInOrder(ts, keys) && Provides(Erased(ctx), keys)
    requires SequentialRuns(ts, Erased(ctx), canc, tr, r)
    requires !(MayBeDone(ctx, canc) && tr == [] && r == Failed(Cancelled))
    ensures SequentialRuns(InstrumentedAll(ts, at, i), ctx, canc, tr', r')
    ensures ErasedTrace(tr') == tr && ErasedResult(r') == r
    decreases ts, 0, 1
  {
    hide Runs, GoesOn, Instrumented, Safe, SequentialRuns, ErasedTrace, ErasedResult;
    var k, r1 := FirstRun(ts, Erased(ctx), canc, tr, r);
    var first, r1' := ProbesLoseNothing(ts[0], at + [i], keys, ctx, canc, tr[..k], r1);
    var rest;
    rest, r' := OthersLoseNothing(ts, at, i, keys, ctx, canc, tr, r, k, r1, r1');
    StepsJoin(InstrumentedAll(ts, at, i), ctx, canc, first, r1', rest, r');
    tr' := first + rest;
    ErasedConcat(first, rest);
    assert tr == tr[..k] + tr[k..];
  }

  /** The steps after the first. */
  lemma {:induction false} OthersLoseNothing(ts: seq<Tree>, at: seq<nat>, i: nat, keys: set<Key>, ctx: Context,
                                             canc: Cancellation, tr: Trace, r: Result, k: nat, r1: Result, r1': Result)
    returns (rest: Trace, r': Result)
    requires ts != [] && (forall t :: t in ts ==> Plain(t)) && SafeInOrder(ts, keys) && Provides(Erased(ctx), keys)
    requires k <= |tr| && Runs(ts[0], Erased(ctx), canc, tr[..k], r1) && GoesOn(ts, Erased(ctx), canc, tr, r, k, r1)
    requires ErasedResult(r1') == r1
    ensures if r1'.Failed? then rest == [] && r' == r1'
            else SequentialRuns(InstrumentedAll(ts[1..], at, i + 1), Passed(r1', ctx), canc, rest, r')
    ensures ErasedTrace(rest) == tr[k..] && ErasedResult(r') == r
    decreases ts, 0, 0
  {
    if r1.Failed? {
      rest, r' := [], r1';
    } else {
      Sound(ts[0], keys, Erased(ctx), canc, tr[..k], r1);
      rest, r' := InOrderLosesNothing(ts[1..], at, i + 1, KeysAfter(ts[0], keys), Passed(r1', ctx), canc, tr[k..], r);
    }
  }

  lemma {:induction false} RetryLosesNothing(t: Tree, at: seq<nat>, n: nat, keys: set<Key>,
                                             ctx: Context, canc: Cancellation, tr: Trace, r: Result)
    returns (tr': Trace, r': Result)
    requires Plain(t) && Safe(t, keys) && Provides(Erased(ctx), keys)
    requires RetryRuns(t, n, Erased(ctx), canc, tr, r)
    ensures RetryRuns(Instrumented(t, at), n, ctx, canc, tr', r')
    ensures ErasedTrace(tr') == tr && ErasedResult(r') == r
    decreases t, 2, n
  {
    hide Runs, Instrumented, Safe, Provides, TriesOn;
    if n == 0 {
      tr', r' := tr, r;
    } else {
      var k, r1 := FirstAttempt(t, n, Erased(ctx), canc, tr, r);
      var first, r1' := ProbesLoseNothing(t, at, keys, ctx, canc, tr[..k], r1);
      var rest := [];
      r' := r1';
      if r1.Failed? && n > 1 {
        rest, r' := RetryLosesNothing(t, at, n - 1, keys, ctx, canc, tr[k..], r);
      }
      AttemptsJoin(Instrumented(t, at), n, ctx, canc, first, r1', rest, r');
      tr' := first + rest;
      ErasedConcat(first, rest);
      assert tr == tr[..k] + tr[k..];
    }
  }

  lemma {:induction false} ParallelLosesNothing(ts: seq<Tree>, at: seq<nat>, keys: set<Key>,
                                                ctx: Context, canc: Cancellation, tr: Trace, r: Result)
    returns (tr': Trace, r': Result)
    requires (forall t :: t in ts ==> Plain(t) && Safe(t, keys)) && Provides(Erased(ctx), keys)
    requires ParallelRuns(ts, Erased(ctx), canc, tr, r)
    ensures ParallelRuns(InstrumentedAll(ts, at, 0), ctx, canc, tr', r')
    ensures ErasedTrace(tr') == tr && ErasedResult(r') == r
    decreases ts, 1
  {
    if MayBeDone(ctx, canc) && tr == [] && r == Returned(None) {
      tr', r' := tr, r;
    } else {
      var bs: seq<Branch> :| BranchesRun(ts, Erased(ctx), canc, bs) && Interleaves(tr, bs)
                             && Joined(bs, MayBeDone(ctx, canc), r);
      var bs' := BranchesLoseNothing(ts, at, 0, keys, ctx, canc, bs);
      tr' := InterleavesBack(tr, bs');
      r' := JoinedBack(bs', MayBeDone(ctx, canc), r);
    }
  }

  lemma JoinedBack(bs: seq<Branch>, mayBeDone: bool, r: Result) returns (r': Result)
    requires Joined(ErasedBranches(bs), mayBeDone, r)
    requires forall b :: b in bs && ErasedTrace(b.part) == ErasedTrace(b.full) ==> b.part == b.full
    ensures Joined(bs, mayBeDone, r') && ErasedResult(r') == r
  {
    r' := r;
    ErasedMembers(bs);
    var es := ErasedBranches(bs);
    if r == Returned(None) && forall e :: e in es ==> e.part == e.full && e.r.Returned? {
      forall b | b in bs ensures b.part == b.full && b.r.Returned? {
        var i :| 0 <= i < |bs| && bs[i] == b;
        assert es[i] in es;
      }
    } else if e :| e in es && e.part == e.full && e.r.Failed? && e.r == r {
      var i :| 0 <= i < |es| && es[i] == e;
      assert bs[i] in bs;
    }
  }

  lemma {:induction false} BranchesLoseNothing(ts: seq<Tree>, at: seq<nat>, i: nat, keys: set<Key>,
                                               ctx: Context, canc: Cancellation, bs: seq<Branch>)
    returns (bs': seq<Branch>)
    requires (forall t :: t in ts ==> Plain(t) && Safe(t, keys)) && Provides(Erased(ctx), keys)
    requires BranchesRun(ts, Erased(ctx), canc, bs)
    ensures BranchesRun(InstrumentedAll(ts, at, i), ctx, canc, bs') && ErasedBranches(bs') == bs
    ensures forall b :: b in bs' && ErasedTrace(b.part) == ErasedTrace(b.full) ==> b.part == b.full
    decreases ts, 0
  {
    if ts == [] {
      bs' := [];
    } else {
      var us := InstrumentedAll(ts, at, i);
      assert us[1..] == InstrumentedAll(ts[1..], at, i + 1);
      var full, r := ProbesLoseNothing(ts[0], at + [i], keys, ctx, canc, bs[0].full, bs[0].r);
      var part := CutBack(full, bs[0].part);
      var others := BranchesLoseNothing(ts[1..], at, i + 1, keys, ctx, canc, bs[1..]);
      bs' := [Branch(full, part, r)] + others;
      assert bs'[1..] == others;
    }
  }

  // ---- jobs

  /**
   Instrumenting a job does not change its meaning: the instrumented job can do tr and end with r, apart from
   its telemetry, if and only if the plain job can, whatever is cancelled and whatever fails.
   */
  lemma InstrumentedJob(c: Config, canc: Cancellation, tr: Trace, r: Result)
    requires VisitConfig(c).Visited?
    ensures var t := VisitConfig(c).node;
            Runs(t, NOTHING, canc, tr, r) <==>
            exists tr', r' :: Runs(Instrumented(t, []), NOTHING, canc, tr', r') && ErasedTrace(tr') == tr
                              && ErasedResult(r') == r
  {
    hide Runs, Instrumented, VisitConfig, ErasedTrace, Safe;
    var t := VisitConfig(c).node;
    ConfigIsSafe(c);
    if Runs(t, NOTHING, canc, tr, r) {
      var tr', r' := ProbesLoseNothing(t, [], {}, NOTHING, canc, tr, r);
    }
    if tr', r' :| Runs(Instrumented(t, []), NOTHING, canc, tr', r') && ErasedTrace(tr') == tr && ErasedResult(r') == r {
      ProbesAddNothing(t, [], {}, NOTHING, canc, tr', r');
    }
  }

  /** A tree that is not safe can change its meaning: a probe always provides a logger, and so hides a missing one. */
  lemma ProbesHideAMissingLogger(d: int, canc: Cancellation)
    ensures var t := Leaf(1, Timeout(d));
            && Runs(t, NOTHING, canc, [Lacked(LoggerKey)], Failed(StepLacked(LoggerKey)))
            && !Safe(t, {})
            && forall tr, r :: Runs(Instrumented(t, []), NOTHING, canc, tr, r) ==> r.Returned?
  {
    var t := Leaf(1, Timeout(d));
    assert LoggerKey in Needs(Timeout(d), OutputKey in {});
    assert Opened(t, []) == t && Instrumented(t, []) == Probe(1, t, []);
    forall tr, r | Runs(Instrumented(t, []), NOTHING, canc, tr, r) ensures r.Returned? {
      var ctx := Watched(NOTHING, 1);
      assert Runs(t, ctx, canc, tr[1..|tr| - 1], r);
      NoLack(Needs(Timeout(d), false), ctx);
    }
  }
}
