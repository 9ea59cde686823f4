/**
 Parallel as it is programmed: a goroutine for each child, a channel on which they send their errors, and a
 loop that receives them. Its steps, in any order, do what JobRuns says of steps in parallel.
 */
module FluncParallel {
  import opened Options
  import opened JobRuns

  /** A goroutine: at work, at the send with its result, past it with the result received, or past it without. */
  datatype Child =
    | Working(done: Trace)
    | Sending(done: Trace, r: Result)
    | Received(done: Trace, r: Result)
    | Dropped(done: Trace, r: Result)

  /** The loop waits for results, or has returned; None is no error. */
  datatype Loop = Waiting | Back(e: Option<Cause>)

  /**
   log is what the children did until the loop returned, and seen is what had become of them by then. received
   counts the results the loop got. cancelled tells whether the context given to Parallel is done.
   */
  datatype State = State(children: seq<Child>, loop: Loop, received: nat, cancelled: bool, log: Trace, seen: seq<Child>)

  datatype Step = Work(i: nat, e: Event) | Finish(i: nat, r: Result) | Receive(i: nat) | Drop(i: nat) | Cancel | GiveUp

  /** The children's context is done when the given one is, and as soon as the loop returns. */
  predicate ChildrenCancelled(s: State) {
    s.cancelled || s.loop.Back?
  }

  function Put(s: State, i: nat, c: Child): State
    requires i < |s.children| == |s.seen|
  {
    s.(children := s.children[i := c], seen := if s.loop.Waiting? then s.seen[i := c] else s.seen)
  }

  /** One step; None if it is not enabled. */
  function Do(s: State, step: Step): Option<State>
    requires |s.children| == |s.seen|
  {
    match step
    case Work(i, e) =>
      if i < |s.children| && s.children[i].Working? then
        var s' := Put(s, i, Working(s.children[i].done + [e]));
        Some(if s.loop.Waiting? then s'.(log := s.log + [e]) else s')
      else None
    case Finish(i, r) =>
      if i < |s.children| && s.children[i].Working? then Some(Put(s, i, Sending(s.children[i].done, r))) else None
    case Receive(i) =>
      if s.loop.Waiting? && i < |s.children| && s.children[i].Sending? then
        var c := s.children[i];
        var s' := Put(s, i, Received(c.done, c.r)).(received := s.received + 1);
        Some(if c.r.Failed? then s'.(loop := Back(Some(c.r.cause)))
             else if s'.received == |s.children| then s'.(loop := Back(None)) else s')
      else None
    case Drop(i) =>
      if i < |s.children| && s.children[i].Sending? && ChildrenCancelled(s) then
        Some(Put(s, i, Dropped(s.children[i].done, s.children[i].r)))
      else None
    case Cancel => Some(s.(cancelled := true))
    case GiveUp => if s.loop.Waiting? && s.cancelled then Some(s.(loop := Back(Some(Cancelled)))) else None
  }

  /** n children have been started. */
  function Begin(n: nat): State {
    var children := seq(n, i => Working([]));
    State(children, if n == 0 then Back(None) else Waiting, 0, false, [], children)
  }

  /** A schedule of steps; None if one of them was not enabled. */
  function Play(s: State, steps: seq<Step>): (r: Option<State>)
    requires |s.children| == |s.seen|
    ensures r.Some? ==> |r.value.children| == |r.value.seen| == |s.children|
    decreases |steps|
  {
    if steps == [] then Some(s)
    else
      match Play(s, steps[..|steps| - 1])
      case None => None
      case Some(s') => Do(s', steps[|steps| - 1])
  }

  lemma {:induction false} PlayOn(s: State, first: seq<Step>, rest: seq<Step>)
    requires |s.children| == |s.seen| && Play(s, first).Some?
    ensures Play(s, first + rest) == Play(Play(s, first).value, rest)
    decreases |rest|
  {
    if rest == [] {
      assert first + rest == first;
    } else {
      var steps, init := first + rest, rest[..|rest| - 1];
      PlayOn(s, first, init);
      assert steps[..|steps| - 1] == first + init && steps[|steps| - 1] == rest[|rest| - 1];
    }
  }

  lemma PlayOne(s: State, step: Step)
    requires |s.children| == |s.seen|
    ensures Play(s, [step]) == Do(s, step)
  {
    assert [step][..0] == [];
    assert Play(s, []) == Some(s);
  }

  // ---- what every schedule keeps

  function CountReceived(cs: seq<Child>): nat {
    if cs == [] then 0 else (if cs[0].Received? then 1 else 0) + CountReceived(cs[1..])
  }

  /** The children's traces so far, as parts of branches. */
  function Parts(cs: seq<Child>): seq<Branch> {
    if cs == [] then [] else [Branch(cs[0].done, cs[0].done, Returned(None))] + Parts(cs[1..])
  }

  /** Up to its return, the loop has received results without errors, and missed none unless it was cancelled. */
  ghost predicate Sane(s: State) {
    && |s.children| == |s.seen|
    && Interleaves(s.log, Parts(s.seen))
    && (forall i :: 0 <= i < |s.seen| && s.seen[i].Dropped? ==> s.cancelled)
    && match s.loop
       case Waiting =>
         && s.seen == s.children && s.received == CountReceived(s.seen) < |s.seen|
         && forall i :: 0 <= i < |s.seen| && s.seen[i].Received? ==> s.seen[i].r.Returned?
       case Back(None) => forall i :: 0 <= i < |s.seen| ==> s.seen[i].Received? && s.seen[i].r.Returned?
       case Back(Some(e)) =>
         || (s.cancelled && e == Cancelled && s.seen != [])
         || exists i :: 0 <= i < |s.seen| && s.seen[i].Received? && s.seen[i].r == Failed(e)
  }

  lemma {:induction false} CountAfter(cs: seq<Child>, i: nat, c: Child)
    requires i < |cs| && !cs[i].Received?
    ensures CountReceived(cs[i := c]) == CountReceived(cs) + if c.Received? then 1 else 0
    decreases |cs|
  {
    if i == 0 {
      assert cs[i := c][1..] == cs[1..];
    } else {
      assert cs[i := c][1..] == cs[1..][i - 1 := c];
      CountAfter(cs[1..], i - 1, c);
    }
  }

  lemma {:induction false} CountIsBounded(cs: seq<Child>)
    ensures CountReceived(cs) <= |cs|
    ensures CountReceived(cs) == |cs| <==> forall i :: 0 <= i < |cs| ==> cs[i].Received?
    decreases |cs|
  {
    if cs != [] {
      CountIsBounded(cs[1..]);
    }
  }

  lemma {:induction false} ShuffleOneMore(tr: Trace, a: Trace, b: Trace, e: Event)
    requires Shuffle(tr, a, b)
    ensures Shuffle(tr + [e], a + [e], b) && Shuffle(tr + [e], a, b + [e])
    decreases |tr|
  {
    if tr == [] {
      assert [e][1..] == [];
    } else {
      assert (tr + [e])[1..] == tr[1..] + [e];
      if a != [] && a[0] == tr[0] && Shuffle(tr[1..], a[1..], b) {
        assert (a + [e])[1..] == a[1..] + [e];
        ShuffleOneMore(tr[1..], a[1..], b, e);
      } else {
        assert (b + [e])[1..] == b[1..] + [e];
        ShuffleOneMore(tr[1..], a, b[1..], e);
      }
    }
  }

  /** One more event of the i-th child. */
  lemma {:induction false} InterleavesOneMore(tr: Trace, cs: seq<Child>, i: nat, e: Event)
    requires i < |cs| && Interleaves(tr, Parts(cs)) && cs[i].Working?
    ensures Interleaves(tr + [e], Parts(cs[i := Working(cs[i].done + [e])]))
    decreases |cs|
  {
    var c := Working(cs[i].done + [e]);
    var rest :| Interleaves(rest, Parts(cs)[1..]) && Shuffle(tr, cs[0].done, rest);
    assert Parts(cs)[1..] == Parts(cs[1..]);
    var cs' := cs[i := c];
    assert Parts(cs')[1..] == Parts(cs'[1..]);
    if i == 0 {
      assert cs'[1..] == cs[1..];
      ShuffleOneMore(tr, cs[0].done, rest, e);
    } else {
      assert cs'[1..] == cs[1..][i - 1 := c];
      InterleavesOneMore(rest, cs[1..], i - 1, e);
      ShuffleOneMore(tr, cs[0].done, rest, e);
    }
  }

  lemma {:induction false} SamePartsSo(cs: seq<Child>, i: nat, c: Child)
    requires i < |cs| && c.done == cs[i].done
    ensures Parts(cs[i := c]) == Parts(cs)
    decreases |cs|
  {
    if i == 0 {
      assert cs[i := c][1..] == cs[1..];
    } else {
      assert cs[i := c][1..] == cs[1..][i - 1 := c];
      SamePartsSo(cs[1..], i - 1, c);
    }
  }

  lemma {:induction false} NoParts(n: nat)
    ensures Interleaves([], Parts(seq(n, i => Working([]))))
    ensures CountReceived(seq(n, i => Working([]))) == 0
    decreases n
  {
    if n > 0 {
      var cs := seq(n, i => Working([]));
      NoParts(n - 1);
      assert cs[1..] == seq(n - 1, i => Working([]));
      assert Parts(cs)[1..] == Parts(cs[1..]);
      assert Shuffle([], [], []);
    }
  }

  lemma BeginIsSane(n: nat)
    ensures Sane(Begin(n))
  {
    NoParts(n);
  }

  lemma StepKeepsSane(s: State, step: Step)
    requires Sane(s) && Do(s, step).Some?
    ensures Sane(Do(s, step).value)
  {
    match step
    case Work(i, e) => WorkKeepsSane(s, i, e);
    case Finish(i, r) =>
      SamePartsSo(s.children, i, Sending(s.children[i].done, r));
      CountAfter(s.children, i, Sending(s.children[i].done, r));
    case Receive(i) => ReceiveKeepsSane(s, i);
    case Drop(i) =>
      SamePartsSo(s.children, i, Dropped(s.children[i].done, s.children[i].r));
      CountAfter(s.children, i, Dropped(s.children[i].done, s.children[i].r));
    case Cancel =>
    case GiveUp =>
  }

  lemma WorkKeepsSane(s: State, i: nat, e: Event)
    requires Sane(s) && Do(s, Work(i, e)).Some?
    ensures Sane(Do(s, Work(i, e)).value)
  {
    if s.loop.Waiting? {
      InterleavesOneMore(s.log, s.seen, i, e);
      CountAfter(s.seen, i, Working(s.seen[i].done + [e]));
    }
  }

  lemma ReceiveKeepsSane(s: State, i: nat)
    requires Sane(s) && Do(s, Receive(i)).Some?
    ensures Sane(Do(s, Receive(i)).value)
  {
    hide Interleaves, Parts, CountReceived;
    var s' := Do(s, Receive(i)).value;
    var c := Received(s.seen[i].done, s.seen[i].r);
    SamePartsSo(s.seen, i, c);
    CountAfter(s.seen, i, c);
    CountIsBounded(s'.seen);
    assert s'.seen[i] == c;
  }

  lemma {:induction false} AlwaysSane(n: nat, steps: seq<Step>)
    requires Play(Begin(n), steps).Some?
    ensures Sane(Play(Begin(n), steps).value)
    decreases |steps|
  {
    if steps == [] {
      BeginIsSane(n);
    } else {
      AlwaysSane(n, steps[..|steps| - 1]);
      StepKeepsSane(Play(Begin(n), steps[..|steps| - 1]).value, steps[|steps| - 1]);
    }
  }

  /** While the loop waits, a child is at work or a step is enabled that brings the loop on. */
  lemma NeverStuck(s: State) returns (i: nat)
    requires Sane(s) && s.loop.Waiting?
    ensures Do(s, GiveUp).Some? || (i < |s.children| && (s.children[i].Working? || Do(s, Receive(i)).Some?))
  {
    CountIsBounded(s.children);
    i :| 0 <= i < |s.children| && !s.children[i].Received?;
  }

  /** The child is not at its send: it is still at work, or past the send. */
  predicate Free(c: Child) {
    !c.Sending?
  }

  /** What can become of a child by dropping its result. */
  predicate DroppedOrSame(c: Child, d: Child) {
    d == c || (c.Sending? && d == Dropped(c.done, c.r))
  }

  predicate OnlyDrops(steps: seq<Step>) {
    forall step :: step in steps ==> step.Drop?
  }

  /** The children from the i-th on can leave their sends. */
  lemma {:induction false} RestCanLeave(s: State, i: nat) returns (steps: seq<Step>)
    requires |s.children| == |s.seen| && s.loop.Back? && i <= |s.children|
    requires forall j :: 0 <= j < i ==> Free(s.children[j])
    ensures OnlyDrops(steps) && Play(s, steps).Some?
    ensures var s' := Play(s, steps).value;
            forall j :: 0 <= j < |s.children| ==> Free(s'.children[j]) && DroppedOrSame(s.children[j], s'.children[j])
    decreases |s.children| - i
  {
    if i == |s.children| {
      steps := [];
    } else if Free(s.children[i]) {
      steps := RestCanLeave(s, i + 1);
    } else {
      var s1 := Do(s, Drop(i)).value;
      PlayOne(s, Drop(i));
      var rest := RestCanLeave(s1, i + 1);
      steps := [Drop(i)] + rest;
      PlayOn(s, [Drop(i)], rest);
    }
  }

  /**
   Once the loop has returned, every schedule can be gone on with until no child is left at its send: each that
   had finished is received or dropped, and the others are as they were.
   */
  lemma NoChildStaysBlocked(n: nat, steps: seq<Step>) returns (more: seq<Step>)
    requires Play(Begin(n), steps).Some? && Play(Begin(n), steps).value.loop.Back?
    ensures OnlyDrops(more) && Play(Begin(n), steps + more).Some?
    ensures var s, s' := Play(Begin(n), steps).value, Play(Begin(n), steps + more).value;
            forall j :: 0 <= j < n ==>
              && DroppedOrSame(s.children[j], s'.children[j])
              && (s'.children[j].Working? || s'.children[j].Received? || s'.children[j].Dropped?)
  {
    var s := Play(Begin(n), steps).value;
    more := RestCanLeave(s, 0);
    PlayOn(Begin(n), steps, more);
  }

  /** As long as no child fails and the given context is not done, the loop returns only when all children have. */
  lemma NoFailureNoCancellation(s: State)
    requires Sane(s) && !s.cancelled && forall i :: 0 <= i < |s.seen| && !s.seen[i].Working? ==> s.seen[i].r.Returned?
    ensures s.loop == Back(None) <==> s.loop.Back?
    ensures s.loop.Back? ==> forall i :: 0 <= i < |s.seen| ==> s.seen[i].Received?
  {
  }
}
