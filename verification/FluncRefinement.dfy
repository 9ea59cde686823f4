/**
 The steps of Parallel and the relation for steps in parallel say the same: what a schedule can bring about is
 a run, and every run is brought about by a schedule.
 */
module FluncRefinement {
  import opened Options
  import opened JobVisit
  import opened JobRuns
  import opened JobMeaning
  import opened JobHosts
  import opened FluncParallel

  /** The i-th child has done its branch's part, and if it is through, all of it and with its result. */
  ghost predicate Follow(cs: seq<Child>, bs: seq<Branch>) {
    && |cs| == |bs|
    && forall i :: 0 <= i < |cs| ==>
         cs[i].done == bs[i].part && (!cs[i].Working? ==> bs[i].part == bs[i].full && bs[i].r == cs[i].r)
  }

  // ---- schedules are runs

  /** When the loop has returned, the children's doings and its result are a run. */
  lemma SchedulesAreRuns(ts: seq<Tree>, ctx: Context, canc: Cancellation, bs: seq<Branch>, n: nat, steps: seq<Step>)
    requires Play(Begin(n), steps).Some? && Play(Begin(n), steps).value.loop.Back?
    requires BranchesRun(ts, ctx, canc, bs) && Follow(Play(Begin(n), steps).value.seen, bs)
    requires Play(Begin(n), steps).value.cancelled ==> MayBeDone(ctx, canc)
    ensures var s := Play(Begin(n), steps).value;
            ParallelRuns(ts, ctx, canc, s.log, AsResult(s.loop.e))
  {
    var s := Play(Begin(n), steps).value;
    AlwaysSane(n, steps);
    PartsOf(s.seen);
    SameParts(s.log, Parts(s.seen), bs);
    if s.loop.e.Some? && !(s.cancelled && s.loop.e == Some(Cancelled)) {
      var i :| 0 <= i < |s.seen| && s.seen[i].Received? && s.seen[i].r == Failed(s.loop.e.value);
      assert bs[i] in bs;
    }
    assert Joined(bs, MayBeDone(ctx, canc), AsResult(s.loop.e));
  }

  lemma {:induction false} PartsOf(cs: seq<Child>)
    ensures |Parts(cs)| == |cs| && forall i :: 0 <= i < |cs| ==> Parts(cs)[i].part == cs[i].done
    decreases |cs|
  {
    if cs != [] {
      PartsOf(cs[1..]);
    }
  }

  // ---- runs have schedules

  /** Where the first event of a shuffle comes from. */
  lemma FirstOfShuffle(tr: Trace, a: Trace, b: Trace) returns (left: bool)
    requires tr != [] && Shuffle(tr, a, b)
    ensures if left then a != [] && a[0] == tr[0] && Shuffle(tr[1..], a[1..], b)
            else b != [] && b[0] == tr[0] && Shuffle(tr[1..], a, b[1..])
  {
    left := a != [] && a[0] == tr[0] && Shuffle(tr[1..], a[1..], b);
  }

  lemma ShuffleFirst(tr: Trace, a: Trace, b: Trace)
    requires tr != []
    ensures a != [] && a[0] == tr[0] && Shuffle(tr[1..], a[1..], b) ==> Shuffle(tr, a, b)
    ensures b != [] && b[0] == tr[0] && Shuffle(tr[1..], a, b[1..]) ==> Shuffle(tr, a, b)
  {
  }

  lemma ShuffleOfNothing(tr: Trace, a: Trace, b: Trace)
    requires tr == []
    ensures Shuffle(tr, a, b) <==> a == [] && b == []
  {
  }

  /** The last event of a shuffle is the last of one side. */
  lemma {:induction false} LastOfShuffle(tr: Trace, a: Trace, b: Trace) returns (left: bool)
    requires tr != [] && Shuffle(tr, a, b)
    ensures var init, e := tr[..|tr| - 1], tr[|tr| - 1];
            if left then a != [] && a[|a| - 1] == e && Shuffle(init, a[..|a| - 1], b)
            else b != [] && b[|b| - 1] == e && Shuffle(init, a, b[..|b| - 1])
    decreases |tr|
  {
    hide Shuffle;
    var takeA := FirstOfShuffle(tr, a, b);
    var a1, b1 := if takeA then a[1..] else a, if takeA then b else b[1..];
    var init := tr[..|tr| - 1];
    if |tr| == 1 {
      left := takeA;
      ShuffleOfNothing(tr[1..], a1, b1);
      ShuffleOfNothing(init, [], []);
      assert left ==> a[..|a| - 1] == [] && b == [];
      assert !left ==> b[..|b| - 1] == [] && a == [];
    } else {
      left := LastOfShuffle(tr[1..], a1, b1);
      assert init[1..] == tr[1..][..|tr| - 2];
      if left {
        assert takeA ==> a[..|a| - 1][1..] == a1[..|a1| - 1];
        ShuffleFirst(init, a[..|a| - 1], b);
      } else {
        assert !takeA ==> b[..|b| - 1][1..] == b1[..|b1| - 1];
        ShuffleFirst(init, a, b[..|b| - 1]);
      }
    }
  }

  /** The branch without its last event. */
  function Shorter(b: Branch): Branch {
    if b.part == [] then b else b.(part := b.part[..|b.part| - 1])
  }

  lemma {:induction false} LastOfInterleaving(tr: Trace, bs: seq<Branch>) returns (i: nat)
    requires tr != [] && Interleaves(tr, bs)
    ensures i < |bs| && bs[i].part != [] && bs[i].part[|bs[i].part| - 1] == tr[|tr| - 1]
    ensures Interleaves(tr[..|tr| - 1], bs[i := Shorter(bs[i])])
    decreases |bs|
  {
    var rest :| Interleaves(rest, bs[1..]) && Shuffle(tr, bs[0].part, rest);
    var left := LastOfShuffle(tr, bs[0].part, rest);
    if left {
      i := 0;
      assert bs[0 := Shorter(bs[0])][1..] == bs[1..];
    } else {
      var j := LastOfInterleaving(rest, bs[1..]);
      i := j + 1;
      var bs' := bs[i := Shorter(bs[i])];
      assert bs'[1..] == bs[1..][j := Shorter(bs[1..][j])];
      assert Interleaves(rest[..|rest| - 1], bs'[1..]) && Shuffle(tr[..|tr| - 1], bs'[0].part, rest[..|rest| - 1]);
    }
  }

  /** All children at work, having done their parts, and the loop waiting. */
  predicate AtWork(s: State, bs: seq<Branch>, tr: Trace) {
    && s.loop.Waiting? && !s.cancelled && s.received == 0 && s.log == tr && s.seen == s.children && |s.children| == |bs|
    && forall i :: 0 <= i < |bs| ==> s.children[i] == Working(bs[i].part)
  }

  lemma {:induction false} EmptyParts(bs: seq<Branch>)
    requires Interleaves([], bs)
    ensures forall i :: 0 <= i < |bs| ==> bs[i].part == []
    decreases |bs|
  {
    if bs != [] {
      var rest :| Interleaves(rest, bs[1..]) && Shuffle([], bs[0].part, rest);
      EmptyParts(bs[1..]);
    }
  }

  /** The children can do their parts in any interleaving. */
  lemma {:induction false} WorkSchedule(tr: Trace, bs: seq<Branch>) returns (steps: seq<Step>)
    requires bs != [] && Interleaves(tr, bs)
    ensures Play(Begin(|bs|), steps).Some? && AtWork(Play(Begin(|bs|), steps).value, bs, tr)
    decreases |tr|
  {
    hide Interleaves, Do;
    if tr == [] {
      EmptyParts(bs);
      steps := [];
    } else {
      var init, e := tr[..|tr| - 1], tr[|tr| - 1];
      var i := LastOfInterleaving(tr, bs);
      var bs' := bs[i := Shorter(bs[i])];
      var first := WorkSchedule(init, bs');
      var s := Play(Begin(|bs|), first).value;
      steps := first + [Work(i, e)];
      PlayOn(Begin(|bs|), first, [Work(i, e)]);
      PlayOne(s, Work(i, e));
      WorkOn(s, bs, init, i, e);
      assert init + [e] == tr;
    }
  }

  /** One child does the last event of its part. */
  lemma WorkOn(s: State, bs: seq<Branch>, init: Trace, i: nat, e: Event)
    requires i < |bs| && bs[i].part != [] && bs[i].part[|bs[i].part| - 1] == e
    requires AtWork(s, bs[i := Shorter(bs[i])], init)
    ensures Do(s, Work(i, e)).Some? && AtWork(Do(s, Work(i, e)).value, bs, init + [e])
  {
    assert Shorter(bs[i]).part + [e] == bs[i].part;
  }

  /** The first i children have been received, the others are at work. */
  predicate PartlyReceived(s: State, bs: seq<Branch>, tr: Trace, i: nat) {
    && !s.cancelled && s.received == i && s.log == tr && s.seen == s.children && |s.children| == |bs| && i <= |bs|
    && (forall j :: 0 <= j < i ==> s.children[j] == Received(bs[j].part, bs[j].r))
    && (forall j :: i <= j < |bs| ==> s.children[j] == Working(bs[j].part))
    && s.loop == if i == |bs| then Back(None) else Waiting
  }

  /** Children that succeed can finish and be received one after the other. */
  lemma {:induction false} ReceiveSchedule(s: State, bs: seq<Branch>, tr: Trace, i: nat) returns (steps: seq<Step>)
    requires i <= |bs| && PartlyReceived(s, bs, tr, i) && forall j :: 0 <= j < |bs| ==> bs[j].r.Returned?
    ensures Play(s, steps).Some? && PartlyReceived(Play(s, steps).value, bs, tr, |bs|)
    decreases |bs| - i
  {
    if i == |bs| {
      steps := [];
    } else {
      var s1 := FinishAndReceive(s, i, bs[i].r);
      assert PartlyReceived(s1, bs, tr, i + 1);
      var rest := ReceiveSchedule(s1, bs, tr, i + 1);
      steps := [Finish(i, bs[i].r), Receive(i)] + rest;
      PlayOn(s, [Finish(i, bs[i].r), Receive(i)], rest);
    }
  }

  lemma FinishAndReceive(s: State, i: nat, r: Result) returns (s': State)
    requires s.loop.Waiting? && s.seen == s.children && i < |s.children| && s.children[i].Working?
    ensures Play(s, [Finish(i, r), Receive(i)]) == Some(s')
    ensures var cs := s.children[i := Received(s.children[i].done, r)];
            && s'.children == cs && s'.seen == cs && s'.received == s.received + 1 && s'.log == s.log
            && s'.cancelled == s.cancelled
            && s'.loop == if r.Failed? then Back(Some(r.cause))
                          else if s.received + 1 == |cs| then Back(None)
                          else Waiting
  {
    var s1 := Do(s, Finish(i, r)).value;
    PlayOne(s, Finish(i, r));
    PlayOn(s, [Finish(i, r)], [Receive(i)]);
    PlayOne(s1, Receive(i));
    assert [Finish(i, r)] + [Receive(i)] == [Finish(i, r), Receive(i)];
    s' := Do(s1, Receive(i)).value;
    var c := s.children[i];
    assert s.children[i := Sending(c.done, r)][i := Received(c.done, r)] == s.children[i := Received(c.done, r)];
  }

  lemma CancelAndGiveUp(s: State) returns (s': State)
    requires s.loop.Waiting? && |s.children| == |s.seen|
    ensures Play(s, [Cancel, GiveUp]) == Some(s')
    ensures s' == s.(cancelled := true, loop := Back(Some(Cancelled)))
  {
    var s1 := Do(s, Cancel).value;
    PlayOne(s, Cancel);
    PlayOn(s, [Cancel], [GiveUp]);
    PlayOne(s1, GiveUp);
    assert [Cancel] + [GiveUp] == [Cancel, GiveUp];
    s' := Do(s1, GiveUp).value;
  }

  /**
   Every run of parallel branches is brought about by a schedule, which cancels the context only if it may be
   cancelled.
   */
  lemma RunsHaveSchedules(tr: Trace, bs: seq<Branch>, mayBeDone: bool, r: Result) returns (steps: seq<Step>)
    requires Interleaves(tr, bs) && Joined(bs, mayBeDone, r)
    ensures Play(Begin(|bs|), steps).Some?
    ensures var s := Play(Begin(|bs|), steps).value;
            s.loop == Back(Verdict(r)) && s.log == tr && (s.cancelled ==> mayBeDone) && Follow(s.seen, bs)
  {
    if bs == [] {
      steps := [];
    } else {
      var first := WorkSchedule(tr, bs);
      var s := Play(Begin(|bs|), first).value;
      var more, s';
      if r == Returned(None) && forall b :: b in bs ==> b.part == b.full && b.r.Returned? {
        assert forall j :: 0 <= j < |bs| ==> bs[j] in bs;
        more := ReceiveSchedule(s, bs, tr, 0);
        s' := Play(s, more).value;
      } else if b :| b in bs && b.part == b.full && b.r.Failed? && b.r == r {
        var i :| 0 <= i < |bs| && bs[i] == b;
        more := [Finish(i, r), Receive(i)];
        s' := FinishAndReceive(s, i, r);
      } else {
        more := [Cancel, GiveUp];
        s' := CancelAndGiveUp(s);
      }
      steps := first + more;
      PlayOn(Begin(|bs|), first, more);
    }
  }
}
