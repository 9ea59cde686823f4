/**
 The executor's books: which runs are under way, at most one for each file, and which have completed. Every
 critical section is one step, and the steps of many runs and removals interleave in any order.
 */
module ExecutorRuns {
  import opened Options

  type File = string

  /** What is kept of a history: the last max entries, or all if max is 0. */
  function Recent<T>(history: seq<T>, max: nat): seq<T> {
    if 0 < max < |history| then history[|history| - max..] else history
  }

  // ---- any number of runs and removals at the same time

  /**
   A run is made, gets its cancel function, and is then rejected or goes on: its steps are under way, they have
   returned, it has left the running map, it is in the history.
   */
  datatype Phase = Made | Ready | Rejected | Live | Ending | Unlisted | Done

  /** cancel tells whether the function to cancel the run is set. */
  datatype RunState = RunState(file: File, phase: Phase, cancel: bool)

  /**
   A removal that has found a run, before and after it has deleted the file's entry. One that finds none ends
   there.
   */
  datatype Removal = Removal(file: File, found: nat, deleted: bool)

  /** Runs are known by their position in runs. */
  datatype State = State(runs: seq<RunState>, running: map<File, nat>, completed: seq<nat>, history: seq<nat>,
                         removals: seq<Removal>)

  datatype Step =
    | Wake(file: File)
    | SetCancel(id: nat)
    | Admit(id: nat)
    | Return(id: nat)
    | Unlist(id: nat)
    | Complete(id: nat)
    | LookUp(file: File)
    | Delete(k: nat)

  predicate In(s: State, id: nat, phase: Phase) {
    id < |s.runs| && s.runs[id].phase == phase
  }

  function Move(s: State, id: nat, phase: Phase): State
    requires id < |s.runs|
  {
    s.(runs := s.runs[id := s.runs[id].(phase := phase)])
  }

  function Equip(s: State, id: nat): State
    requires id < |s.runs|
  {
    s.(runs := s.runs[id := s.runs[id].(phase := Ready, cancel := true)])
  }

  /** One step; None if it is not enabled. */
  function Do(s: State, step: Step, max: nat): Option<State> {
    match step
    case Wake(file) => Some(s.(runs := s.runs + [RunState(file, Made, false)]))
    case SetCancel(id) => if In(s, id, Made) then Some(Equip(s, id)) else None
    case Admit(id) =>
      if !In(s, id, Ready) then None
      else if s.runs[id].file in s.running then Some(Move(s, id, Rejected))
      else Some(Move(s, id, Live).(running := s.running[s.runs[id].file := id]))
    case Return(id) => if In(s, id, Live) then Some(Move(s, id, Ending)) else None
    case Unlist(id) =>
      if In(s, id, Ending) then Some(Move(s, id, Unlisted).(running := s.running - {s.runs[id].file})) else None
    case Complete(id) =>
      if In(s, id, Unlisted) then
        Some(Move(s, id, Done).(history := s.history + [id], completed := Recent(s.completed + [id], max)))
      else None
    case LookUp(file) =>
      Some(if file in s.running then s.(removals := s.removals + [Removal(file, s.running[file], false)]) else s)
    case Delete(k) =>
      if k < |s.removals| && !s.removals[k].deleted then
        Some(s.(removals := s.removals[k := s.removals[k].(deleted := true)],
                running := s.running - {s.removals[k].file}))
      else None
  }

  const START := State([], map[], [], [], [])

  /** A schedule of steps; None if one of them was not enabled. */
  function Play(s: State, steps: seq<Step>, max: nat): Option<State>
    decreases |steps|
  {
    if steps == [] then Some(s)
    else
      match Play(s, steps[..|steps| - 1], max)
      case None => None
      case Some(s') => Do(s', steps[|steps| - 1], max)
  }

  /** Admitted, and not yet out of the running map by its own doing. */
  predicate UnderWay(s: State, id: nat) {
    In(s, id, Live) || In(s, id, Ending)
  }

  /** A run of the file was found by a removal. */
  ghost predicate Removed(s: State, file: File) {
    exists k :: 0 <= k < |s.removals| && s.removals[k].file == file
  }

  /** The file's entry is about this run. */
  predicate Listed(s: State, file: File, id: nat) {
    file in s.running && s.running[file] == id
  }

  ghost predicate RunningRight(s: State) {
    // an entry is about a run of its file that is under way
    && (forall f :: f in s.running ==> UnderWay(s, s.running[f]) && s.runs[s.running[f]].file == f)
    // a run that is under way can be cancelled
    && (forall id: nat :: UnderWay(s, id) || In(s, id, Ready) ==> s.runs[id].cancel)
    // a run of a file of which no run was removed has its entry
    && (forall id: nat :: UnderWay(s, id) && !Removed(s, s.runs[id].file) ==> Listed(s, s.runs[id].file, id))
  }

  /** Each run that is done is in the history, once, and nothing else is; and the latest of it are kept. */
  ghost predicate HistoryRight(s: State, max: nat) {
    && (forall id: nat :: id in s.history <==> In(s, id, Done))
    && (forall i, j :: 0 <= i < j < |s.history| ==> s.history[i] != s.history[j])
    && s.completed == Recent(s.history, max)
  }

  ghost predicate BooksRight(s: State, max: nat) {
    RunningRight(s) && HistoryRight(s, max)
  }

  lemma RecentOneMore<T>(history: seq<T>, x: T, max: nat)
    ensures Recent(Recent(history, max) + [x], max) == Recent(history + [x], max)
  {
  }

  lemma StepKeepsBooks(s: State, step: Step, max: nat)
    requires BooksRight(s, max) && Do(s, step, max).Some?
    ensures BooksRight(Do(s, step, max).value, max)
  {
    match step
    case Wake(file) => WakeKeepsBooks(s, file, max);
    case SetCancel(id) => EquipKeepsBooks(s, id, max);
    case Admit(id) => AdmitKeepsBooks(s, id, max);
    case Return(id) => ReturnKeepsBooks(s, id, max);
    case Unlist(id) => UnlistKeepsBooks(s, id, max);
    case Complete(id) => CompleteKeepsBooks(s, id, max);
    case LookUp(file) => LookUpKeepsBooks(s, file, max);
    case Delete(k) => DeleteKeepsBooks(s, k, max);
  }

  lemma WakeKeepsBooks(s: State, file: File, max: nat)
    requires BooksRight(s, max)
    ensures BooksRight(Do(s, Wake(file), max).value, max)
  {
    var s' := Do(s, Wake(file), max).value;
    assert forall id: nat, p :: p != Made ==> (In(s', id, p) <==> In(s, id, p));
  }

  lemma LookUpKeepsBooks(s: State, file: File, max: nat)
    requires BooksRight(s, max)
    ensures BooksRight(Do(s, LookUp(file), max).value, max)
  {
    var s' := Do(s, LookUp(file), max).value;
    assert forall k :: 0 <= k < |s.removals| ==> s'.removals[k] == s.removals[k];
    assert forall i: nat, p :: In(s', i, p) <==> In(s, i, p);
  }

  lemma EquipKeepsBooks(s: State, id: nat, max: nat)
    requires BooksRight(s, max) && In(s, id, Made)
    ensures BooksRight(Equip(s, id), max)
  {
    var s' := Equip(s, id);
    assert forall i: nat :: UnderWay(s', i) <==> UnderWay(s, i);
    assert forall i: nat :: In(s', i, Done) <==> In(s, i, Done);
    assert forall f :: Removed(s', f) <==> Removed(s, f);
  }

  lemma RejectKeepsBooks(s: State, id: nat, max: nat)
    requires BooksRight(s, max) && In(s, id, Ready)
    ensures BooksRight(Move(s, id, Rejected), max)
  {
    var s' := Move(s, id, Rejected);
    assert forall f :: Removed(s', f) <==> Removed(s, f);
    assert forall i: nat :: UnderWay(s', i) <==> UnderWay(s, i);
    assert forall i: nat :: In(s', i, Done) <==> In(s, i, Done);
  }

  lemma AdmitKeepsBooks(s: State, id: nat, max: nat)
    requires BooksRight(s, max) && In(s, id, Ready)
    ensures BooksRight(Do(s, Admit(id), max).value, max)
  {
    if s.runs[id].file in s.running {
      RejectKeepsBooks(s, id, max);
    } else {
      var s' := Do(s, Admit(id), max).value;
      assert forall i: nat :: UnderWay(s', i) <==> UnderWay(s, i) || i == id;
      assert forall i: nat :: In(s', i, Done) <==> In(s, i, Done);
    }
  }

  lemma ReturnKeepsBooks(s: State, id: nat, max: nat)
    requires BooksRight(s, max) && In(s, id, Live)
    ensures BooksRight(Do(s, Return(id), max).value, max)
  {
    var s' := Do(s, Return(id), max).value;
    assert forall i: nat :: UnderWay(s', i) <==> UnderWay(s, i);
    assert forall i: nat :: In(s', i, Done) <==> In(s, i, Done);
  }

  lemma UnlistKeepsBooks(s: State, id: nat, max: nat)
    requires BooksRight(s, max) && In(s, id, Ending)
    ensures BooksRight(Do(s, Unlist(id), max).value, max)
  {
    var s' := Do(s, Unlist(id), max).value;
    assert UnderWay(s, id);
    assert forall i: nat :: UnderWay(s', i) <==> UnderWay(s, i) && i != id;
    assert forall i: nat :: In(s', i, Done) <==> In(s, i, Done);
  }

  lemma CompleteKeepsBooks(s: State, id: nat, max: nat)
    requires BooksRight(s, max) && In(s, id, Unlisted)
    ensures BooksRight(Do(s, Complete(id), max).value, max)
  {
    var s' := Do(s, Complete(id), max).value;
    assert forall i: nat :: UnderWay(s', i) <==> UnderWay(s, i);
    CompleteKeepsHistory(s, id, max);
  }

  lemma CompleteKeepsHistory(s: State, id: nat, max: nat)
    requires HistoryRight(s, max) && In(s, id, Unlisted)
    ensures HistoryRight(Do(s, Complete(id), max).value, max)
  {
    hide Recent;
    var s' := Do(s, Complete(id), max).value;
    assert forall i: nat :: In(s', i, Done) <==> In(s, i, Done) || i == id;
    assert !In(s, id, Done) && id !in s.history;
    RecentOneMore(s.history, id, max);
  }

  lemma DeleteKeepsBooks(s: State, k: nat, max: nat)
    requires BooksRight(s, max) && Do(s, Delete(k), max).Some?
    ensures BooksRight(Do(s, Delete(k), max).value, max)
  {
    var s' := Do(s, Delete(k), max).value;
    assert forall i: nat :: UnderWay(s', i) <==> UnderWay(s, i);
    assert s'.removals[k].file == s.removals[k].file;
    forall f | Removed(s, f) ensures Removed(s', f) {
      var j :| 0 <= j < |s.removals| && s.removals[j].file == f;
      assert s'.removals[j].file == f;
    }
  }

  /** Every schedule keeps the books right. */
  lemma {:induction false} SchedulesKeepBooks(s: State, steps: seq<Step>, max: nat)
    requires BooksRight(s, max) && Play(s, steps, max).Some?
    ensures BooksRight(Play(s, steps, max).value, max)
    decreases |steps|
  {
    if steps != [] {
      var init := steps[..|steps| - 1];
      SchedulesKeepBooks(s, init, max);
      StepKeepsBooks(Play(s, init, max).value, steps[|steps| - 1], max);
    }
  }

  /** The books are right at all times, under every interleaving. */
  lemma BooksAlwaysRight(steps: seq<Step>, max: nat)
    requires Play(START, steps, max).Some?
    ensures BooksRight(Play(START, steps, max).value, max)
  {
    SchedulesKeepBooks(START, steps, max);
  }

  /** A file of which no run was ever removed has at most one run under way, and its entry is that run's. */
  lemma OneRunForEachFile(steps: seq<Step>, max: nat, s: State, a: nat, b: nat)
    requires Play(START, steps, max) == Some(s)
    requires UnderWay(s, a) && UnderWay(s, b) && s.runs[a].file == s.runs[b].file && !Removed(s, s.runs[a].file)
    ensures a == b && Listed(s, s.runs[a].file, a)
  {
    BooksAlwaysRight(steps, max);
  }

  /** With a maximum, no more completed runs are kept, and they are the latest of the history. */
  lemma CompletedIsRecent(steps: seq<Step>, max: nat, s: State)
    requires Play(START, steps, max) == Some(s)
    ensures (max > 0 ==> |s.completed| <= max) && |s.completed| <= |s.history|
    ensures s.completed == s.history[|s.history| - |s.completed|..]
    ensures |s.completed| == |s.history| || |s.completed| == max
  {
    BooksAlwaysRight(steps, max);
  }

  lemma PlayOneMore(s: State, steps: seq<Step>, step: Step, max: nat)
    ensures var s' := Play(s, steps, max);
            Play(s, steps + [step], max) == if s'.Some? then Do(s'.value, step, max) else None
  {
    var all := steps + [step];
    assert all[..|all| - 1] == steps;
  }

  /** An admitted run can always go on until it is in the history, whatever the others do. */
  lemma AdmittedRunsComplete(s: State, id: nat, max: nat)
    requires In(s, id, Live)
    ensures var r := Play(s, [Return(id)] + [Unlist(id)] + [Complete(id)], max);
            r.Some? && r.value.history == s.history + [id]
  {
    assert [] + [Return(id)] == [Return(id)];
    PlayOneMore(s, [], Return(id), max);
    PlayOneMore(s, [Return(id)], Unlist(id), max);
    PlayOneMore(s, [Return(id)] + [Unlist(id)], Complete(id), max);
  }

  // ---- when runs of a file overlap

  /** Two runs of f are under way at the same time. */
  ghost predicate Overlap(s: State, f: File) {
    exists a: nat, b: nat :: a != b && UnderWay(s, a) && UnderWay(s, b) && s.runs[a].file == s.runs[b].file == f
  }

  /** A removal of f has found a run and not yet deleted the file's entry. */
  ghost predicate Pending(s: State, f: File) {
    exists k :: 0 <= k < |s.removals| && s.removals[k].file == f && !s.removals[k].deleted
  }

  /** A run of f is under way and has lost its entry. */
  ghost predicate Lost(s: State, f: File) {
    exists id: nat :: UnderWay(s, id) && s.runs[id].file == f && !Listed(s, f, id)
  }

  /** From s to r, no removal found a run of f. */
  ghost predicate NoneFound(s: State, r: State, f: File) {
    |s.removals| <= |r.removals| && forall k :: |s.removals| <= k < |r.removals| ==> r.removals[k].file != f
  }

  /** Removals stay, and stay deleted. */
  lemma RemovalsStay(s: State, step: Step, max: nat)
    requires Do(s, step, max).Some?
    ensures var s' := Do(s, step, max).value;
            && |s.removals| <= |s'.removals|
            && forall k :: 0 <= k < |s.removals| ==>
                 s'.removals[k].file == s.removals[k].file && (s.removals[k].deleted ==> s'.removals[k].deleted)
  {
  }

  /** As long as no removal finds a run of f, what could let runs of f overlap does not come about. */
  lemma StepKeepsApart(s: State, step: Step, f: File, max: nat)
    requires BooksRight(s, max) && !Pending(s, f) && !Lost(s, f)
    requires Do(s, step, max).Some? && NoneFound(s, Do(s, step, max).value, f)
    ensures !Pending(Do(s, step, max).value, f) && !Lost(Do(s, step, max).value, f)
  {
    var s' := Do(s, step, max).value;
    RemovalsStay(s, step, max);
    if step.Unlist? {
      assert UnderWay(s, step.id);
    }
    forall id: nat | UnderWay(s', id) && s'.runs[id].file == f ensures Listed(s', f, id) {
      if UnderWay(s, id) {
        assert Listed(s, f, id);
      }
    }
  }

  lemma {:induction false} ScheduleKeepsApart(s: State, steps: seq<Step>, f: File, max: nat)
    requires BooksRight(s, max) && !Pending(s, f) && !Lost(s, f)
    requires Play(s, steps, max).Some? && NoneFound(s, Play(s, steps, max).value, f)
    ensures !Pending(Play(s, steps, max).value, f) && !Lost(Play(s, steps, max).value, f)
    ensures |s.removals| <= |Play(s, steps, max).value.removals|
    decreases |steps|
  {
    if steps != [] {
      var init, last := steps[..|steps| - 1], steps[|steps| - 1];
      var s1 := Play(s, init, max).value;
      RemovalsStay(s1, last, max);
      RemovalsGrow(s, init, max);
      SchedulesKeepBooks(s, init, max);
      ScheduleKeepsApart(s, init, f, max);
      StepKeepsApart(s1, last, f, max);
    }
  }

  lemma {:induction false} RemovalsGrow(s: State, steps: seq<Step>, max: nat)
    requires Play(s, steps, max).Some?
    ensures |s.removals| <= |Play(s, steps, max).value.removals|
    decreases |steps|
  {
    if steps != [] {
      RemovalsGrow(s, steps[..|steps| - 1], max);
    }
  }

  /** A run of f that finds no entry is admitted, and nothing else changes. */
  lemma AdmittedRun(s: State, f: File, max: nat) returns (steps: seq<Step>)
    requires f !in s.running
    ensures Play(s, steps, max) ==
            Some(s.(runs := s.runs + [RunState(f, Live, true)], running := s.running[f := |s.runs|]))
  {
    var id := |s.runs|;
    assert [] + [Wake(f)] == [Wake(f)];
    PlayOneMore(s, [], Wake(f), max);
    PlayOneMore(s, [Wake(f)], SetCancel(id), max);
    steps := [Wake(f)] + [SetCancel(id)] + [Admit(id)];
    PlayOneMore(s, [Wake(f)] + [SetCancel(id)], Admit(id), max);
    var s1 := s.(runs := s.runs + [RunState(f, Made, false)]);
    var s2 := s.(runs := s.runs + [RunState(f, Ready, true)]);
    assert Equip(s1, id).runs == s2.runs;
    assert Move(s2, id, Live).runs == s.runs + [RunState(f, Live, true)];
  }

  lemma {:induction false} PlayOn(s: State, first: seq<Step>, rest: seq<Step>, max: nat)
    requires Play(s, first, max).Some?
    ensures Play(s, first + rest, max) == Play(Play(s, first, max).value, rest, max)
    decreases |rest|
  {
    if rest == [] {
      assert first + rest == first;
    } else {
      var all, init := first + rest, rest[..|rest| - 1];
      assert all[..|all| - 1] == first + init;
      PlayOn(s, first, init, max);
    }
  }

  /** A run that has lost its entry lets another one in. */
  lemma LostLetsOverlap(s: State, f: File, max: nat) returns (steps: seq<Step>)
    requires BooksRight(s, max) && Lost(s, f)
    ensures Play(s, steps, max).Some?
    ensures Overlap(Play(s, steps, max).value, f) && Play(s, steps, max).value.removals == s.removals
  {
    var id: nat :| UnderWay(s, id) && s.runs[id].file == f && !Listed(s, f, id);
    if f in s.running {
      steps := [];
      assert UnderWay(s, s.running[f]);
    } else {
      steps := AdmittedRun(s, f, max);
      var r := Play(s, steps, max).value;
      assert UnderWay(r, id) && UnderWay(r, |s.runs|) && r.runs[id].file == r.runs[|s.runs|].file == f;
    }
  }

  /** A pending removal makes the run that is listed when it goes on lose its entry. */
  lemma PendingLoses(s: State, f: File, max: nat) returns (steps: seq<Step>)
    requires BooksRight(s, max) && Pending(s, f)
    ensures Play(s, steps, max).Some? && NoneFound(s, Play(s, steps, max).value, f)
    ensures Lost(Play(s, steps, max).value, f)
  {
    var k :| 0 <= k < |s.removals| && s.removals[k].file == f && !s.removals[k].deleted;
    var first := [];
    if f !in s.running {
      first := AdmittedRun(s, f, max);
    }
    var s1 := Play(s, first, max).value;
    var id := s1.running[f];
    assert UnderWay(s1, id) && s1.runs[id].file == f;
    steps := first + [Delete(k)];
    PlayOneMore(s, first, Delete(k), max);
    assert UnderWay(Play(s, steps, max).value, id);
  }

  /**
   At any time, the runs of a file can come to overlap without another removal of one if and only if a removal
   is pending or a run has lost its entry.
   */
  lemma OverlapExactlyIf(s: State, f: File, max: nat)
    requires BooksRight(s, max)
    ensures (exists steps :: Play(s, steps, max).Some? && NoneFound(s, Play(s, steps, max).value, f)
                             && Overlap(Play(s, steps, max).value, f)) <==>
            Pending(s, f) || Lost(s, f)
  {
    if Pending(s, f) || Lost(s, f) {
      var first := [];
      if !Lost(s, f) {
        first := PendingLoses(s, f, max);
      }
      var s1 := Play(s, first, max).value;
      SchedulesKeepBooks(s, first, max);
      var rest := LostLetsOverlap(s1, f, max);
      PlayOn(s, first, rest, max);
      assert Overlap(Play(s, first + rest, max).value, f);
    } else if steps :| Play(s, steps, max).Some? && NoneFound(s, Play(s, steps, max).value, f)
                       && Overlap(Play(s, steps, max).value, f) {
      ScheduleKeepsApart(s, steps, f, max);
    }
  }

  /** A run that is removed loses its entry and goes on. */
  lemma RemovedRun(s: State, f: File, max: nat) returns (steps: seq<Step>)
    requires f in s.running
    ensures Play(s, steps, max) ==
            Some(s.(running := s.running - {f}, removals := s.removals + [Removal(f, s.running[f], true)]))
  {
    var k := |s.removals|;
    assert [] + [LookUp(f)] == [LookUp(f)];
    PlayOneMore(s, [], LookUp(f), max);
    PlayOneMore(s, [LookUp(f)], Delete(k), max);
    steps := [LookUp(f)] + [Delete(k)];
    var removals := s.removals + [Removal(f, s.running[f], false)];
    assert removals[k := removals[k].(deleted := true)] == s.removals + [Removal(f, s.running[f], true)];
  }

  /** A run that returns deletes the entry of its file. */
  lemma ReturnedRun(s: State, id: nat, max: nat) returns (steps: seq<Step>)
    requires In(s, id, Live)
    ensures Play(s, steps, max) == Some(Move(s, id, Unlisted).(running := s.running - {s.runs[id].file}))
  {
    assert [] + [Return(id)] == [Return(id)];
    PlayOneMore(s, [], Return(id), max);
    PlayOneMore(s, [Return(id)], Unlist(id), max);
    steps := [Return(id)] + [Unlist(id)];
    assert Move(Move(s, id, Ending), id, Unlisted).runs == Move(s, id, Unlisted).runs;
  }

  /**
   So it happens: a run that was removed deletes the entry of the run that came after it, and then a third run is
   admitted beside the second.
   */
  lemma RemovalLetsRunsOverlap(f: File, max: nat) returns (steps: seq<Step>)
    ensures Play(START, steps, max).Some?
    ensures var s := Play(START, steps, max).value;
            In(s, 1, Live) && In(s, 2, Live) && s.runs[1].file == s.runs[2].file == f
  {
    hide Do, Play;
    var first := AdmittedRun(START, f, max);
    var s1 := Play(START, first, max).value;
    var removed := RemovedRun(s1, f, max);
    var s2 := Play(s1, removed, max).value;
    var second := AdmittedRun(s2, f, max);
    var s3 := Play(s2, second, max).value;
    var returned := ReturnedRun(s3, 0, max);
    var s4 := Play(s3, returned, max).value;
    var third := AdmittedRun(s4, f, max);
    PlayOn(START, first, removed, max);
    PlayOn(START, first + removed, second, max);
    PlayOn(START, first + removed + second, returned, max);
    PlayOn(START, first + removed + second + returned, third, max);
    steps := first + removed + second + returned + third;
  }

  // ---- as it is programmed

  /** id is the position of the run in the steps' list of runs. */
  class RunInfo {
    const id: nat
    const file: File
    var cancel: bool    // whether the function to cancel the run is set

    constructor (id: nat, file: File)
      ensures this.id == id && this.file == file && !cancel
    {
      this.id, this.file, cancel := id, file, false;
    }
  }

  function Ids(infos: seq<RunInfo>): (ids: seq<nat>)
    ensures |ids| == |infos| && forall i :: 0 <= i < |ids| ==> ids[i] == infos[i].id
  {
    if infos == [] then [] else [infos[0].id] + Ids(infos[1..])
  }

  lemma IdsOfRecent(infos: seq<RunInfo>, info: RunInfo, max: nat)
    ensures Ids(Recent(infos + [info], max)) == Recent(Ids(infos) + [info.id], max)
  {
    hide Ids;
    var a, b := Ids(Recent(infos + [info], max)), Recent(Ids(infos) + [info.id], max);
    assert |a| == |b| && forall i :: 0 <= i < |a| ==> a[i] == b[i];
  }

  class Executor {
    const maxCompleted: nat
    var running: map<File, RunInfo>
    var completed: seq<RunInfo>

    /** The executor's fields are what s says of them. */
    ghost predicate Is(s: State)
      reads this
    {
      s.running == (map f | f in running :: running[f].id) && s.completed == Ids(completed)
    }

    /** Runs are listed under their files. */
    ghost predicate Valid()
      reads this
    {
      forall f :: f in running ==> running[f].file == f
    }

    constructor (maxCompleted: nat)
      ensures Valid() && this.maxCompleted == maxCompleted && running == map[] && completed == []
      ensures Is(START)
    {
      this.maxCompleted, running, completed := maxCompleted, map[], [];
    }

    /** The step Admit. */
    method AddRunning(info: RunInfo) returns (ok: bool)
      requires Valid()
      modifies this`running
      ensures Valid() && ok == (info.file !in old(running))
      ensures running == if ok then old(running)[info.file := info] else old(running)
      ensures forall s :: old(Is(s)) && In(s, info.id, Ready) && s.runs[info.id].file == info.file ==>
                var s' := Do(s, Admit(info.id), maxCompleted);
                s'.Some? && Is(s'.value) && In(s'.value, info.id, if ok then Live else Rejected)
    {
      if info.file in running {
        return false;
      }
      running := running[info.file := info];
      ok := true;
    }

    /** The step Unlist; whatever run the entry is about. */
    method RemoveRunning(info: RunInfo)
      requires Valid()
      modifies this`running
      ensures Valid() && running == old(running) - {info.file}
      ensures forall s :: old(Is(s)) && In(s, info.id, Ending) && s.runs[info.id].file == info.file ==>
                var s' := Do(s, Unlist(info.id), maxCompleted);
                s'.Some? && Is(s'.value) && In(s'.value, info.id, Unlisted)
    {
      running := running - {info.file};
    }

    /** The step Complete. */
    method AddComplete(info: RunInfo)
      modifies this`completed
      ensures completed == Recent(old(completed) + [info], maxCompleted)
      ensures forall s :: old(Is(s)) && In(s, info.id, Unlisted) ==>
                var s' := Do(s, Complete(info.id), maxCompleted);
                s'.Some? && Is(s'.value) && In(s'.value, info.id, Done)
    {
      hide Ids;
      IdsOfRecent(completed, info, maxCompleted);
      completed := completed + [info];
      var l, max := |completed|, maxCompleted;
      if max > 0 && max < l {
        completed := completed[l - max..];
      }
    }

    /** A whole run, with nothing else going on. */
    method Run(info: RunInfo) returns (admitted: bool)
      requires Valid()
      modifies this, info
      ensures Valid() && info.cancel && admitted == (info.file !in old(running))
      ensures running == old(running)
      ensures completed == if admitted then Recent(old(completed) + [info], maxCompleted) else old(completed)
    {
      info.cancel := true;
      admitted := AddRunning(info);
      if !admitted {
        return;
      }
      RemoveRunning(info);
      AddComplete(info);
    }

    /** The step LookUp: the run under way, if there is one. */
    method IsRunning(file: File) returns (info: Option<RunInfo>)
      ensures info == if file in running then Some(running[file]) else None
      ensures forall s :: Is(s) ==>
                var s' := Do(s, LookUp(file), maxCompleted);
                && s'.Some? && Is(s'.value)
                && s'.value.removals == s.removals + if info.Some? then [Removal(file, info.value.id, false)] else []
    {
      info := if file in running then Some(running[file]) else None;
    }

    /** The running part of Remove, with nothing else going on: the steps LookUp and Delete. */
    method Remove(file: File) returns (found: Option<RunInfo>)
      requires Valid()
      modifies this`running
      ensures Valid() && found == if file in old(running) then Some(old(running)[file]) else None
      ensures running == old(running) - {file}
      ensures forall s :: old(Is(s)) && found.Some? ==>
                var s' := Play(s, [LookUp(file)] + [Delete(|s.removals|)], maxCompleted);
                s'.Some? && Is(s'.value)
    {
      found := IsRunning(file);
      if found.Some? {
        RemoveRunning(found.value);
        forall s | old(Is(s))
          ensures var s' := Play(s, [LookUp(file)] + [Delete(|s.removals|)], maxCompleted);
                  s'.Some? && Is(s'.value)
        {
          assert [] + [LookUp(file)] == [LookUp(file)];
          PlayOneMore(s, [], LookUp(file), maxCompleted);
          PlayOneMore(s, [LookUp(file)], Delete(|s.removals|), maxCompleted);
        }
      }
    }
  }
}
