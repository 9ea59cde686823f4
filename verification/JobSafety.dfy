/**
 No step of a job ever misses what it needs from its context: a check of the tree alone tells, and every
 tree the visitor makes passes it.
 */
module JobSafety {
  import opened Options
  import opened JobConfig
  import opened JobVisit
  import opened JobRuns

  predicate Provides(ctx: Context, keys: set<Key>) {
    forall key :: key in keys ==> Has(ctx, key)
  }

  /** What a step adds to the context it passes on. */
  function Gives(a: Action): set<Key> {
    match a
    case Templating(_) => {TemplatingKey}
    case SetOutput(_) => {OutputKey}
    case JobLogger => {LoggerKey}
    case HostLogger(_) => {LoggerKey}
    case SshClient(_) => {SshKey}
    case _ => {}
  }

  /** What the steps after t can count on, if the steps before it provide keys. */
  function KeysAfter(t: Tree, keys: set<Key>): (after: set<Key>)
    ensures keys <= after
    decreases t
  {
    match t
    case Leaf(_, a) => keys + Gives(a)
    case Group(_, kind, children) => if IsParallel(kind) then keys else KeysAfterAll(children, keys)
    case Probe(_, child, _) => KeysAfter(child, keys)
    case _ => keys
  }

  function KeysAfterAll(ts: seq<Tree>, keys: set<Key>): (after: set<Key>)
    ensures keys <= after
    decreases ts
  {
    if ts == [] then keys else KeysAfterAll(ts[1..], KeysAfter(ts[0], keys))
  }

  /** Everything in t finds what it needs, if the steps before it provide keys. */
  predicate Safe(t: Tree, keys: set<Key>)
    decreases t, 0
  {
    match t
    case Leaf(_, a) => forall key :: key in Needs(a, OutputKey in keys) ==> key in keys
    case Group(_, kind, children) =>
      if IsParallel(kind) then forall c :: c in children ==> Safe(c, keys) else SafeInOrder(children, keys)
    case Safeguard(_, child) => LoggerKey in keys && Safe(child, keys)
    case Bounds(_, child) => Safe(child, keys)
    case Retry(_, child, _) => LoggerKey in keys && Safe(child, keys)
    case Probe(_, child, _) => Safe(child, keys)
  }

  predicate SafeInOrder(ts: seq<Tree>, keys: set<Key>)
    decreases ts, 1
  {
    ts == [] || (Safe(ts[0], keys) && SafeInOrder(ts[1..], KeysAfter(ts[0], keys)))
  }

  // ---- the check is sound

  ghost predicate LacksNothing(tr: Trace) {
    forall e :: e in tr ==> !e.Lacked?
  }

  /** A run that lacks nothing, and that leaves after for the steps that follow when it started with before. */
  ghost predicate Good(before: set<Key>, tr: Trace, r: Result, after: set<Key>) {
    && LacksNothing(tr)
    && match r
       case Failed(cause) => !cause.StepLacked?
       case Returned(None) => after == before
       case Returned(Some(ctx)) => Provides(ctx, after)
  }

  lemma NoLack(keys: seq<Key>, ctx: Context)
    requires forall key :: key in keys ==> Has(ctx, key)
    ensures FirstLack(keys, ctx) == None
  {
    if keys != [] {
      NoLack(keys[1..], ctx);
    }
  }

  lemma StepIsGood(a: Action, ctx: Context, tr: Trace, r: Result, keys: set<Key>)
    requires forall key :: key in Needs(a, OutputKey in keys) ==> key in keys
    requires Provides(ctx, keys) && StepRuns(a, ctx, tr, r)
    ensures Good(keys, tr, r, keys + Gives(a))
  {
    NoLack(Needs(a, ctx.output.Some?), ctx);
  }

  /** An event of interleaved branches is an event of one of them. */
  lemma {:induction false} FromABranch(tr: Trace, bs: seq<Branch>, e: Event) returns (i: nat)
    requires Interleaves(tr, bs) && e in tr
    ensures i < |bs| && e in bs[i].part
    decreases |bs|
  {
    var rest :| Interleaves(rest, bs[1..]) && Shuffle(tr, bs[0].part, rest);
    FromEither(tr, bs[0].part, rest, e);
    if e in bs[0].part {
      i := 0;
    } else {
      i := FromABranch(rest, bs[1..], e);
      i := i + 1;
    }
  }

  lemma {:induction false} FromEither(tr: Trace, a: Trace, b: Trace, e: Event)
    requires Shuffle(tr, a, b) && e in tr
    ensures e in a || e in b
    decreases |tr|
  {
    if e != tr[0] {
      assert e in tr[1..];
      if a != [] && a[0] == tr[0] && Shuffle(tr[1..], a[1..], b) {
        FromEither(tr[1..], a[1..], b, e);
      } else {
        FromEither(tr[1..], a, b[1..], e);
      }
    }
  }

  /**
   Soundness: a run of a safe tree in a context that provides enough lacks nothing, whatever fails or is cancelled.
   */
  lemma {:induction false} Sound(t: Tree, keys: set<Key>, ctx: Context, canc: Cancellation, tr: Trace, r: Result)
    requires Safe(t, keys) && Provides(ctx, keys) && Runs(t, ctx, canc, tr, r)
    ensures Good(keys, tr, r, KeysAfter(t, keys))
    decreases t, 0
  {
    match t
    case Leaf(_, a) => StepIsGood(a, ctx, tr, r, keys);
    case Group(_, kind, children) =>
      if IsParallel(kind) {
        SoundParallel(children, keys, ctx, canc, tr, r);
      } else {
        SoundInOrder(children, keys, ctx, canc, tr, r);
      }
    case Safeguard(id, child) =>
      var r1 := GuardedRun(id, child, ctx, canc, tr, r);
      Sound(child, keys, ctx, canc, tr, r1);
    case Bounds(id, child) =>
      var r1 := BoundedRun(id, child, ctx, canc, tr, r);
      Sound(child, keys, ctx, canc, tr, r1);
    case Retry(_, child, n) => SoundRetry(child, n, keys, ctx, canc, tr, r);
    case Probe(id, child, at) =>
      var inner := tr[1..|tr| - 1];
      Sound(child, keys, Watched(ctx, id), canc, inner, r);
      assert tr == [tr[0]] + inner + [tr[|tr| - 1]];
  }

  lemma {:induction false} SoundInOrder(ts: seq<Tree>, keys: set<Key>, ctx: Context, canc: Cancellation, tr: Trace,
                                        r: Result)
    requires SafeInOrder(ts, keys) && Provides(ctx, keys) && SequentialRuns(ts, ctx, canc, tr, r)
    ensures Good(keys, tr, r, KeysAfterAll(ts, keys))
    ensures r.Returned? ==> r.ctx.Some?
    decreases ts, 1
  {
    if ts != [] && !(MayBeDone(ctx, canc) && tr == [] && r == Failed(Cancelled)) {
      var k, r1 := FirstRun(ts, ctx, canc, tr, r);
      Sound(ts[0], keys, ctx, canc, tr[..k], r1);
      assert tr == tr[..k] + tr[k..];
      if r1.Returned? {
        SoundInOrder(ts[1..], KeysAfter(ts[0], keys), Passed(r1, ctx), canc, tr[k..], r);
      }
    }
  }

  lemma {:induction false} SoundRetry(t: Tree, n: nat, keys: set<Key>, ctx: Context, canc: Cancellation, tr: Trace,
                                      r: Result)
    requires Safe(t, keys) && Provides(ctx, keys) && RetryRuns(t, n, ctx, canc, tr, r)
    ensures Good(keys, tr, r, keys)
    decreases t, 1, n
  {
    if n > 0 {
      var k, r1 := FirstAttempt(t, n, ctx, canc, tr, r);
      Sound(t, keys, ctx, canc, tr[..k], r1);
      assert tr == tr[..k] + tr[k..];
      if r1.Failed? && n > 1 {
        SoundRetry(t, n - 1, keys, ctx, canc, tr[k..], r);
      }
    }
  }

  lemma {:induction false} SoundParallel(ts: seq<Tree>, keys: set<Key>, ctx: Context, canc: Cancellation, tr: Trace,
                                         r: Result)
    requires (forall t :: t in ts ==> Safe(t, keys)) && Provides(ctx, keys) && ParallelRuns(ts, ctx, canc, tr, r)
    ensures Good(keys, tr, r, keys)
    decreases ts, 1
  {
    if !(MayBeDone(ctx, canc) && tr == [] && r == Returned(None)) {
      var bs: seq<Branch> :| BranchesRun(ts, ctx, canc, bs) && Interleaves(tr, bs)
                             && Joined(bs, MayBeDone(ctx, canc), r);
      SoundBranches(ts, keys, ctx, canc, bs);
      forall e | e in tr ensures !e.Lacked? {
        var i := FromABranch(tr, bs, e);
        assert bs[i] in bs && e in bs[i].full;
      }
    }
  }

  lemma {:induction false} SoundBranches(ts: seq<Tree>, keys: set<Key>, ctx: Context, canc: Cancellation,
                                         bs: seq<Branch>)
    requires (forall t :: t in ts ==> Safe(t, keys)) && Provides(ctx, keys) && BranchesRun(ts, ctx, canc, bs)
    ensures forall b :: b in bs ==> LacksNothing(b.full) && b.part <= b.full && (b.r.Failed? ==> !b.r.cause.StepLacked?)
    decreases ts, 0
  {
    if ts != [] {
      Sound(ts[0], keys, ctx, canc, bs[0].full, bs[0].r);
      SoundBranches(ts[1..], keys, ctx, canc, bs[1..]);
      assert bs == [bs[0]] + bs[1..];
    }
  }

  // ---- what holds of every event

  /** What the steps are documented to require, where they use it. */
  function Documented(a: Action): set<Key> {
    match a
    case Templating(_) => {}
    case SetOutput(_) => {}
    case JobLogger => {OutputKey}
    case HostLogger(_) => {OutputKey}
    case Timeout(_) => {LoggerKey}
    case Scp(_) => {LoggerKey}
    case SshClient(_) => {LoggerKey}
    case Forwarding(_) => {LoggerKey, SshKey}
    case Tunnel(_) => {LoggerKey, SshKey}
    case Remote(_) => {LoggerKey, SshKey, TemplatingKey}
    case Local(_) => {LoggerKey, TemplatingKey}
    case Stdout(o) => if o.file == "null" then {} else {LoggerKey, TemplatingKey}
    case Stderr(o) => if o.file == "null" then {} else {LoggerKey, TemplatingKey}
  }

  /** What a step must find in its context to be taken. The job's file has a name with templates in it. */
  function Required(a: Action, ctx: Context): set<Key> {
    if a.SetOutput? && a.output.Some? && ctx.output.None? then {TemplatingKey} else Documented(a)
  }

  /** Steps that open a file, listen or connect somewhere, or start a program. */
  predicate ReachesOut(a: Action, ctx: Context) {
    match a
    case SetOutput(o) => o.Some? && ctx.output.None?
    case Scp(_) => true
    case SshClient(_) => true
    case Remote(_) => true
    case Local(_) => true
    case Stdout(o) => o.file != "null"
    case Stderr(o) => o.file != "null"
    case _ => false
  }

  /** The order in which values are looked up. */
  function Rank(key: Key): nat {
    match key
    case OutputKey => 0
    case LoggerKey => 1
    case SshKey => 2
    case TemplatingKey => 3
  }

  /** A step lacks something if and only if its context is without something it requires; else it is taken. */
  lemma LacksExactlyIf(a: Action, ctx: Context)
    ensures (exists key :: StepRuns(a, ctx, [Lacked(key)], Failed(StepLacked(key)))) <==>
            !Provides(ctx, Required(a, ctx))
    ensures (exists r :: StepRuns(a, ctx, [Did(a, ctx, true)], r)) <==> Provides(ctx, Required(a, ctx))
    ensures forall key, tr, r :: StepRuns(a, ctx, tr, r) && r == Failed(StepLacked(key)) ==>
              && tr == [Lacked(key)] && key in Required(a, ctx) && !Has(ctx, key)
              && forall other :: other in Required(a, ctx) && !Has(ctx, other) ==> Rank(key) <= Rank(other)
  {
    var needs := Needs(a, ctx.output.Some?);
    assert forall key :: key in needs <==> key in Required(a, ctx);
    assert forall i, j :: 0 <= i < j < |needs| ==> Rank(needs[i]) <= Rank(needs[j]);
    FirstLackIs(needs, ctx);
    match FirstLack(needs, ctx)
    case Some(key) =>
      assert StepRuns(a, ctx, [Lacked(key)], Failed(StepLacked(key)));
    case None =>
      assert StepRuns(a, ctx, [Did(a, ctx, true)], Returned(ContextAfter(a, ctx)));
  }

  lemma {:induction false} FirstLackIs(keys: seq<Key>, ctx: Context)
    ensures var lack := FirstLack(keys, ctx);
            && (lack.None? <==> forall key :: key in keys ==> Has(ctx, key))
            && (lack.Some? ==> lack.value in keys && !Has(ctx, lack.value))
            && (lack.Some? && (forall i, j :: 0 <= i < j < |keys| ==> Rank(keys[i]) <= Rank(keys[j])) ==>
                  forall key :: key in keys && !Has(ctx, key) ==> Rank(lack.value) <= Rank(key))
    decreases |keys|
  {
    if keys != [] {
      FirstLackIs(keys[1..], ctx);
    }
  }

  /** A step that lacks nothing may fail if and only if it reaches out, and then it returns no context. */
  lemma FailsExactlyIf(a: Action, ctx: Context)
    requires Provides(ctx, Required(a, ctx))
    ensures (exists tr, r :: StepRuns(a, ctx, tr, r) && r.Failed?) <==> ReachesOut(a, ctx)
    ensures forall tr, r :: StepRuns(a, ctx, tr, r) && r.Failed? ==>
              tr == [Did(a, ctx, false)] && r == Failed(StepFailed(a))
  {
    var needs := Needs(a, ctx.output.Some?);
    assert forall key :: key in needs <==> key in Required(a, ctx);
    FirstLackIs(needs, ctx);
    if ReachesOut(a, ctx) {
      assert StepRuns(a, ctx, [Did(a, ctx, false)], Failed(StepFailed(a)));
    }
  }

  ghost predicate TakenEquipped(tr: Trace) {
    forall e :: e in tr && e.Did? ==> Provides(e.ctx, Documented(e.a))
  }

  lemma {:induction false} FoundAll(keys: seq<Key>, ctx: Context)
    requires FirstLack(keys, ctx) == None
    ensures forall key :: key in keys ==> Has(ctx, key)
    decreases |keys|
  {
    if keys != [] {
      FoundAll(keys[1..], ctx);
    }
  }

  lemma StepTakenEquipped(a: Action, ctx: Context, tr: Trace, r: Result)
    requires StepRuns(a, ctx, tr, r)
    ensures TakenEquipped(tr)
  {
    var needs := Needs(a, ctx.output.Some?);
    if FirstLack(needs, ctx) == None {
      FoundAll(needs, ctx);
      forall key | key in Documented(a) ensures Has(ctx, key) {
        assert key in needs;
      }
    }
  }

  /** No step is ever taken, in any run of any tree, without what it is documented to require. */
  lemma {:induction false} StepsTakenEquipped(t: Tree, ctx: Context, canc: Cancellation, tr: Trace, r: Result)
    requires Runs(t, ctx, canc, tr, r)
    ensures TakenEquipped(tr)
    decreases t, 0
  {
    match t
    case Leaf(_, a) => StepTakenEquipped(a, ctx, tr, r);
    case Group(_, kind, children) =>
      if !IsParallel(kind) {
        InOrderTakenEquipped(children, ctx, canc, tr, r);
      } else if !(MayBeDone(ctx, canc) && tr == [] && r == Returned(None)) {
        var bs: seq<Branch> :| BranchesRun(children, ctx, canc, bs) && Interleaves(tr, bs)
                               && Joined(bs, MayBeDone(ctx, canc), r);
        BranchesTakenEquipped(children, ctx, canc, bs);
        forall e | e in tr && e.Did? ensures Provides(e.ctx, Documented(e.a)) {
          var i := FromABranch(tr, bs, e);
          assert bs[i] in bs && e in bs[i].full;
        }
      }
    case Safeguard(id, child) =>
      if ctx.logger.Some? {
        var r1 := GuardedRun(id, child, ctx, canc, tr, r);
        StepsTakenEquipped(child, ctx, canc, tr, r1);
      }
    case Bounds(id, child) =>
      var r1 := BoundedRun(id, child, ctx, canc, tr, r);
      StepsTakenEquipped(child, ctx, canc, tr, r1);
    case Retry(_, child, n) =>
      if ctx.logger.Some? {
        RetriesTakenEquipped(child, n, ctx, canc, tr, r);
      }
    case Probe(id, child, at) =>
      var inner := tr[1..|tr| - 1];
      StepsTakenEquipped(child, Watched(ctx, id), canc, inner, r);
      assert tr == [tr[0]] + inner + [tr[|tr| - 1]];
  }

  lemma {:induction false} InOrderTakenEquipped(ts: seq<Tree>, ctx: Context, canc: Cancellation, tr: Trace, r: Result)
    requires SequentialRuns(ts, ctx, canc, tr, r)
    ensures TakenEquipped(tr)
    decreases ts, 1
  {
    if ts != [] && !(MayBeDone(ctx, canc) && tr == [] && r == Failed(Cancelled)) {
      var k, r1 := FirstRun(ts, ctx, canc, tr, r);
      StepsTakenEquipped(ts[0], ctx, canc, tr[..k], r1);
      assert tr == tr[..k] + tr[k..];
      if r1.Returned? {
        InOrderTakenEquipped(ts[1..], Passed(r1, ctx), canc, tr[k..], r);
      }
    }
  }

  lemma {:induction false} RetriesTakenEquipped(t: Tree, n: nat, ctx: Context, canc: Cancellation, tr: Trace, r: Result)
    requires RetryRuns(t, n, ctx, canc, tr, r)
    ensures TakenEquipped(tr)
    decreases t, 1, n
  {
    if n > 0 {
      var k, r1 := FirstAttempt(t, n, ctx, canc, tr, r);
      StepsTakenEquipped(t, ctx, canc, tr[..k], r1);
      assert tr == tr[..k] + tr[k..];
      if r1.Failed? && n > 1 {
        RetriesTakenEquipped(t, n - 1, ctx, canc, tr[k..], r);
      }
    }
  }

  lemma {:induction false} BranchesTakenEquipped(ts: seq<Tree>, ctx: Context, canc: Cancellation, bs: seq<Branch>)
    requires BranchesRun(ts, ctx, canc, bs)
    ensures forall b :: b in bs ==> TakenEquipped(b.full) && b.part <= b.full
    decreases ts, 0
  {
    if ts != [] {
      StepsTakenEquipped(ts[0], ctx, canc, bs[0].full, bs[0].r);
      BranchesTakenEquipped(ts[1..], ctx, canc, bs[1..]);
      assert bs == [bs[0]] + bs[1..];
    }
  }

  // ---- the visitor's trees pass it

  lemma SafeCons(t: Tree, rest: seq<Tree>, keys: set<Key>)
    requires Safe(t, keys) && SafeInOrder(rest, KeysAfter(t, keys))
    ensures SafeInOrder([t] + rest, keys)
  {
    assert ([t] + rest)[1..] == rest;
  }

  /** A step before safe ones. */
  lemma StepCons(id: nat, a: Action, rest: seq<Tree>, keys: set<Key>)
    requires (forall key :: key in Needs(a, OutputKey in keys) ==> key in keys) && SafeInOrder(rest, keys + Gives(a))
    ensures SafeInOrder([Leaf(id, a)] + rest, keys)
  {
    SafeCons(Leaf(id, a), rest, keys);
  }

  lemma SafeAlone(t: Tree, keys: set<Key>)
    requires Safe(t, keys)
    ensures SafeInOrder([t], keys)
  {
    SafeCons(t, [], keys);
    assert [t] + [] == [t];
  }

  /** What a command needs from the steps before it. */
  function CommandKeys(cmd: Command): set<Key> {
    {LoggerKey, TemplatingKey} + if IsRemote(cmd) then {SshKey} else {}
  }

  lemma {:induction false} CommandIsSafe(cmd: Command, n: nat, keys: set<Key>)
    requires VisitCommand(cmd, n).Visited? && CommandKeys(cmd) <= keys
    ensures Safe(VisitCommand(cmd, n).node, keys)
    decreases cmd, 2
  {
    var (opens, n1) := Redirect(cmd, n + 1).Extract();
    var (limits, n2) := Limit(cmd.timeout, n1).Extract();
    var (body, n3) := VisitBody(cmd, n2).Extract();
    BodyIsSafe(cmd, n2, keys);
    SafeAlone(body, keys);
    StepsAreSafe(limits, [body], keys);
    StepsAreSafe(opens, limits + [body], keys);
    var group := Group(n + 1, CommandsGroup, opens + (limits + [body]));
    assert Safe(group, keys);
    WrappedIsSafe(cmd, group, n3, keys);
  }

  lemma WrappedIsSafe(cmd: Command, t: Tree, n: nat, keys: set<Key>)
    requires Safe(t, keys) && LoggerKey in keys
    ensures Safe(Wrapped(cmd, t, n).node, keys) && KeysAfter(Wrapped(cmd, t, n).node, keys) == keys
  {
  }

  /** Steps that give nothing and need a logger and templating at most, before safe ones. */
  lemma {:induction false} StepsAreSafe(steps: seq<Tree>, rest: seq<Tree>, keys: set<Key>)
    requires {LoggerKey, TemplatingKey} <= keys && SafeInOrder(rest, keys)
    requires forall t :: t in steps ==> t.Leaf? && (t.action.Stdout? || t.action.Stderr? || t.action.Timeout?)
    ensures SafeInOrder(steps + rest, keys)
    decreases |steps|
  {
    if steps == [] {
      assert steps + rest == rest;
    } else {
      StepsAreSafe(steps[1..], rest, keys);
      assert KeysAfter(steps[0], keys) == keys;
      assert (steps + rest)[1..] == steps[1..] + rest;
    }
  }

  lemma {:induction false} BodyIsSafe(cmd: Command, n: nat, keys: set<Key>)
    requires VisitBody(cmd, n).Visited? && CommandKeys(cmd) <= keys && (cmd.command == "" || cmd.commands == [])
    ensures Safe(VisitBody(cmd, n).node, keys)
    decreases cmd, 1
  {
    if cmd.command == "" {
      CommandsAreSafe(cmd.commands, n + 1, keys);
    }
  }

  lemma {:induction false} CommandsAreSafe(cmds: seq<Command>, n: nat, keys: set<Key>)
    requires VisitAll(cmds, n).Visited? && forall c :: c in cmds ==> CommandKeys(c) <= keys
    ensures var ts := VisitAll(cmds, n).node;
            SafeInOrder(ts, keys) && forall t :: t in ts ==> Safe(t, keys)
    decreases cmds
  {
    if cmds != [] {
      var (first, n1) := VisitCommand(cmds[0], n).Extract();
      CommandIsSafe(cmds[0], n, keys);
      CommandGivesNothing(cmds[0], n, keys);
      CommandsAreSafe(cmds[1..], n1, keys);
    }
  }

  lemma CommandGivesNothing(cmd: Command, n: nat, keys: set<Key>)
    requires VisitCommand(cmd, n).Visited?
    ensures KeysAfter(VisitCommand(cmd, n).node, keys) == keys
  {
  }

  lemma HostIsSafe(c: Config, cmd: Command, t: Tree, h: Host, n: nat, keys: set<Key>)
    requires VisitHost(c, cmd, t, h, n).Visited? && {OutputKey, LoggerKey} <= keys
    requires forall more :: CommandKeys(cmd) <= more ==> Safe(t, more)
    ensures Safe(VisitHost(c, cmd, t, h, n).node, keys)
  {
    var steps := Connect(c, cmd, h, n + 3).node + [t];
    ConnectIsSafe(c, cmd, h, n + 3, t, keys + {LoggerKey} + {TemplatingKey});
    StepCons(n + 3, Templating(Some(h)), steps, keys + {LoggerKey});
    StepCons(n + 2, HostLogger(h), [Leaf(n + 3, Templating(Some(h)))] + steps, keys);
    var all := [Leaf(n + 2, HostLogger(h)), Leaf(n + 3, Templating(Some(h)))] + steps;
    assert all == [Leaf(n + 2, HostLogger(h))] + ([Leaf(n + 3, Templating(Some(h)))] + steps);
    assert Safe(Group(n + 1, HostGroup(h), all), keys);
  }

  lemma ConnectIsSafe(c: Config, cmd: Command, h: Host, n: nat, t: Tree, keys: set<Key>)
    requires Connect(c, cmd, h, n).Visited? && {LoggerKey, TemplatingKey} <= keys
    requires forall more :: CommandKeys(cmd) <= more ==> Safe(t, more)
    ensures SafeInOrder(Connect(c, cmd, h, n).node + [t], keys)
  {
    if !IsRemote(cmd) {
      SafeAlone(t, keys);
      assert [] + [t] == [t];
    } else {
      var steps := ConnectStartsWithSsh(c, cmd, h, n);
      hide Connect, Safe, SafeInOrder;
      SafeAlone(t, keys + {SshKey});
      NetworkIsSafe(steps, [t], keys + {SshKey});
      StepCons(n + 1, SshClient(h), steps + [t], keys);
      assert Connect(c, cmd, h, n).node + [t] == [Leaf(n + 1, SshClient(h))] + (steps + [t]);
    }
  }

  lemma ConnectStartsWithSsh(c: Config, cmd: Command, h: Host, n: nat) returns (steps: seq<Tree>)
    requires IsRemote(cmd)
    ensures Connect(c, cmd, h, n).Visited? && Connect(c, cmd, h, n).node == [Leaf(n + 1, SshClient(h))] + steps
    ensures forall t :: t in steps ==> t.Leaf? && (t.action.Forwarding? || t.action.Tunnel?)
  {
    steps := Connect(c, cmd, h, n).node[1..];
  }

  lemma {:induction false} NetworkIsSafe(steps: seq<Tree>, rest: seq<Tree>, keys: set<Key>)
    requires {LoggerKey, SshKey} <= keys && SafeInOrder(rest, keys)
    requires forall t :: t in steps ==> t.Leaf? && (t.action.Forwarding? || t.action.Tunnel?)
    ensures SafeInOrder(steps + rest, keys)
    decreases |steps|
  {
    if steps == [] {
      assert steps + rest == rest;
    } else {
      NetworkIsSafe(steps[1..], rest, keys);
      assert KeysAfter(steps[0], keys) == keys;
      assert (steps + rest)[1..] == steps[1..] + rest;
    }
  }

  lemma {:induction false} HostsAreSafe(c: Config, cmd: Command, t: Tree, hosts: seq<Host>, n: nat, keys: set<Key>)
    requires VisitHosts(c, cmd, t, hosts, n).Visited? && {OutputKey, LoggerKey} <= keys
    requires forall more :: CommandKeys(cmd) <= more ==> Safe(t, more)
    ensures forall h :: h in VisitHosts(c, cmd, t, hosts, n).node ==> Safe(h, keys)
    decreases |hosts|
  {
    if hosts != [] {
      var (first, n1) := VisitHost(c, cmd, t, hosts[0], n).Extract();
      HostIsSafe(c, cmd, t, hosts[0], n, keys);
      HostsAreSafe(c, cmd, t, hosts[1..], n1, keys);
    }
  }

  lemma LocalIsSafe(cmd: Option<Command>, n: nat, rest: seq<Tree>, keys: set<Key>)
    requires VisitLocal(cmd, n).Visited? && {LoggerKey, TemplatingKey} <= keys && SafeInOrder(rest, keys)
    ensures SafeInOrder(VisitLocal(cmd, n).node + rest, keys)
  {
    if cmd.None? {
      assert [] + rest == rest;
    } else {
      LocalizedIsNotRemote(cmd.value);
      CommandIsSafe(Localized(cmd.value), n, keys);
      CommandGivesNothing(Localized(cmd.value), n, keys);
      var t := VisitCommand(Localized(cmd.value), n).node;
      assert ([t] + rest)[1..] == rest;
    }
  }

  lemma TargetsAreSafe(c: Config, cmd: Command, m: nat, n: nat, keys: set<Key>)
    requires VisitCommand(cmd, m).Visited? && c.host.Some? != c.hostsFile.Some?
    requires VisitTargets(c, cmd, VisitCommand(cmd, m).node, n).Visited? && {OutputKey, LoggerKey} <= keys
    ensures Safe(VisitTargets(c, cmd, VisitCommand(cmd, m).node, n).node, keys)
    ensures KeysAfter(VisitTargets(c, cmd, VisitCommand(cmd, m).node, n).node, keys) == keys
  {
    var t := VisitCommand(cmd, m).node;
    forall more | CommandKeys(cmd) <= more ensures Safe(t, more) {
      CommandIsSafe(cmd, m, more);
    }
    if c.host.Some? {
      HostIsSafe(c, cmd, t, c.host.value, n, keys);
    } else {
      HostsAreSafe(c, cmd, t, c.hostsFile.value.hosts, n + 1, keys);
    }
  }

  const JOB_KEYS := {TemplatingKey, OutputKey, LoggerKey}

  lemma ScpIsSafe(c: Config, n: nat, scp: seq<Tree>, rest: seq<Tree>)
    requires scp == (if c.scp.Some? then [Leaf(n + 1, Scp(c.scp.value))] else []) && SafeInOrder(rest, JOB_KEYS)
    ensures SafeInOrder(scp + rest, JOB_KEYS)
  {
    if c.scp.Some? {
      assert JOB_KEYS + Gives(Scp(c.scp.value)) == JOB_KEYS;
      StepCons(n + 1, Scp(c.scp.value), rest, JOB_KEYS);
    } else {
      assert scp + rest == rest;
    }
  }

  lemma SetUpIsSafe(c: Config, n: nat, rest: seq<Tree>)
    requires SetUp(c, n).Visited? && SafeInOrder(rest, JOB_KEYS)
    ensures SafeInOrder(SetUp(c, n).node + rest, {})
  {
    hide Limit, Plain, AllPlain, SafeInOrder, Safe, KeysAfter;
    var (limits, n1) := Limit(c.timeout, n + 3).Extract();
    var scp := if c.scp.Some? then [Leaf(n1 + 1, Scp(c.scp.value))] else [];
    LimitIsPreparation(c.timeout, n + 3);
    ScpIsSafe(c, n1, scp, rest);
    StepsAreSafe(limits, scp + rest, JOB_KEYS);
    FirstStepsAreSafe(c, n, limits + (scp + rest));
    assert SetUp(c, n).node == FirstSteps(c, n) + (limits + scp);
    assert SetUp(c, n).node + rest == FirstSteps(c, n) + (limits + (scp + rest));
  }

  lemma LimitIsPreparation(timeout: string, n: nat)
    requires Limit(timeout, n).Visited?
    ensures forall t :: t in Limit(timeout, n).node ==> t.Leaf? && t.action.Timeout?
  {
  }

  function FirstSteps(c: Config, n: nat): seq<Tree> {
    [Leaf(n + 1, Templating(None)), Leaf(n + 2, SetOutput(c.output)), Leaf(n + 3, JobLogger)]
  }

  lemma FirstStepsAreSafe(c: Config, n: nat, steps: seq<Tree>)
    requires SafeInOrder(steps, JOB_KEYS)
    ensures SafeInOrder(FirstSteps(c, n) + steps, {})
  {
    var t0, t1, t2 := Leaf(n + 1, Templating(None)), Leaf(n + 2, SetOutput(c.output)), Leaf(n + 3, JobLogger);
    assert {TemplatingKey, OutputKey} + {LoggerKey} == JOB_KEYS;
    StepCons(n + 3, JobLogger, steps, {TemplatingKey, OutputKey});
    assert {TemplatingKey} + {OutputKey} == {TemplatingKey, OutputKey};
    StepCons(n + 2, SetOutput(c.output), [t2] + steps, {TemplatingKey});
    assert {} + {TemplatingKey} == {TemplatingKey};
    StepCons(n + 1, Templating(None), [t1] + ([t2] + steps), {});
    assert FirstSteps(c, n) + steps == [t0] + ([t1] + ([t2] + steps));
  }

  /** The tree of every job is safe, with nothing provided. */
  lemma ConfigIsSafe(c: Config)
    requires VisitConfig(c).Visited?
    ensures Safe(VisitConfig(c).node, {})
  {
    hide VisitCommand, VisitTargets, VisitLocal, SetUp;
    var (setUp, n1) := SetUp(c, 1).Extract();
    var (pre, n2) := VisitLocal(c.pre, n1).Extract();
    var (cmd, n3) := VisitCommand(c.command.value, n2).Extract();
    var (targets, n4) := VisitTargets(c, c.command.value, cmd, n3).Extract();
    var (post, n5) := VisitLocal(c.post, n4).Extract();
    LocalIsSafe(c.post, n4, [], JOB_KEYS);
    assert post + [] == post;
    TargetsAreSafe(c, c.command.value, n2, n3, JOB_KEYS);
    assert ([targets] + post)[1..] == post;
    LocalIsSafe(c.pre, n1, [targets] + post, JOB_KEYS);
    SetUpIsSafe(c, 1, pre + ([targets] + post));
  }

  /**
   Whatever a job does, in whatever order and however its steps fail or are cancelled: no step misses an
   output, a logger, a templating engine or an SSH client.
   */
  lemma JobLacksNothing(c: Config, canc: Cancellation, tr: Trace, r: Result)
    requires VisitConfig(c).Visited? && Runs(VisitConfig(c).node, NOTHING, canc, tr, r)
    ensures LacksNothing(tr) && (r.Failed? ==> !r.cause.StepLacked?)
  {
    ConfigIsSafe(c);
    Sound(VisitConfig(c).node, {}, NOTHING, canc, tr, r);
  }
}
