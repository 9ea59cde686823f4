/**
 What running a tree of steps can do: which steps, with which contexts and outcomes, in which order, and with
 which result. Steps that talk to the outside world may fail at will.
 */
module JobRuns {
  import opened Options
  import opened JobConfig
  import opened JobVisit

  datatype Logger = JobLog | HostLog(h: Host) | TelemetryLog(id: nat, orig: Option<Logger>)

  datatype Writer = StandardOutput | ToFile(o: Output)

  /** Templating knows the job, and the host below a host's group. */
  datatype Engine = Engine(host: Option<Host>)

  /** The values a context carries, and the shortest of the time limits set on it. */
  datatype Context = Context(output: Option<Writer>, logger: Option<Logger>, ssh: Option<Host>,
                             templating: Option<Engine>, stdout: Option<Output>, stderr: Option<Output>,
                             limit: Option<int>)

  const NOTHING := Context(None, None, None, None, None, None, None)

  /** What may end a run early: outside tells whether it may be cancelled from outside, lasts is the time it takes. */
  datatype Cancellation = Cancellation(outside: bool, lasts: nat)

  /** At any moment the context may be done: a time limit is up only in a run that lasts as long. */
  predicate MayBeDone(ctx: Context, canc: Cancellation) {
    canc.outside || (ctx.limit.Some? && ctx.limit.value <= canc.lasts)
  }

  /** The limit of a context with this limit, after a limit of d is set. */
  function Tightened(limit: Option<int>, d: int): Option<int> {
    Some(if limit.Some? && limit.value < d then limit.value else d)
  }

  datatype Key = OutputKey | LoggerKey | SshKey | TemplatingKey

  predicate Has(ctx: Context, key: Key) {
    match key
    case OutputKey => ctx.output.Some?
    case LoggerKey => ctx.logger.Some?
    case SshKey => ctx.ssh.Some?
    case TemplatingKey => ctx.templating.Some?
  }

  datatype Cause = StepFailed(a: Action) | StepLacked(key: Key) | Cancelled

  /** A step may return no context, and then the one it was given goes on. */
  datatype Result = Returned(ctx: Option<Context>) | Failed(cause: Cause)

  datatype Mark = Start | End | Fail

  /** A step that was taken, a value that a context did not have, or an event in the telemetry log. */
  datatype Event =
    | Did(a: Action, ctx: Context, ok: bool)
    | Lacked(key: Key)
    | Note(at: seq<nat>, id: nat, mark: Mark)

  type Trace = seq<Event>

  // ---- single steps

  /** The values a step looks up, in this order. */
  function Needs(a: Action, hasOutput: bool): seq<Key> {
    match a
    case Templating(_) => []
    case SetOutput(o) => if hasOutput || o.None? then [] else [TemplatingKey]
    case JobLogger => [OutputKey]
    case HostLogger(_) => [OutputKey]
    case Timeout(_) => [LoggerKey]
    case Scp(_) => [LoggerKey]
    case SshClient(_) => [LoggerKey]
    case Forwarding(_) => [LoggerKey, SshKey]
    case Tunnel(_) => [LoggerKey, SshKey]
    case Remote(_) => [LoggerKey, SshKey, TemplatingKey]
    case Local(_) => [LoggerKey, TemplatingKey]
    case Stdout(o) => if o.file == "null" then [] else [LoggerKey, TemplatingKey]
    case Stderr(o) => if o.file == "null" then [] else [LoggerKey, TemplatingKey]
  }

  function FirstLack(keys: seq<Key>, ctx: Context): Option<Key> {
    if keys == [] then None
    else if !Has(ctx, keys[0]) then Some(keys[0])
    else FirstLack(keys[1..], ctx)
  }

  predicate CanFail(a: Action, ctx: Context) {
    match a
    case SetOutput(o) => ctx.output.None? && o.Some?
    case Scp(_) => true
    case SshClient(_) => true
    case Remote(_) => true
    case Local(_) => true
    case Stdout(o) => o.file != "null"
    case Stderr(o) => o.file != "null"
    case _ => false
  }

  /** The context a step returns. */
  function ContextAfter(a: Action, ctx: Context): Option<Context> {
    match a
    case Templating(h) => Some(ctx.(templating := Some(Engine(h))))
    case SetOutput(o) =>
      Some(if ctx.output.Some? then ctx
           else ctx.(output := Some(if o.Some? then ToFile(o.value) else StandardOutput)))
    case JobLogger => Some(ctx.(logger := Some(JobLog)))
    case HostLogger(h) => Some(ctx.(logger := Some(HostLog(h))))
    case Timeout(d) => Some(ctx.(limit := Tightened(ctx.limit, d)))
    case SshClient(h) => Some(ctx.(ssh := Some(h)))
    case Stdout(o) => Some(ctx.(stdout := Some(o)))
    case Stderr(o) => Some(ctx.(stderr := Some(o)))
    case _ => None
  }

  predicate StepRuns(a: Action, ctx: Context, tr: Trace, r: Result) {
    match FirstLack(Needs(a, ctx.output.Some?), ctx)
    case Some(key) => LacksKey(key, tr, r)
    case None =>
      || (tr == [Did(a, ctx, true)] && r == Returned(ContextAfter(a, ctx)))
      || (CanFail(a, ctx) && tr == [Did(a, ctx, false)] && r == Failed(StepFailed(a)))
  }

  predicate LacksKey(key: Key, tr: Trace, r: Result) {
    tr == [Lacked(key)] && r == Failed(StepLacked(key))
  }

  // ---- parallel steps

  /** One of the steps running in parallel: all it would do, and what of that came before the group returned. */
  datatype Branch = Branch(full: Trace, part: Trace, r: Result)

  ghost predicate Shuffle(tr: Trace, a: Trace, b: Trace)
    decreases |tr|
  {
    if tr == [] then a == [] && b == []
    else
      || (a != [] && a[0] == tr[0] && Shuffle(tr[1..], a[1..], b))
      || (b != [] && b[0] == tr[0] && Shuffle(tr[1..], a, b[1..]))
  }

  /** tr holds the parts of all branches, in any order that keeps the order within each. */
  ghost predicate Interleaves(tr: Trace, bs: seq<Branch>)
    decreases |bs|
  {
    if bs == [] then tr == []
    else exists rest :: Interleaves(rest, bs[1..]) && Shuffle(tr, bs[0].part, rest)
  }

  /** All branches have succeeded, or one has failed, or the group stopped waiting for them as its context was done. */
  predicate Joined(bs: seq<Branch>, mayBeDone: bool, r: Result) {
    || (r == Returned(None) && forall b :: b in bs ==> b.part == b.full && b.r.Returned?)
    || (exists b :: b in bs && b.part == b.full && b.r.Failed? && b.r == r)
    || (mayBeDone && bs != [] && r == Failed(Cancelled))
  }

  // ---- trees

  predicate IsParallel(kind: Kind) {
    kind.HostsGroup? || kind.ParallelGroup?
  }

  /** The logger below all telemetry loggers. */
  function Unwrapped(logger: Option<Logger>): (l: Option<Logger>)
    ensures l.Some? ==> !l.value.TelemetryLog?
    decreases logger
  {
    if logger.Some? && logger.value.TelemetryLog? then Unwrapped(logger.value.orig) else logger
  }

  function Watched(ctx: Context, id: nat): Context {
    ctx.(logger := Some(TelemetryLog(id, Unwrapped(ctx.logger))))
  }

  /**
   The tree t, run in context ctx, can do tr and end with r, in a run that may end early as canc says.
   */
  ghost predicate Runs(t: Tree, ctx: Context, canc: Cancellation, tr: Trace, r: Result)
    decreases t, 0
  {
    match t
    case Leaf(_, a) => StepRuns(a, ctx, tr, r)
    case Group(_, kind, children) =>
      if IsParallel(kind) then ParallelRuns(children, ctx, canc, tr, r) else SequentialRuns(children, ctx, canc, tr, r)
    case Safeguard(_, child) =>
      if ctx.logger.None? then LacksKey(LoggerKey, tr, r)
      else exists r1 :: Runs(child, ctx, canc, tr, r1) && r == if r1.Failed? then Returned(None) else r1
    case Bounds(_, child) =>
      exists r1 :: Runs(child, ctx, canc, tr, r1) && r == if r1.Failed? then r1 else Returned(None)
    case Retry(_, child, n) =>
      if ctx.logger.None? then LacksKey(LoggerKey, tr, r) else RetryRuns(child, n, ctx, canc, tr, r)
    case Probe(id, child, at) =>
      && |tr| >= 2
      && tr[0] == Note(at, id, Start) && tr[|tr| - 1] == Note(at, id, if r.Failed? then Fail else End)
      && Runs(child, Watched(ctx, id), canc, tr[1..|tr| - 1], r)
  }

  /** One step after the other, up to the first that fails. */
  ghost predicate SequentialRuns(ts: seq<Tree>, ctx: Context, canc: Cancellation, tr: Trace, r: Result)
    decreases ts, 1
  {
    if ts == [] then tr == [] && r == Returned(Some(ctx))
    else
      || (MayBeDone(ctx, canc) && tr == [] && r == Failed(Cancelled))
      || exists k, r1 :: 0 <= k <= |tr| && Runs(ts[0], ctx, canc, tr[..k], r1) && GoesOn(ts, ctx, canc, tr, r, k, r1)
  }

  /** The steps after the first, which did the first k events and ended with r1. */
  ghost predicate GoesOn(ts: seq<Tree>, ctx: Context, canc: Cancellation, tr: Trace, r: Result, k: nat, r1: Result)
    requires ts != [] && k <= |tr|
    decreases ts, 0
  {
    if r1.Failed? then k == |tr| && r == r1
    else SequentialRuns(ts[1..], Passed(r1, ctx), canc, tr[k..], r)
  }

  function Passed(r: Result, ctx: Context): Context
    requires r.Returned?
  {
    if r.ctx.Some? then r.ctx.value else ctx
  }

  /** Up to n attempts; the last one's result counts. */
  ghost predicate RetryRuns(t: Tree, n: nat, ctx: Context, canc: Cancellation, tr: Trace, r: Result)
    decreases t, 1, n, 1
  {
    if n == 0 then tr == [] && r == Returned(None)
    else exists k, r1 :: 0 <= k <= |tr| && Runs(t, ctx, canc, tr[..k], r1) && TriesOn(t, n, ctx, canc, tr, r, k, r1)
  }

  /** The attempts after the first of n. */
  ghost predicate TriesOn(t: Tree, n: nat, ctx: Context, canc: Cancellation, tr: Trace, r: Result, k: nat, r1: Result)
    requires n > 0 && k <= |tr|
    decreases t, 1, n, 0
  {
    if r1.Failed? && n > 1 then RetryRuns(t, n - 1, ctx, canc, tr[k..], r) else k == |tr| && r == r1
  }

  ghost predicate ParallelRuns(ts: seq<Tree>, ctx: Context, canc: Cancellation, tr: Trace, r: Result)
    decreases ts, 1
  {
    || (MayBeDone(ctx, canc) && tr == [] && r == Returned(None))
    || exists bs :: BranchesRun(ts, ctx, canc, bs) && Interleaves(tr, bs) && Joined(bs, MayBeDone(ctx, canc), r)
  }

  ghost predicate BranchesRun(ts: seq<Tree>, ctx: Context, canc: Cancellation, bs: seq<Branch>)
    decreases ts, 0
  {
    if ts == [] then bs == []
    else
      && bs != [] && Runs(ts[0], ctx, canc, bs[0].full, bs[0].r) && bs[0].part <= bs[0].full
      && BranchesRun(ts[1..], ctx, canc, bs[1..])
  }

  /** A run of steps in order that is not cancelled at once starts with a run of the first step. */
  lemma FirstRun(ts: seq<Tree>, ctx: Context, canc: Cancellation, tr: Trace, r: Result) returns (k: nat, r1: Result)
    requires ts != [] && SequentialRuns(ts, ctx, canc, tr, r)
    requires !(MayBeDone(ctx, canc) && tr == [] && r == Failed(Cancelled))
    ensures k <= |tr| && Runs(ts[0], ctx, canc, tr[..k], r1) && GoesOn(ts, ctx, canc, tr, r, k, r1)
  {
    k, r1 :| 0 <= k <= |tr| && Runs(ts[0], ctx, canc, tr[..k], r1) && GoesOn(ts, ctx, canc, tr, r, k, r1);
  }

  lemma FirstAttempt(t: Tree, n: nat, ctx: Context, canc: Cancellation, tr: Trace, r: Result)
    returns (k: nat, r1: Result)
    requires n > 0 && RetryRuns(t, n, ctx, canc, tr, r)
    ensures k <= |tr| && Runs(t, ctx, canc, tr[..k], r1)
    ensures if r1.Failed? && n > 1 then RetryRuns(t, n - 1, ctx, canc, tr[k..], r) else k == |tr| && r == r1
  {
    k, r1 :| 0 <= k <= |tr| && Runs(t, ctx, canc, tr[..k], r1) && TriesOn(t, n, ctx, canc, tr, r, k, r1);
  }

  /** A run of the first step, and of the others if it succeeded, make a run of all. */
  lemma StepsJoin(ts: seq<Tree>, ctx: Context, canc: Cancellation, first: Trace, r1: Result, rest: Trace, r: Result)
    requires ts != [] && Runs(ts[0], ctx, canc, first, r1)
    requires if r1.Failed? then rest == [] && r == r1 else SequentialRuns(ts[1..], Passed(r1, ctx), canc, rest, r)
    ensures SequentialRuns(ts, ctx, canc, first + rest, r)
  {
    var tr := first + rest;
    assert tr[..|first|] == first && tr[|first|..] == rest;
    assert GoesOn(ts, ctx, canc, tr, r, |first|, r1);
  }

  lemma AttemptsJoin(t: Tree, n: nat, ctx: Context, canc: Cancellation, first: Trace, r1: Result, rest: Trace,
                     r: Result)
    requires n > 0 && Runs(t, ctx, canc, first, r1)
    requires if r1.Failed? && n > 1 then RetryRuns(t, n - 1, ctx, canc, rest, r) else rest == [] && r == r1
    ensures RetryRuns(t, n, ctx, canc, first + rest, r)
  {
    var tr := first + rest;
    assert tr[..|first|] == first && tr[|first|..] == rest;
    assert TriesOn(t, n, ctx, canc, tr, r, |first|, r1);
  }

  /** The run of the child behind a run of a safeguard that finds its logger. */
  lemma GuardedRun(id: nat, child: Tree, ctx: Context, canc: Cancellation, tr: Trace, r: Result) returns (r1: Result)
    requires ctx.logger.Some? && Runs(Safeguard(id, child), ctx, canc, tr, r)
    ensures Runs(child, ctx, canc, tr, r1) && r == if r1.Failed? then Returned(None) else r1
  {
    r1 :| Runs(child, ctx, canc, tr, r1) && r == if r1.Failed? then Returned(None) else r1;
  }

  lemma BoundedRun(id: nat, child: Tree, ctx: Context, canc: Cancellation, tr: Trace, r: Result) returns (r1: Result)
    requires Runs(Bounds(id, child), ctx, canc, tr, r)
    ensures Runs(child, ctx, canc, tr, r1) && r == if r1.Failed? then r1 else Returned(None)
  {
    r1 :| Runs(child, ctx, canc, tr, r1) && r == if r1.Failed? then r1 else Returned(None);
  }
}
