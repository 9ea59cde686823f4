/**
 The telemetry log, and the timing that is computed from it: how long each host took, and how long the job.
 */
module JobTiming {
  import opened JobRuns

  /** A mark or a message of a node, with the time it was logged. */
  datatype LogEvent = Marked(id: nat, mark: Mark, time: int) | Message(id: nat, text: string, time: int)

  class EventStore {
    var events: seq<LogEvent>

    constructor ()
      ensures events == []
    {
      events := [];
    }

    method Store(e: LogEvent)
      modifies this
      ensures events == old(events) + [e]
    {
      events := events + [e];
    }

    method Get() returns (all: seq<LogEvent>)
      ensures all == events
    {
      all := events;
    }

    method Reset() returns (all: seq<LogEvent>)
      modifies this
      ensures all == old(events) && events == []
    {
      all := events;
      events := [];
    }
  }

  /** The zero time, which no clock shows. */
  const NEVER := 0

  datatype Span = Span(start: int, runtime: int)

  datatype Times = Times(start: int, jobRuntime: int, spans: map<nat, Span>)

  /** What one event does to the times. */
  function Applied(v: Times, e: LogEvent): Times {
    var start := if v.start == NEVER && e.Marked? && e.mark.Start? then e.time else v.start;
    if e.Message? || e.id !in v.spans then v.(start := start)
    else if e.mark.Start? then v.(start := start, spans := v.spans[e.id := v.spans[e.id].(start := e.time)])
    else
      Times(start, if start != NEVER then e.time - start else v.jobRuntime,
            v.spans[e.id := v.spans[e.id].(runtime := e.time - v.spans[e.id].start)])
  }

  function AppliedAll(v: Times, es: seq<LogEvent>): Times
    decreases |es|
  {
    if es == [] then v else AppliedAll(Applied(v, es[0]), es[1..])
  }

  class TimingNode {
    var start: int
    var runtime: int

    constructor ()
      ensures start == NEVER && runtime == 0
    {
      start, runtime := NEVER, 0;
    }
  }

  /** nodes is by name, hosts by host; both hold the same nodes. */
  class Timing {
    var start: int
    var jobRuntime: int
    var nodes: map<nat, TimingNode>
    var hosts: map<nat, TimingNode>

    ghost predicate Valid()
      reads this
    {
      && (forall a, b :: a in nodes && b in nodes && nodes[a] == nodes[b] ==> a == b)
      && forall h :: h in hosts ==> exists id :: id in nodes && nodes[id] == hosts[h]
    }

    ghost function View(): Times
      reads this, nodes.Values
    {
      Times(start, jobRuntime, map id | id in nodes :: Span(nodes[id].start, nodes[id].runtime))
    }

    /** No event has been applied. */
    ghost predicate Untouched()
      reads this, nodes.Values
    {
      && start == NEVER && jobRuntime == 0
      && forall id :: id in nodes ==> nodes[id].start == NEVER && nodes[id].runtime == 0
    }

    constructor ()
      ensures Valid() && nodes == map[] && hosts == map[] && Untouched()
      ensures View() == Times(NEVER, 0, map[])
    {
      start, jobRuntime, nodes, hosts := NEVER, 0, map[], map[];
    }

    /** storeNode: the node of a host whose group has the given name. */
    method StoreNode(name: nat, host: nat)
      requires Valid() && name !in nodes && host !in hosts
      modifies this
      ensures Valid() && name in nodes && fresh(nodes[name]) && nodes[name].start == NEVER && nodes[name].runtime == 0
      ensures nodes == old(nodes)[name := nodes[name]] && hosts == old(hosts)[host := nodes[name]]
      ensures start == old(start) && jobRuntime == old(jobRuntime)
      ensures old(Untouched()) ==> Untouched()
    {
      var node := new TimingNode();
      ghost var before := nodes;
      assert forall id :: id in nodes ==> nodes[id] in nodes.Values;
      nodes := nodes[name := node];
      hosts := hosts[host := node];
      assert nodes[name] == node;
      forall h | h in hosts ensures exists id :: id in nodes && nodes[id] == hosts[h] {
        if h != host {
          var id :| id in before && before[id] == old(hosts)[h];
          assert nodes[id] == hosts[h];
        }
      }
    }

    method Apply(e: LogEvent)
      requires Valid()
      modifies this, nodes.Values
      ensures Valid() && nodes == old(nodes) && hosts == old(hosts)
      ensures View() == Applied(old(View()), e)
    {
      ghost var v := View();
      if start == NEVER && e.Marked? && e.mark.Start? {
        start := e.time;
      }
      if e.id !in nodes || e.Message? {
        assert View().spans == v.spans;
        return;
      }
      var node := nodes[e.id];
      assert forall id :: id in nodes && id != e.id ==> nodes[id] != node;
      match e.mark {
        case Start =>
          node.start := e.time;
          assert View().spans == v.spans[e.id := v.spans[e.id].(start := e.time)];
        case _ =>
          node.runtime := e.time - node.start;
          if start != NEVER {
            jobRuntime := e.time - start;
          }
          assert View().spans == v.spans[e.id := v.spans[e.id].(runtime := e.time - v.spans[e.id].start)];
      }
    }

    method ApplyStore(es: seq<LogEvent>)
      requires Valid()
      modifies this, nodes.Values
      ensures Valid() && nodes == old(nodes) && hosts == old(hosts)
      ensures View() == AppliedAll(old(View()), es)
    {
      for i := 0 to |es|
        invariant Valid() && nodes == old(nodes) && hosts == old(hosts)
        invariant AppliedAll(View(), es[i..]) == AppliedAll(old(View()), es)
      {
        Apply(es[i]);
        assert es[i..][1..] == es[i + 1..];
      }
    }
  }

  // ---- what the times mean

  /** As long as nothing has started, no time is taken for the job's. */
  lemma {:induction false} NothingStarted(v: Times, es: seq<LogEvent>)
    requires v.start == NEVER && forall e :: e in es && e.Marked? ==> !e.mark.Start?
    ensures AppliedAll(v, es).start == NEVER && AppliedAll(v, es).jobRuntime == v.jobRuntime
    decreases |es|
  {
    if es != [] {
      NothingStarted(Applied(v, es[0]), es[1..]);
    }
  }

  /** The marks of one node. */
  function MarksOf(es: seq<LogEvent>, id: nat): seq<LogEvent>
    decreases |es|
  {
    if es == [] then []
    else (if es[0].Marked? && es[0].id == id then [es[0]] else []) + MarksOf(es[1..], id)
  }

  function SpanAfter(span: Span, marks: seq<LogEvent>): Span
    decreases |marks|
  {
    if marks == [] then span
    else if marks[0].Marked? && marks[0].mark.Start? then SpanAfter(span.(start := marks[0].time), marks[1..])
    else SpanAfter(span.(runtime := marks[0].time - span.start), marks[1..])
  }

  /** A node's time depends on its own marks only. */
  lemma {:induction false} OwnMarksCount(v: Times, es: seq<LogEvent>, id: nat)
    requires id in v.spans
    ensures AppliedAll(v, es).spans.Keys == v.spans.Keys
    ensures AppliedAll(v, es).spans[id] == SpanAfter(v.spans[id], MarksOf(es, id))
    decreases |es|
  {
    if es != [] {
      var e, v1 := es[0], Applied(v, es[0]);
      assert v1.spans.Keys == v.spans.Keys;
      OwnMarksCount(v1, es[1..], id);
      var rest := MarksOf(es[1..], id);
      if e.Marked? && e.id == id {
        assert ([e] + rest)[1..] == rest;
      } else {
        assert [] + rest == rest;
      }
    }
  }

  /** A node that starts once and then ends or fails once took the time between the two. */
  lemma RuntimeIsEndMinusStart(v: Times, es: seq<LogEvent>, id: nat, first: LogEvent, last: LogEvent)
    requires id in v.spans && MarksOf(es, id) == [first, last] && first.Marked? && last.Marked?
    requires first.mark.Start? && !last.mark.Start?
    ensures id in AppliedAll(v, es).spans && AppliedAll(v, es).spans[id].runtime == last.time - first.time
  {
    OwnMarksCount(v, es, id);
    var span := v.spans[id];
    assert [first, last][1..] == [last] && [last][1..] == [];
    assert SpanAfter(span, [first, last]) == SpanAfter(span.(start := first.time), [last]);
  }

  /** e ends a node that is timed. */
  predicate EndsTimed(e: LogEvent, ids: set<nat>) {
    e.Marked? && !e.mark.Start? && e.id in ids
  }

  predicate IsStart(e: LogEvent) {
    e.Marked? && e.mark.Start?
  }

  /** The job runs from the first start in the log to the last end of a timed node. */
  lemma {:induction false} JobRuntimeIsLastEndMinusFirstStart(v: Times, es: seq<LogEvent>, f: nat, k: nat)
    requires v.start == NEVER && f < k < |es|
    requires IsStart(es[f]) && es[f].time != NEVER && forall i :: 0 <= i < f ==> !IsStart(es[i])
    requires EndsTimed(es[k], v.spans.Keys) && forall i :: k < i < |es| ==> !EndsTimed(es[i], v.spans.Keys)
    ensures AppliedAll(v, es).jobRuntime == es[k].time - es[f].time
    decreases |es|
  {
    var v1 := Applied(v, es[0]);
    assert v1.spans.Keys == v.spans.Keys;
    assert es[1..][k - 1] == es[k];
    if f == 0 {
      LastEndCounts(v1, es[1..], k - 1);
    } else {
      assert es[1..][f - 1] == es[f] && !IsStart(es[0]);
      JobRuntimeIsLastEndMinusFirstStart(v1, es[1..], f - 1, k - 1);
    }
  }

  lemma {:induction false} LastEndCounts(v: Times, es: seq<LogEvent>, k: nat)
    requires v.start != NEVER && k < |es| && EndsTimed(es[k], v.spans.Keys)
    requires forall i :: k < i < |es| ==> !EndsTimed(es[i], v.spans.Keys)
    ensures AppliedAll(v, es).jobRuntime == es[k].time - v.start
    decreases |es|
  {
    var v1 := Applied(v, es[0]);
    assert v1.spans.Keys == v.spans.Keys && v1.start == v.start;
    if k == 0 {
      NoEndCounts(v1, es[1..]);
    } else {
      assert es[1..][k - 1] == es[k];
      LastEndCounts(v1, es[1..], k - 1);
    }
  }

  lemma {:induction false} NoEndCounts(v: Times, es: seq<LogEvent>)
    requires v.start != NEVER && forall i :: 0 <= i < |es| ==> !EndsTimed(es[i], v.spans.Keys)
    ensures AppliedAll(v, es).jobRuntime == v.jobRuntime
    decreases |es|
  {
    if es != [] {
      var v1 := Applied(v, es[0]);
      assert !EndsTimed(es[0], v.spans.Keys);
      assert v1.spans.Keys == v.spans.Keys && v1.start == v.start && v1.jobRuntime == v.jobRuntime;
      NoEndCounts(v1, es[1..]);
    }
  }
}
