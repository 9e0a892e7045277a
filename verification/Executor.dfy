/** The executor as the program has it: one object whose dictionaries, lists and skip set
    are updated in place. Each method is tied to the run on values it performs. */
module Executor {
  import opened Nets
  import opened Kahn
  import opened Levels
  import opened Values
  import opened Reachability
  import opened NodeExec
  import opened LoopBody
  import opened Runner
  import opened GraphRun

  class GraphExecutor {
    var context: Context
    var results: Context
    var traces: seq<Trace>
    var skipNodes: set<Id>
    var events: seq<Event>

    ghost function Snapshot(): State
      reads this
    {
      State(context, results, traces, skipNodes, events)
    }

    // A failure that escaped, or none, together with the state it left behind.
    static ghost function AsRun(failure: Option<Failure>, st: State): Run {
      match failure
      case None => Running(st)
      case Some(f) => Stopped(st, f)
    }

    static ghost predicate Wired(plan: Plan, succ: map<Id, seq<Link>>) {
      succ == SuccMap(plan.net) && plan.nodes.Keys == Elements(plan.net.ids)
      && forall i :: i in plan.nodes ==> plan.nodes[i].id == i
    }

    constructor (payload: Json)
      ensures Snapshot() == State(BaseContext(payload), map[], [], {}, [])
    {
      context := BaseContext(payload);
      results := map[];
      traces := [];
      skipNodes := {};
      events := [];
    }

    method Store(nid: Id, v: Json)
      modifies this`context, this`results
      ensures context == old(context)[nid := v] && results == old(results)[nid := v]
    {
      context := context[nid := v];
      results := results[nid := v];
    }

    static lemma StoreTwice(m: Context, nid: Id, v: Json, w: Json)
      ensures m[nid := v][nid := w] == m[nid := w]
    {
    }

    method ApplyNodeResult(plan: Plan, succ: map<Id, seq<Link>>, nid: Id, e: Executed)
      returns (failure: Option<Failure>)
      requires Wired(plan, succ) && nid in plan.nodes && e.Executed?
      modifies this
      ensures AsRun(failure, Snapshot()) == Apply(plan, old(Snapshot()), nid, e)
    {
      skipNodes := skipNodes + e.delta;
      traces := traces + [e.trace];
      events := events + [Finished(e.trace)];
      match e.signal {
        case Abort(attempts, msg) =>
          Store(nid, Obj(map["__error" := Str(msg)]));
          return Some(NodeFailed(nid, e.trace.kind, attempts, msg));
        case Plain =>
          Store(nid, e.out);
          return None;
        case Expand(result) =>
          Store(nid, e.out);
          var expanded := ExpandLoop(plan, succ, nid, result, context);
          if expanded.None? {
            return Some(NotIterable(nid));
          }
          Store(nid, expanded.value);
          StoreTwice(old(context), nid, e.out, expanded.value);
          StoreTwice(old(results), nid, e.out, expanded.value);
          return None;
      }
    }

    method PassOverNode(n: Node, fate: Fate, inp: Json)
      requires fate.Inert?
      modifies this
      ensures Snapshot() == PassOver(old(Snapshot()), n, fate, inp)
    {
      results := results[n.id := fate.marker];
      traces := traces + [BlankTrace(n, inp).(error := fate.remark)];
    }

    // Run a node against the live context and apply what it gave.
    method RunNode(plan: Plan, succ: map<Id, seq<Link>>, nid: Id) returns (failure: Option<Failure>)
      requires Wired(plan, succ) && nid in plan.nodes
      modifies this
      ensures AsRun(failure, Snapshot()) == RunLive(plan, old(Snapshot()), nid)
    {
      var e := ExecNode(plan, succ, plan.nodes[nid], context);
      if e.Raised? {
        return Some(CrashOf(plan, nid));
      }
      context := e.ctx;
      failure := ApplyNodeResult(plan, succ, nid, e);
    }

    // One round of the loop of _run_sequential.
    method StepSequential(plan: Plan, succ: map<Id, seq<Link>>, nid: Id) returns (failure: Option<Failure>)
      requires Wired(plan, succ)
      modifies this
      ensures AsRun(failure, Snapshot()) == SeqStep(plan, old(Snapshot()), nid)
    {
      if nid !in plan.nodes {
        return None;
      }
      var n := plan.nodes[nid];
      var inp := EMPTY_OBJECT;
      var upstream := FindAvailable(plan.net.edges, nid, context);
      if upstream.Some? {
        inp := upstream.value;
      }
      var fate := FateOf(n, skipNodes);
      if fate.Inert? {
        PassOverNode(n, fate, inp);
        return None;
      }
      context := context[nid := inp];
      events := events + [Started(nid)];
      failure := RunNode(plan, succ, nid);
    }

    method RunSequential(plan: Plan, succ: map<Id, seq<Link>>, order: seq<Id>) returns (failure: Option<Failure>)
      requires Wired(plan, succ)
      modifies this
      ensures AsRun(failure, Snapshot()) == SeqRun(plan, Running(old(Snapshot())), order)
    {
      for k := 0 to |order|
        invariant Running(Snapshot()) == SeqRun(plan, Running(old(Snapshot())), order[..k])
      {
        assert order[..k + 1][..k] == order[..k];
        failure := StepSequential(plan, succ, order[k]);
        if failure.Some? {
          SeqRunStoppedAt(plan, Running(old(Snapshot())), order, k + 1);
          return;
        }
      }
      assert order[..|order|] == order;
      return None;
    }

    // The first pass over a level.
    method FilterLevel(plan: Plan, level: seq<Id>) returns (active: seq<Id>)
      modifies this
      ensures Filtered(Snapshot(), active) == Filter(plan, old(Snapshot()), level)
    {
      active := [];
      for k := 0 to |level|
        invariant Filtered(Snapshot(), active) == Filter(plan, old(Snapshot()), level[..k])
      {
        assert level[..k + 1][..k] == level[..k];
        var nid := level[k];
        if nid in plan.nodes {
          var n := plan.nodes[nid];
          var fate := FateOf(n, skipNodes);
          if fate.Inert? {
            PassOverNode(n, fate, Null);
          } else {
            var upstream := FindAvailable(plan.net.edges, nid, context);
            if upstream.Some? {
              context := context[nid := upstream.value];
            }
            active := active + [nid];
          }
        }
      }
      assert level[..|level|] == level;
    }

    // The results of exactly the nodes `ids`, each run against the snapshot.
    static ghost predicate Collected(plan: Plan, nodeResults: map<Id, Executed>, ids: set<Id>, snapshot: Context) {
      && nodeResults.Keys == ids
      && forall x :: x in ids ==> x in plan.nodes && nodeResults[x] == PoolResult(plan, x, snapshot)
    }

    // The pool: every active node runs against the snapshot, and the futures complete in
    // whatever order the threads happen to finish.
    method RunPool(plan: Plan, succ: map<Id, seq<Link>>, active: seq<Id>, snapshot: Context)
      returns (nodeResults: map<Id, Executed>)
      requires Wired(plan, succ) && forall x :: x in active ==> x in plan.nodes
      ensures Collected(plan, nodeResults, Elements(active), snapshot)
    {
      nodeResults := map[];
      var pending := set x | x in active;
      while pending != {}
        invariant pending <= Elements(active)
        invariant Collected(plan, nodeResults, Elements(active) - pending, snapshot)
        decreases |pending|
      {
        var nid :| nid in pending;
        var e := ExecNode(plan, succ, plan.nodes[nid], snapshot);
        nodeResults := nodeResults[nid := Guard(nid, plan.env.runtime.crashText(plan.nodes[nid]), e)];
        pending := pending - {nid};
        assert nodeResults.Keys == Elements(active) - pending;
      }
    }

    // Results are applied in level order, whatever the order of completion was.
    method ApplyPool(plan: Plan, succ: map<Id, seq<Link>>, active: seq<Id>, snapshot: Context,
                     nodeResults: map<Id, Executed>) returns (failure: Option<Failure>)
      requires Wired(plan, succ) && forall x :: x in active ==> x in plan.nodes
      requires Collected(plan, nodeResults, Elements(active), snapshot)
      modifies this
      ensures AsRun(failure, Snapshot()) == AnswerAll(plan, Running(old(Snapshot())), active, Pool(snapshot))
    {
      for k := 0 to |active|
        invariant Running(Snapshot()) == AnswerAll(plan, Running(old(Snapshot())), active[..k], Pool(snapshot))
      {
        assert active[..k + 1][..k] == active[..k];
        failure := ApplyNodeResult(plan, succ, active[k], nodeResults[active[k]]);
        if failure.Some? {
          AnswerAllStopped(plan, Running(old(Snapshot())), active, Pool(snapshot), k + 1);
          return;
        }
      }
      assert active[..|active|] == active;
      return None;
    }

    // All active nodes of a level at once.
    method RunTogether(plan: Plan, succ: map<Id, seq<Link>>, active: seq<Id>) returns (failure: Option<Failure>)
      requires Wired(plan, succ) && forall x :: x in active ==> x in plan.nodes
      modifies this
      ensures AsRun(failure, Snapshot()) == AnswerAll(plan, Running(old(Snapshot())), active, Pool(old(context)))
    {
      var snapshot := context;
      var nodeResults := RunPool(plan, succ, active, snapshot);
      failure := ApplyPool(plan, succ, active, snapshot, nodeResults);
    }

    method FireStarts(active: seq<Id>)
      modifies this`events
      ensures events == old(events) + StartEvents(active)
    {
      for k := 0 to |active|
        invariant events == old(events) + StartEvents(active[..k])
      {
        assert active[..k + 1][..k] == active[..k];
        events := events + [Started(active[k])];
      }
      assert active[..|active|] == active;
    }

    method RunLevel(plan: Plan, succ: map<Id, seq<Link>>, level: seq<Id>) returns (failure: Option<Failure>)
      requires Wired(plan, succ)
      modifies this
      ensures AsRun(failure, Snapshot()) == ParLevel(plan, old(Snapshot()), level)
    {
      var active := FilterLevel(plan, level);
      FilterActive(plan, old(Snapshot()), level);
      if |active| == 0 {
        return None;
      }
      FireStarts(active);
      if |active| == 1 {
        AnswerOnly(plan, Snapshot(), active, Live);
        failure := RunNode(plan, succ, active[0]);
      } else {
        failure := RunTogether(plan, succ, active);
      }
    }

    method RunParallel(plan: Plan, succ: map<Id, seq<Link>>, levels: seq<seq<Id>>) returns (failure: Option<Failure>)
      requires Wired(plan, succ)
      modifies this
      ensures AsRun(failure, Snapshot()) == ParRun(plan, Running(old(Snapshot())), levels)
    {
      for k := 0 to |levels|
        invariant Running(Snapshot()) == ParRun(plan, Running(old(Snapshot())), levels[..k])
      {
        assert levels[..k + 1][..k] == levels[..k];
        failure := RunLevel(plan, succ, levels[k]);
        if failure.Some? {
          ParRunStopped(plan, Running(old(Snapshot())), levels, k + 1);
          return;
        }
      }
      assert levels[..|levels|] == levels;
      return None;
    }

    // "Run from this node": skip the ancestors and seed their earlier outputs.
    method ResumeFrom(plan: Plan, start: Id, prior: Context)
      modifies this`context, this`skipNodes
      ensures skipNodes == old(skipNodes) + Ancestors(plan.net, start)
      ensures context == old(context) + Seeds(prior, Ancestors(plan.net, start))
    {
      var visited := AncestorsOf(plan.net, start);
      skipNodes := skipNodes + visited;
      context := context + Seeds(prior, visited);
    }
  }

  // The state a request starts from.
  method Prepare(plan: Plan, req: Request) returns (executor: GraphExecutor)
    ensures fresh(executor)
    ensures executor.Snapshot() == InitialState(plan.net, req)
  {
    executor := new GraphExecutor(req.payload);
    if req.start.Some? && |req.start.value| > 0 && req.start.value in plan.net.ids {
      executor.ResumeFrom(plan, req.start.value, req.prior);
    }
  }

  method RunGraphOn(nodes: seq<Node>, edges: seq<Edge>, env: Env, req: Request)
    returns (executor: GraphExecutor, failure: Option<Failure>)
    ensures fresh(executor)
    ensures GraphExecutor.AsRun(failure, executor.Snapshot()) == RunGraph(PlanOf(nodes, edges, env), req)
  {
    var plan := PlanOf(nodes, edges, env);
    NodeMapKeys(nodes);
    var order, succ := Topo(plan.net);
    executor := Prepare(plan, req);
    if req.parallel && req.maxWorkers > 1 {
      var levels := ComputeLevels(plan.net, succ);
      failure := executor.RunParallel(plan, succ, levels);
    } else {
      failure := executor.RunSequential(plan, succ, order);
    }
  }
}
