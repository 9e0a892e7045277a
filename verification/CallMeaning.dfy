/** What a call answers, in terms of the run of the graph it calls. */
module CallMeaning {
  import opened Nets
  import opened Values
  import opened NodeExec
  import opened Locality
  import opened GraphRun
  import opened DataFlow
  import opened RunMeaning
  import opened SubFlow

  // A stored graph as it is run at `depth`.
  ghost function PlanAt(flows: Flows, flow: Flow, depth: nat): Plan
    requires depth <= MAX_DEPTH
  {
    PlanOf(flow.nodes, flow.edges, EnvAt(flows, depth))
  }

  // The outcome of a call of graph `id` with `payload`, made at `depth`: that of the graph's own
  // run one level down, in the mode stored with the graph; past the fifth level there is none.
  ghost predicate CallEnds(flows: Flows, id: int, payload: Json, depth: nat, o: Outcome) {
    if id !in flows.table then o == Err("ValueError", "Call Graph: graph not found", map[])
    else if depth + 1 > 5 then
      o == Err("RuntimeError", "Call Graph: maximum sub-flow nesting depth (5) exceeded", map[])
    else
      var flow := flows.table[id];
      var sub := RunGraph(PlanAt(flows, flow, depth + 1),
                          Request(payload, None, map[], flow.parallel, flows.maxWorkers));
      if sub.Running? then o == Ok(Obj(sub.st.context), map[])
      else
        o == Err(match sub.failure
                 case NodeFailed(_, _, _, _) => "RuntimeError"
                 case Crashed(_, kind, _) => kind
                 case NotIterable(_) => "TypeError",
                 flows.describe(sub.failure), map[])
  }

  // One attempt of a node of a graph that runs at `depth`: a call ends as the called graph's
  // run does, any other node is as it is anywhere.
  lemma AttemptIs(flows: Flows, depth: nat, n: Node, k: nat, inp: Json, c: Context)
    requires depth <= 5
    ensures var o := EnvAt(flows, depth).run(n, k, inp, c);
            if n.kind != "action.call_graph" then o == flows.base.run(n, k, inp, c)
            else
              match flows.target(n)
              case None => o == Err("ValueError", "Call Graph: no target graph_id configured", map[])
              case Some(id) => CallEnds(flows, id, flows.payload(n, inp, c), depth, o)
    ensures EnvAt(flows, depth).body == flows.base.body && EnvAt(flows, depth).runtime == flows.base.runtime
  {
    CallRuns(flows, n, depth, k, inp, c);
  }

  // The run of a stored graph: none below the fifth level.
  lemma FlowRunIs(flows: Flows, flow: Flow, payload: Json, depth: nat)
    ensures RunFlow(flows, flow, payload, depth) ==
              if depth > 5 then TooDeep
              else Done(RunGraph(PlanAt(flows, flow, depth),
                                 Request(payload, None, map[], flow.parallel, flows.maxWorkers)))
  {
  }

  // The call node `n` of the trace `t` had its last outcome `o` from the context `c`.
  ghost predicate CallIn(
    flows: Flows, flow: Flow, payload: Json, depth: nat, t: Trace, found: Context, c: Context, o: Outcome,
    vars: set<Id>)
    requires depth <= 5
  {
    var plan, req := PlanAt(flows, flow, depth), Request(payload, None, map[], flow.parallel, flows.maxWorkers);
    LastCall(plan, InitialState(plan.net, req), InParallel(req), t, found, c, o, vars)
  }

  // In a run of a stored graph, in either mode and completed or stopped, the last attempt of a
  // call ends as the run of the graph it names, one level down, on the payload made of the
  // call's input and of the context it finds; and the trace of the call records that end.
  lemma CallIsRun(flows: Flows, flow: Flow, payload: Json, depth: nat, t: Trace, vars: set<Id>)
    returns (found: Context, c: Context, o: Outcome)
    requires depth <= 5 && WellFormed(PlanAt(flows, flow, depth)) && WritesVariables(PlanAt(flows, flow, depth), vars)
    requires t in RunFlow(flows, flow, payload, depth).run.st.traces && !t.status.Skipped?
    requires t.node in NodeMap(flow.nodes) && Runs(flows.base, NodeMap(flow.nodes)[t.node])
    requires NodeMap(flow.nodes)[t.node].kind == "action.call_graph"
    ensures CallIn(flows, flow, payload, depth, t, found, c, o, vars)
    ensures match flows.target(NodeMap(flow.nodes)[t.node])
            case None => o == Err("ValueError", "Call Graph: no target graph_id configured", map[])
            case Some(id) =>
              CallEnds(flows, id, flows.payload(NodeMap(flow.nodes)[t.node], t.input, c), depth, o)
    ensures o.Ok? ==> t.status.Succeeded? && t.output == o.value
    ensures o.Err? ==> t.status.Errored? && t.error == Some(o.kind + ": " + o.msg)
  {
    var plan, req := PlanAt(flows, flow, depth), FlowRequest(flows, flow, payload);
    assert Runs(plan.env, plan.nodes[t.node]) by {
      AttemptIs(flows, depth, plan.nodes[t.node], 0, Null, map[]);
    }
    found, c, o := LastCallOf(plan, InitialState(plan.net, req), InParallel(req), t, vars);
    AttemptIs(flows, depth, plan.nodes[t.node], t.attempts - 1, t.input, c);
  }

  // So a call that succeeded answers the final context of the run it made, with the payload it
  // sent under the payload's key.
  lemma AnswerHoldsPayload(flows: Flows, id: int, payload: Json, depth: nat, o: Outcome, vars: set<Id>)
    requires CallEnds(flows, id, payload, depth, o) && o.Ok?
    requires depth < 5 && id in flows.table ==> WellFormed(PlanAt(flows, flows.table[id], depth + 1))
                                                && WritesVariables(PlanAt(flows, flows.table[id], depth + 1), vars)
    ensures o.value.Obj? && "__initial_payload__" in o.value.fields
    ensures o.value.fields["__initial_payload__"] == if Falsy(payload) then Obj(map[]) else payload
  {
    var flow := flows.table[id];
    PayloadStays(PlanAt(flows, flow, depth + 1),
                 Request(payload, None, map[], flow.parallel, flows.maxWorkers), vars);
  }
}
