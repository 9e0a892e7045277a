/** `action.call_graph`: a node that runs another graph one level deeper. Nothing stops a
    graph from calling itself but the depth limit of `run_graph`. */
module SubFlow {
  import opened Nets
  import opened Kahn
  import opened Levels
  import opened Values
  import opened NodeExec
  import opened Runner
  import opened Locality
  import opened RunLaws
  import opened GraphRun
  import opened DataFlow

  const CALL_KIND := "action.call_graph"
  const MAX_DEPTH: nat := 5
  const TOO_DEEP_TEXT := "Call Graph: maximum sub-flow nesting depth (5) exceeded"
  const NO_TARGET_TEXT := "Call Graph: no target graph_id configured"
  const NOT_FOUND_TEXT := "Call Graph: graph not found"

  datatype Flow = Flow(nodes: seq<Node>, edges: seq<Edge>, parallel: bool)

  // The stored graphs, with what a call node takes from its configuration and its input:
  // the graph it names and the payload it passes on.
  datatype Flows = Flows(
    table: map<int, Flow>,
    base: Env,
    target: Node -> Option<int>,
    payload: (Node, Json, Context) -> Json,
    describe: Failure -> string,
    maxWorkers: int)

  datatype FlowRun = TooDeep | Done(run: Run)

  function FlowRequest(flows: Flows, flow: Flow, payload: Json): Request {
    Request(payload, None, map[], flow.parallel, flows.maxWorkers)
  }

  // Recursion is bounded by the room left above the current depth.
  ghost function RunFlow(flows: Flows, flow: Flow, payload: Json, depth: nat): FlowRun
    decreases if depth > MAX_DEPTH then 0 else MAX_DEPTH + 1 - depth, 2
  {
    if depth > MAX_DEPTH then TooDeep
    else Done(RunGraph(PlanOf(flow.nodes, flow.edges, EnvAt(flows, depth)), FlowRequest(flows, flow, payload)))
  }

  // The exception a stopped run ends in.
  function KindOf(f: Failure): string {
    match f
    case NodeFailed(_, _, _, _) => "RuntimeError"
    case Crashed(_, kind, _) => kind
    case NotIterable(_) => "TypeError"
  }

  // Handlers as they are at a depth: a call node runs its target one level down.
  ghost function EnvAt(flows: Flows, depth: nat): Env
    requires depth <= MAX_DEPTH
    decreases MAX_DEPTH + 1 - depth, 1
  {
    flows.base.(run := (n: Node, k: nat, inp: Json, c: Context) =>
      if n.kind == CALL_KIND then CallOutcome(flows, n, inp, c, depth) else flows.base.run(n, k, inp, c))
  }

  ghost function CallOutcome(flows: Flows, n: Node, inp: Json, c: Context, depth: nat): Outcome
    requires depth <= MAX_DEPTH
    decreases MAX_DEPTH + 1 - depth, 0
  {
    match flows.target(n)
    case None => Err("ValueError", NO_TARGET_TEXT, map[])
    case Some(id) =>
      if id !in flows.table then Err("ValueError", NOT_FOUND_TEXT, map[])
      else
        match RunFlow(flows, flows.table[id], flows.payload(n, inp, c), depth + 1)
        case TooDeep => Err("RuntimeError", TOO_DEEP_TEXT, map[])
        case Done(Running(st)) => Ok(Obj(st.context), map[])
        case Done(Stopped(_, f)) => Err(KindOf(f), flows.describe(f), map[])
  }

  ghost predicate Completes(r: FlowRun) {
    r.Done? && r.run.Running?
  }

  // ----- a node that always fails stops the graph it is in -----

  ghost predicate AlwaysFails(env: Env, n: Node) {
    forall k, inp, c :: env.run(n, k, inp, c).Err?
  }

  // Some condition, whichever way it turns out, may switch the node off.
  ghost predicate MaySwitchOff(plan: Plan, c: Id, n: Id)
    requires c in plan.nodes
  {
    && plan.nodes[c].kind == "action.condition" && !plan.nodes[c].disabled
    && exists holds :: n in Untaken(plan.net, c, holds)
  }

  // A scheduled node that every run gets to, and that aborts the run when it fails.
  ghost predicate AbortingNode(plan: Plan, n: Node) {
    && n.id in plan.nodes && plan.nodes[n.id] == n && n.id in Order(plan.net)
    && n.kind != "note" && !n.disabled && Runs(plan.env, n) && n.failMode != "continue"
    && forall c :: c in plan.nodes ==> !MaySwitchOff(plan, c, n.id)
  }

  lemma {:induction false} AttemptsAllFail(env: Env, n: Node, inp: Json, ctx: Context, k: nat)
    requires AlwaysFails(env, n) && k <= LastAttempt(env, n)
    ensures Attempts(env, n, inp, ctx, k).value.outcome.Err?
    decreases LastAttempt(env, n) - k
  {
    var after := ctx + env.run(n, k, inp, ctx).writes;
    if k == LastAttempt(env, n) {
      assert Attempts(env, n, inp, after, k + 1).None?;
    } else {
      AttemptsAllFail(env, n, inp, after, k + 1);
    }
  }

  lemma FailingTrace(plan: Plan, n: Node, ctx: Context)
    requires Runs(plan.env, n) && AlwaysFails(plan.env, n)
    ensures Exec(plan, n, ctx).trace.status.Errored?
  {
    AttemptsAllFail(plan.env, n, ExecInput(plan.net.edges, n.id, ctx), ctx, 0);
  }

  // No run switches the node off.
  lemma NeverSwitchedOff(plan: Plan, end: State, n: Node)
    requires WellFormed(plan) && AbortingNode(plan, n) && SkipsBalance(plan, {}, end)
    ensures n.id !in end.skip
  {
    if n.id in SwitchedOff(plan, end.traces) {
      var t := SwitchedBy(plan, end.traces, n.id);
      assert n.id in Untaken(plan.net, t.node, ConditionHolds(t.output));
      assert MaySwitchOff(plan, t.node, n.id);
    }
  }

  // In either mode, a run from scratch does not complete if such a node always fails.
  lemma FailingNodeStops(plan: Plan, st: State, parallel: bool, n: Node)
    requires WellFormed(plan) && AbortingNode(plan, n) && AlwaysFails(plan.env, n)
    requires Blank(st) && st.skip == {}
    ensures RunIn(plan, st, parallel).Stopped?
  {
    var run := RunIn(plan, st, parallel);
    if run.Running? {
      EveryRunSkips(plan, st, parallel);
      NeverSwitchedOff(plan, run.st, n);
      CompletedBooks(plan, st, parallel);
      assert n.id in Elements(TracedNodes(run.st.traces));
      var t := TracedNodeHasTrace(run.st.traces, n.id);
      CompletedTrace(plan, st, parallel, t);
      var c := TraceIsRun(plan, st, parallel, t);
      FailingTrace(plan, n, c);
    }
  }

  // ----- calls below the limit -----

  // The graph is bound to call the graph `callee`, and to abort when the call fails.
  ghost predicate BoundToCall(flows: Flows, flow: Flow, callee: int, n: Node) {
    && AbortingNode(PlanOf(flow.nodes, flow.edges, flows.base), n)
    && n.kind == CALL_KIND && flows.target(n) == Some(callee)
  }

  ghost predicate Calls(flows: Flows, flow: Flow, callee: int) {
    && Distinct(IdsOf(flow.nodes)) && PAYLOAD_KEY !in IdsOf(flow.nodes)
    && exists n :: BoundToCall(flows, flow, callee, n)
  }

  ghost predicate CallsNext(flows: Flows, chain: seq<int>, i: nat)
    requires i + 1 < |chain|
  {
    chain[i] in flows.table && Calls(flows, flows.table[chain[i]], chain[i + 1])
  }

  // Graphs each of which is bound to call the next.
  ghost predicate CallChain(flows: Flows, chain: seq<int>) {
    && |chain| > 0 && chain[|chain| - 1] in flows.table
    && forall i :: 0 <= i < |chain| - 1 ==> CallsNext(flows, chain, i)
  }

  lemma ChainTail(flows: Flows, chain: seq<int>)
    requires CallChain(flows, chain) && |chain| > 1
    ensures CallChain(flows, chain[1..])
  {
    forall i | 0 <= i < |chain| - 2
      ensures CallsNext(flows, chain[1..], i)
    {
      assert CallsNext(flows, chain, i + 1);
    }
  }

  lemma ChainStarts(flows: Flows, chain: seq<int>)
    requires CallChain(flows, chain)
    ensures chain[0] in flows.table
  {
    if |chain| > 1 {
      assert CallsNext(flows, chain, 0);
    }
  }

  lemma ChainCons(flows: Flows, id: int, chain: seq<int>)
    requires CallChain(flows, chain) && id in flows.table && Calls(flows, flows.table[id], chain[0])
    ensures CallChain(flows, [id] + chain)
  {
    var longer := [id] + chain;
    forall i | 0 <= i < |longer| - 1
      ensures CallsNext(flows, longer, i)
    {
      if i > 0 {
        assert CallsNext(flows, chain, i - 1);
      }
    }
  }

  ghost predicate NeverCompletes(flows: Flows, id: int, depth: nat) {
    id in flows.table && forall payload :: !Completes(RunFlow(flows, flows.table[id], payload, depth))
  }

  // A bound call that never completes stops the calling graph, in either mode.
  lemma FailingCallStops(flows: Flows, flow: Flow, callee: int, payload: Json, depth: nat)
    requires FaithfulListing(flows.base) && Calls(flows, flow, callee)
    requires depth <= MAX_DEPTH && NeverCompletes(flows, callee, depth + 1)
    ensures !Completes(RunFlow(flows, flow, payload, depth))
  {
    var n :| BoundToCall(flows, flow, callee, n);
    var env := EnvAt(flows, depth);
    var plan := PlanOf(flow.nodes, flow.edges, env);
    CallNodeFails(flows, n, callee, depth);
    PlanIsWellFormed(flow.nodes, flow.edges, env);
    StillAborts(PlanOf(flow.nodes, flow.edges, flows.base), plan, n);
    var req := FlowRequest(flows, flow, payload);
    FailingNodeStops(plan, InitialState(plan.net, req), InParallel(req), n);
  }

  // Which nodes abort does not depend on what handlers answer.
  lemma StillAborts(plan: Plan, other: Plan, n: Node)
    requires AbortingNode(plan, n) && other.net == plan.net && other.nodes == plan.nodes
    requires other.env.runtime == plan.env.runtime
    ensures AbortingNode(other, n)
  {
    forall c | c in other.nodes
      ensures !MaySwitchOff(other, c, n.id)
    {
      assert !MaySwitchOff(plan, c, n.id);
    }
  }

  lemma CallRuns(flows: Flows, n: Node, depth: nat, k: nat, inp: Json, c: Context)
    requires depth <= MAX_DEPTH
    ensures EnvAt(flows, depth).run(n, k, inp, c) ==
              if n.kind == CALL_KIND then CallOutcome(flows, n, inp, c, depth) else flows.base.run(n, k, inp, c)
  {
  }

  lemma CallFails(flows: Flows, n: Node, callee: int, depth: nat, inp: Json, c: Context)
    requires flows.target(n) == Some(callee) && depth <= MAX_DEPTH && NeverCompletes(flows, callee, depth + 1)
    ensures CallOutcome(flows, n, inp, c, depth).Err?
  {
    var next, payload := depth + 1, flows.payload(n, inp, c);
    assert !Completes(RunFlow(flows, flows.table[callee], payload, next));
  }

  lemma CallNodeFails(flows: Flows, n: Node, callee: int, depth: nat)
    requires n.kind == CALL_KIND && flows.target(n) == Some(callee)
    requires depth <= MAX_DEPTH && NeverCompletes(flows, callee, depth + 1)
    ensures AlwaysFails(EnvAt(flows, depth), n)
  {
    forall k, inp, c
      ensures EnvAt(flows, depth).run(n, k, inp, c).Err?
    {
      CallRuns(flows, n, depth, k, inp, c);
      CallFails(flows, n, callee, depth, inp, c);
    }
  }

  lemma PastLimitNever(flows: Flows, id: int, depth: nat)
    requires id in flows.table && depth > MAX_DEPTH
    ensures NeverCompletes(flows, id, depth)
  {
  }

  lemma CallerNever(flows: Flows, chain: seq<int>, depth: nat)
    requires FaithfulListing(flows.base) && |chain| > 1 && CallChain(flows, chain)
    requires depth <= MAX_DEPTH && NeverCompletes(flows, chain[1], depth + 1)
    ensures NeverCompletes(flows, chain[0], depth)
  {
    assert CallsNext(flows, chain, 0);
    forall payload
      ensures !Completes(RunFlow(flows, flows.table[chain[0]], payload, depth))
    {
      FailingCallStops(flows, flows.table[chain[0]], chain[1], payload, depth);
    }
  }

  lemma {:induction false} ChainNever(flows: Flows, chain: seq<int>, depth: nat)
    requires FaithfulListing(flows.base) && CallChain(flows, chain) && depth + |chain| - 1 > MAX_DEPTH
    ensures NeverCompletes(flows, chain[0], depth)
    decreases |chain|
  {
    ChainStarts(flows, chain);
    if depth > MAX_DEPTH {
      PastLimitNever(flows, chain[0], depth);
    } else {
      ChainTail(flows, chain);
      ChainNever(flows, chain[1..], depth + 1);
      CallerNever(flows, chain, depth);
    }
  }

  // A chain of calls that goes past the depth limit fails as a whole, whatever else its
  // graphs contain and in whichever mode each of them runs.
  lemma DeepCallsFail(flows: Flows, chain: seq<int>, payload: Json, depth: nat)
    requires FaithfulListing(flows.base) && CallChain(flows, chain) && depth + |chain| - 1 > MAX_DEPTH
    ensures chain[0] in flows.table && !Completes(RunFlow(flows, flows.table[chain[0]], payload, depth))
  {
    ChainNever(flows, chain, depth);
  }

  ghost predicate CallsInto(flows: Flows, ids: set<int>, flow: Flow) {
    exists callee :: callee in ids && Calls(flows, flow, callee)
  }

  // Every graph of `ids` is bound to call a graph of `ids`.
  ghost predicate Vicious(flows: Flows, ids: set<int>) {
    forall id :: id in ids ==> id in flows.table && CallsInto(flows, ids, flows.table[id])
  }

  lemma NextVicious(flows: Flows, ids: set<int>, id: int) returns (callee: int)
    requires Vicious(flows, ids) && id in ids
    ensures callee in ids && id in flows.table && Calls(flows, flows.table[id], callee)
  {
    assert CallsInto(flows, ids, flows.table[id]);
    callee :| callee in ids && Calls(flows, flows.table[id], callee);
  }

  lemma {:induction false} ViciousChain(flows: Flows, ids: set<int>, id: int, height: nat) returns (chain: seq<int>)
    requires Vicious(flows, ids) && id in ids
    ensures CallChain(flows, chain) && chain[0] == id && |chain| == height + 1
    decreases height
  {
    if height == 0 {
      chain := [id];
      assert id in flows.table;
    } else {
      var callee := NextVicious(flows, ids, id);
      chain := ViciousChain(flows, ids, callee, height - 1);
      ChainCons(flows, id, chain);
      chain := [id] + chain;
    }
  }

  // Self-calling graphs, alone or in any ring, never hang and never succeed: at every
  // depth the run ends, and it ends in a failure.
  lemma EndlessCallsFail(flows: Flows, ids: set<int>, id: int, payload: Json, depth: nat)
    requires FaithfulListing(flows.base) && Vicious(flows, ids) && id in ids
    ensures !Completes(RunFlow(flows, flows.table[id], payload, depth))
  {
    var chain := ViciousChain(flows, ids, id, MAX_DEPTH + 1);
    DeepCallsFail(flows, chain, payload, depth);
  }

  // ----- the exact limit -----

  // An answer that is no loop and does not make the context look like one.
  ghost predicate AnswersPlainly(o: Outcome) {
    o.Ok? && !IsLoop(o.value) && "__loop__" !in o.writes
  }

  ghost predicate AlwaysAnswers(env: Env, n: Node) {
    Runs(env, n) && forall k, inp, c :: AnswersPlainly(env.run(n, k, inp, c))
  }

  ghost predicate PassedOver(n: Node) {
    n.kind == "note" || n.disabled
  }

  // A node that cannot fail by itself, with calls nested at most `height` deep below it.
  ghost predicate SoundNode(flows: Flows, n: Node, height: nat)
    decreases height, 0
  {
    || PassedOver(n)
    || (n.kind != CALL_KIND && AlwaysAnswers(flows.base, n))
    || (n.kind == CALL_KIND && Runs(flows.base, n) && height > 0 && flows.target(n).Some?
        && SoundFlow(flows, flows.target(n).value, height - 1))
  }

  // A graph of such nodes, of any size and wiring.
  ghost predicate SoundFlow(flows: Flows, id: int, height: nat)
    decreases height, 1
  {
    && id in flows.table
    && var nodes := flows.table[id].nodes;
       && Distinct(IdsOf(nodes)) && PAYLOAD_KEY !in IdsOf(nodes) && "__loop__" !in IdsOf(nodes)
       && forall n :: n in nodes ==> SoundNode(flows, n, height)
  }

  ghost predicate AllAnswer(plan: Plan) {
    && "__loop__" !in plan.nodes
    && forall i :: i in plan.nodes ==>
         plan.nodes[i].id == i && (PassedOver(plan.nodes[i]) || AlwaysAnswers(plan.env, plan.nodes[i]))
  }

  // A run under way, its context none that a loop would have for its result.
  ghost predicate Unlooped(r: Run) {
    r.Running? && "__loop__" !in r.st.context
  }

  lemma FirstAnswer(plan: Plan, n: Node, c: Context)
    requires AlwaysAnswers(plan.env, n) && "__loop__" !in c
    ensures var e := Exec(plan, n, c); e.signal.Plain? && "__loop__" !in e.ctx
  {
    var inp := ExecInput(plan.net.edges, n.id, c);
    assert AnswersPlainly(plan.env.run(n, 0, inp, c));
    AttemptsStep(plan.env, n, inp, c, 0);
  }

  lemma AnswerGoesOn(plan: Plan, st: State, x: Id, source: Source)
    requires AllAnswer(plan) && x in plan.nodes && FateOf(plan.nodes[x], {}).Active? && "__loop__" !in st.context
    requires source.Pool? ==> "__loop__" !in source.snapshot
    ensures Unlooped(Answer(plan, st, x, source))
  {
    FirstAnswer(plan, plan.nodes[x], if source.Live? then st.context else source.snapshot);
  }

  lemma {:induction false} WalkGoesOn(plan: Plan, st: State, order: seq<Id>)
    requires AllAnswer(plan) && "__loop__" !in st.context
    ensures Unlooped(SeqRun(plan, Running(st), order))
  {
    if |order| == 0 {
    } else {
      var x := order[|order| - 1];
      WalkGoesOn(plan, st, order[..|order| - 1]);
      var r := SeqRun(plan, Running(st), order[..|order| - 1]);
      if x in plan.nodes && FateOf(plan.nodes[x], r.st.skip).Active? {
        AnswerGoesOn(plan, Begin(r.st, x, SeqInput(plan, x, r.st.context)), x, Live);
      }
    }
  }

  lemma {:induction false} AnswersGoOn(plan: Plan, st: State, active: seq<Id>, source: Source)
    requires AllAnswer(plan) && "__loop__" !in st.context && (source.Pool? ==> "__loop__" !in source.snapshot)
    requires forall x :: x in active ==> x in plan.nodes && FateOf(plan.nodes[x], {}).Active?
    ensures Unlooped(AnswerAll(plan, Running(st), active, source))
  {
    if |active| == 0 {
    } else {
      var front := active[..|active| - 1];
      assert forall x :: x in front ==> x in active;
      AnswersGoOn(plan, st, front, source);
      AnswerGoesOn(plan, AnswerAll(plan, Running(st), front, source).st, active[|active| - 1], source);
    }
  }

  // The filter pass lets through only nodes that run.
  lemma {:induction false} FilterGoesOn(plan: Plan, st: State, level: seq<Id>)
    requires AllAnswer(plan) && "__loop__" !in st.context
    ensures var f := Filter(plan, st, level);
            && "__loop__" !in f.st.context
            && forall x :: x in f.active ==> x in plan.nodes && FateOf(plan.nodes[x], {}).Active?
  {
    if |level| == 0 {
    } else {
      FilterGoesOn(plan, st, level[..|level| - 1]);
    }
  }

  lemma {:induction false} LevelsGoOn(plan: Plan, st: State, levels: seq<seq<Id>>)
    requires AllAnswer(plan) && "__loop__" !in st.context
    ensures Unlooped(ParRun(plan, Running(st), levels))
  {
    if |levels| == 0 {
    } else {
      var front, level := levels[..|levels| - 1], levels[|levels| - 1];
      LevelsGoOn(plan, st, front);
      var r := ParRun(plan, Running(st), front);
      var f := Filter(plan, r.st, level);
      FilterGoesOn(plan, r.st, level);
      AnswersGoOn(plan, AllBegun(f), f.active, SourceOf(f));
    }
  }

  ghost predicate CompletesPlainly(flows: Flows, id: int, payload: Json, depth: nat) {
    && id in flows.table
    && var r := RunFlow(flows, flows.table[id], payload, depth);
       r.Done? && Unlooped(r.run)
  }

  // What a sound node calls completes one level down.
  lemma {:induction false} SoundCallee(flows: Flows, n: Node, height: nat, depth: nat, payload: Json)
    requires SoundNode(flows, n, height) && !PassedOver(n) && n.kind == CALL_KIND && depth + height <= MAX_DEPTH
    ensures flows.target(n).Some? && CompletesPlainly(flows, flows.target(n).value, payload, depth + 1)
    decreases height, 0
  {
    SoundCompletes(flows, flows.target(n).value, height - 1, payload, depth + 1);
  }

  // A sound node in the environment of its depth.
  lemma {:induction false} SoundAttempt(flows: Flows, n: Node, height: nat, depth: nat, k: nat, inp: Json, c: Context)
    requires SoundNode(flows, n, height) && !PassedOver(n) && depth + height <= MAX_DEPTH
    ensures AnswersPlainly(EnvAt(flows, depth).run(n, k, inp, c))
    decreases height, 1
  {
    if n.kind == CALL_KIND {
      SoundCallee(flows, n, height, depth, flows.payload(n, inp, c));
      CallAnswers(flows, n, depth, k, inp, c);
    } else {
      OtherAnswers(flows, n, depth, k, inp, c);
    }
  }

  lemma OtherAnswers(flows: Flows, n: Node, depth: nat, k: nat, inp: Json, c: Context)
    requires n.kind != CALL_KIND && AlwaysAnswers(flows.base, n) && depth <= MAX_DEPTH
    ensures AnswersPlainly(EnvAt(flows, depth).run(n, k, inp, c))
  {
    CallRuns(flows, n, depth, k, inp, c);
    assert AnswersPlainly(flows.base.run(n, k, inp, c));
  }

  lemma CallAnswers(flows: Flows, n: Node, depth: nat, k: nat, inp: Json, c: Context)
    requires n.kind == CALL_KIND && flows.target(n).Some? && depth <= MAX_DEPTH
    requires CompletesPlainly(flows, flows.target(n).value, flows.payload(n, inp, c), depth + 1)
    ensures AnswersPlainly(EnvAt(flows, depth).run(n, k, inp, c))
  {
    CallRuns(flows, n, depth, k, inp, c);
  }

  lemma {:induction false} NodeMapMembers(nodes: seq<Node>)
    ensures forall i :: i in NodeMap(nodes) ==> NodeMap(nodes)[i] in nodes
  {
    if |nodes| == 0 {
    } else {
      NodeMapMembers(nodes[..|nodes| - 1]);
    }
  }

  lemma {:induction false} SoundCompletes(flows: Flows, id: int, height: nat, payload: Json, depth: nat)
    requires SoundFlow(flows, id, height) && depth + height <= MAX_DEPTH
    ensures CompletesPlainly(flows, id, payload, depth)
    decreases height, 2
  {
    var flow := flows.table[id];
    var plan := PlanOf(flow.nodes, flow.edges, EnvAt(flows, depth));
    NodeMapKeys(flow.nodes);
    NodeMapMembers(flow.nodes);
    forall i | i in plan.nodes && !PassedOver(plan.nodes[i])
      ensures AlwaysAnswers(plan.env, plan.nodes[i])
    {
      var n := plan.nodes[i];
      assert SoundNode(flows, n, height);
      forall k, inp, c
        ensures AnswersPlainly(plan.env.run(n, k, inp, c))
      {
        SoundAttempt(flows, n, height, depth, k, inp, c);
      }
    }
    var st := InitialState(plan.net, FlowRequest(flows, flow, payload));
    WalkGoesOn(plan, st, Order(plan.net));
    LevelsGoOn(plan, st, LevelsOf(plan.net));
  }

  // The limit is exact. Graphs whose nodes do not fail by themselves, of any size and in any
  // mode, complete as long as the deepest call stays within it; past it a chain of calls that
  // the graphs are bound to make brings the whole run down.
  lemma NestingLimit(flows: Flows, chain: seq<int>, payload: Json, depth: nat)
    requires FaithfulListing(flows.base) && CallChain(flows, chain) && SoundFlow(flows, chain[0], |chain| - 1)
    ensures Completes(RunFlow(flows, flows.table[chain[0]], payload, depth)) <==> depth + |chain| - 1 <= 5
  {
    if depth + |chain| - 1 <= MAX_DEPTH {
      SoundCompletes(flows, chain[0], |chain| - 1, payload, depth);
    } else {
      DeepCallsFail(flows, chain, payload, depth);
    }
  }
}
