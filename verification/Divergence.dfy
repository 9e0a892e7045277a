/** Graphs on which the two modes give different results: two unconnected nodes of which the
    first writes a context key that the second reads, or the second looks at the first's output. */
module Divergence {
  import opened Nets
  import opened Kahn
  import opened Levels
  import opened LevelTheorems
  import opened Values
  import opened NodeExec
  import opened LoopBody
  import opened Runner
  import opened Locality
  import opened Refinement
  import opened GraphRun

  // ----- graphs without edges -----

  lemma {:induction false} EdgeFreeRoots(net: Net, ids: seq<Id>, indeg: InDeg)
    requires |net.edges| == 0 && (forall i :: i in ids ==> i in indeg && indeg[i] == 0)
    ensures Roots(ids, indeg) == ids
  {
    if |ids| == 0 {
    } else {
      EdgeFreeRoots(net, ids[..|ids| - 1], indeg);
    }
  }

  lemma {:induction false} EdgeFreeDrain(net: Net, queue: seq<Id>, order: seq<Id>, indeg: InDeg)
    requires |net.edges| == 0 && Covers(net, indeg)
    ensures Drain(net, queue, order, indeg) == order + queue
    decreases |queue|
  {
    if |queue| == 0 {
      assert order + queue == order;
    } else {
      LinksTargets(net, queue[0], indeg);
      RelaxShrinks(Links(net, queue[0]), indeg);
      assert queue[1..] + [] == queue[1..];
      EdgeFreeDrain(net, queue[1..], order + [queue[0]], indeg);
      assert order + [queue[0]] + queue[1..] == order + queue;
    }
  }

  lemma {:induction false} EdgeFreeLinks(net: Net, nodes: seq<Id>)
    requires |net.edges| == 0
    ensures LinksOf(net, nodes) == []
  {
    if |nodes| == 0 {
    } else {
      EdgeFreeLinks(net, nodes[..|nodes| - 1]);
    }
  }

  // All nodes in node order, and all in one level.
  lemma EdgeFree(net: Net)
    requires |net.edges| == 0 && |net.ids| > 0 && Distinct(net.ids)
    ensures Order(net) == net.ids && LevelsOf(net) == [net.ids]
  {
    var indeg := InDegrees(net);
    DegreesAgree(net);
    EdgeFreeRoots(net, net.ids, indeg);
    EdgeFreeDrain(net, net.ids, [], indeg);
    assert [] + net.ids == net.ids;
    EdgeFreeLinks(net, net.ids);
    var seen := set i | i in net.ids;
    LinksOfTargets(net, net.ids, indeg);
    SpreadShrinks(LinksOf(net, net.ids), indeg, seen);
    assert Sweep(net, [] + [net.ids], [], indeg, seen) == [] + [net.ids] == [net.ids];
    assert Sweep(net, [], net.ids, indeg, seen) == [net.ids];
  }

  // ----- nodes that answer at the first attempt -----

  // An enabled node that answers `v` at once and writes `writes`, whatever it finds.
  ghost predicate Steady(plan: Plan, n: Node, inp: Json, c: Context, v: Json, writes: Context) {
    && n.kind != "note" && n.kind != "action.condition" && !n.disabled && n.retryMax == Num(0) && n.retryDelay == Num(5)
    && plan.env.run(n, 0, inp, c) == Ok(v, writes)
  }

  // A finished run that answers `v` and leaves the context `ctx`.
  ghost predicate Answers(e: Executed, ctx: Context, v: Json) {
    e.Executed? && e.ctx == ctx && e.out == v && e.delta == {} && e.signal == if IsLoop(v) then Expand(v) else Plain
  }

  lemma SteadyRun(plan: Plan, n: Node, c: Context, v: Json, writes: Context)
    requires Steady(plan, n, ExecInput(plan.net.edges, n.id, c), c, v, writes)
    ensures Answers(Exec(plan, n, c), c + writes, v)
  {
    var inp := ExecInput(plan.net.edges, n.id, c);
    assert Attempts(plan.env, n, inp, c + writes, 1).None?;
    assert Attempts(plan.env, n, inp, c, 0) == Some(Attempted(c + writes, 1, Ok(v, writes)));
  }

  // The stored output of a node that answered `v`: a loop is replaced by its expansion.
  ghost predicate Stored(plan: Plan, before: State, r: Run, x: Id, v: Json) {
    && (!IsLoop(v) ==> r.Running? && r.st.context == before.context[x := v] && r.st.results == before.results[x := v])
    && (IsLoop(v) ==>
          var out := Expanded(plan, x, v, before.context[x := v]);
          out.Some? ==>
            && r.Running? && r.st.context == before.context[x := out.value]
            && r.st.results == before.results[x := out.value])
    && r.st.skip == before.skip
  }

  lemma AnswerApplied(plan: Plan, st: State, x: Id, e: Executed, v: Json)
    requires e.Executed? && Answers(e, e.ctx, v)
    ensures Stored(plan, st, Apply(plan, st, x, e), x, v)
  {
    assert st.skip + {} == st.skip;
  }

  // ----- two nodes, one context key -----

  const SETTER := Node("a", "action.set_variable", "", Null, false, Num(0), Num(5), "abort")
  const READER := Node("b", "action.log", "", Null, false, Num(0), Num(5), "abort")
  const SET_OUTPUT := Obj(map["v" := Bool(true)])

  // The first node writes `writes`, the second answers with what it finds under `key`.
  function Sharing(key: Id, writes: Context): (Node, nat, Json, Context) -> Outcome {
    (n: Node, k: nat, inp: Json, c: Context) =>
      if n.id == "a" then Ok(SET_OUTPUT, writes) else Ok(Under(key, c), map[])
  }

  function Under(key: Id, c: Context): Json {
    if key in c then c[key] else Null
  }

  function SharingPlan(key: Id, writes: Context, body: (Node, Json, Context) -> Outcome, runtime: Runtime): Plan {
    Plan(Net(["a", "b"], []), map["a" := SETTER, "b" := READER], Env(Sharing(key, writes), body, runtime))
  }

  // Either the first node writes the variable `v`, or the second looks at the first one's output.
  predicate SharesKey(key: Id, writes: Context) {
    (key == "v" && writes == map["v" := Bool(true)]) || (key == "a" && writes == map[])
  }

  function Shared(key: Id): Json {
    if key == "v" then Bool(true) else SET_OUTPUT
  }

  ghost predicate Shares(plan: Plan, key: Id, writes: Context) {
    SharesKey(key, writes) && plan == SharingPlan(key, writes, plan.env.body, plan.env.runtime)
  }

  lemma SetterRuns(plan: Plan, key: Id, writes: Context, ctx: Context)
    requires Shares(plan, key, writes)
    ensures Answers(Exec(plan, SETTER, ctx), ctx + writes, SET_OUTPUT)
  {
    SteadyRun(plan, SETTER, ctx, SET_OUTPUT, writes);
  }

  lemma ReaderRuns(plan: Plan, key: Id, writes: Context, ctx: Context)
    requires Shares(plan, key, writes)
    ensures Answers(Exec(plan, READER, ctx), ctx, Under(key, ctx))
  {
    SteadyRun(plan, READER, ctx, Under(key, ctx), map[]);
    assert ctx + map[] == ctx;
  }

  lemma SetterStep(plan: Plan, key: Id, writes: Context, st: State)
    requires Shares(plan, key, writes) && st.skip == {}
    ensures var r := SeqStep(plan, st, "a");
            && r.Running? && r.st.skip == {} && r.st.results == st.results["a" := SET_OUTPUT]
            && key in r.st.context && r.st.context[key] == Shared(key)
  {
    var begun := Begin(st, "a", SeqInput(plan, "a", st.context));
    SetterRuns(plan, key, writes, begun.context);
    var e := Exec(plan, SETTER, begun.context);
    AnswerApplied(plan, begun.(context := e.ctx), "a", e, SET_OUTPUT);
  }

  lemma ReaderStep(plan: Plan, key: Id, writes: Context, st: State)
    requires Shares(plan, key, writes) && st.skip == {} && key in st.context && st.context[key] == Shared(key)
    ensures var r := SeqStep(plan, st, "b"); r.Running? && r.st.results == st.results["b" := Shared(key)]
  {
    var begun := Begin(st, "b", SeqInput(plan, "b", st.context));
    ReaderRuns(plan, key, writes, begun.context);
    assert begun.(context := begun.context) == begun;
    AnswerApplied(plan, begun, "b", Exec(plan, READER, begun.context), Shared(key));
  }

  lemma SharingSequential(plan: Plan, key: Id, writes: Context, st: State)
    requires Shares(plan, key, writes) && st == State(BaseContext(EMPTY_OBJECT), map[], [], {}, [])
    ensures var r := SeqRun(plan, Running(st), ["a", "b"]);
            r.Running? && r.st.results == map["a" := SET_OUTPUT, "b" := Shared(key)]
  {
    assert ["a", "b"] == ["a"] + ["b"];
    SeqRunConcat(plan, Running(st), ["a"], ["b"]);
    SeqRunOne(plan, Running(st), "a");
    SetterStep(plan, key, writes, st);
    var one := SeqStep(plan, st, "a");
    SeqRunOne(plan, one, "b");
    ReaderStep(plan, key, writes, one.st);
  }

  lemma SharingFilter(plan: Plan, key: Id, writes: Context, st: State)
    requires Shares(plan, key, writes) && st.skip == {}
    ensures Filter(plan, st, ["a", "b"]) == Filtered(st, ["a", "b"])
  {
    var level: seq<Id> := ["a", "b"];
    assert level[..1] == ["a"] && ["a"][..0] == [];
    assert Filter(plan, st, []) == Filtered(st, []);
    assert Filter(plan, st, ["a"]) == Filtered(st, [] + ["a"]);
  }

  lemma SharingParallel(plan: Plan, key: Id, writes: Context, st: State)
    requires Shares(plan, key, writes) && st == State(BaseContext(EMPTY_OBJECT), map[], [], {}, [])
    ensures var r := ParLevel(plan, st, ["a", "b"]);
            r.Running? && r.st.results == map["a" := SET_OUTPUT, "b" := Null]
  {
    SharingFilter(plan, key, writes, st);
    var begun, pool := AllBegun(Filter(plan, st, ["a", "b"])), Pool(st.context);
    assert [] + ["a"] == ["a"] && ["a"] + ["b"] == ["a", "b"];
    AnswerSnoc(plan, Running(begun), [], "a", pool);
    AnswerSnoc(plan, Running(begun), ["a"], "b", pool);
    SetterRuns(plan, key, writes, st.context);
    ReaderRuns(plan, key, writes, st.context);
    AnswerApplied(plan, begun, "a", PoolResult(plan, "a", st.context), SET_OUTPUT);
    var one := Answer(plan, begun, "a", pool);
    AnswerApplied(plan, one.st, "b", PoolResult(plan, "b", st.context), Null);
  }

  lemma SharingDiverges(plan: Plan, key: Id, writes: Context)
    requires Shares(plan, key, writes)
    ensures var st := State(BaseContext(EMPTY_OBJECT), map[], [], {}, []);
            !SameOutcome(RunInOrder(plan, st), RunByLevels(plan, st))
  {
    var st := State(BaseContext(EMPTY_OBJECT), map[], [], {}, []);
    EdgeFree(plan.net);
    SharingSequential(plan, key, writes, st);
    SharingParallel(plan, key, writes, st);
    var levels := [plan.net.ids];
    assert levels[..0] == [] && ParRun(plan, Running(st), levels) == ParLevel(plan, st, plan.net.ids);
    assert SeqRun(plan, Running(st), plan.net.ids).st.results["b"] == Shared(key) != Null;
  }

  // A lost write shows in the results too: the reader answers differently in the two modes.
  lemma WritersDiverge(body: (Node, Json, Context) -> Outcome, runtime: Runtime)
    ensures var plan := SharingPlan("v", map["v" := Bool(true)], body, runtime);
            var st := State(BaseContext(EMPTY_OBJECT), map[], [], {}, []);
            !SameOutcome(RunInOrder(plan, st), RunByLevels(plan, st))
  {
    SharingDiverges(SharingPlan("v", map["v" := Bool(true)], body, runtime), "v", map["v" := Bool(true)]);
  }

  // So does a look at the output of a node of the same level, though nobody writes the context.
  lemma SiblingReadersDiverge(body: (Node, Json, Context) -> Outcome, runtime: Runtime)
    ensures var plan := SharingPlan("a", map[], body, runtime);
            var st := State(BaseContext(EMPTY_OBJECT), map[], [], {}, []);
            HandlersWriteOnly(plan, {}) && !SameOutcome(RunInOrder(plan, st), RunByLevels(plan, st))
  {
    SharingDiverges(SharingPlan("a", map[], body, runtime), "a", map[]);
  }
}
