/** Why parallel mode asks that loop bodies be out of sight of what their level applies later.
    A root feeds a loop and a second node, and both feed the one node of the loop's body. When
    the sequential mode expands the loop the second node has not run and the body takes the
    item; in parallel mode the second node's entry already holds its seed, and the body takes
    that. No handler writes the context, and none looks beyond its input. */
module LoopDivergence {
  import opened Nets
  import opened Kahn
  import opened Levels
  import opened LevelTheorems
  import opened Values
  import opened NodeExec
  import opened LoopBody
  import opened Runner
  import opened Locality
  import opened Refinement
  import opened GraphRun
  import opened Divergence

  // ----- the graph and its levels -----

  const DIAMOND := Net(["r", "l", "s", "b"],
                       [Edge("r", "l", None), Edge("r", "s", None), Edge("s", "b", None), Edge("l", "b", Some("body"))])
  const INTO_L := Link("l", None)
  const INTO_S := Link("s", None)
  const BODY_LINK := Link("b", Some("body"))
  const INTO_B := Link("b", None)

  lemma LinksFour(n: Id)
    ensures var e := DIAMOND.edges;
            Links(DIAMOND, n) == LinkOf(DIAMOND, e[0], n) + LinkOf(DIAMOND, e[1], n) + LinkOf(DIAMOND, e[2], n) +
                LinkOf(DIAMOND, e[3], n)
  {
    var e := DIAMOND.edges;
    assert LinksUpTo(DIAMOND, 0, n) == [];
    assert LinksUpTo(DIAMOND, 1, n) == LinkOf(DIAMOND, e[0], n);
    assert LinksUpTo(DIAMOND, 2, n) == LinkOf(DIAMOND, e[0], n) + LinkOf(DIAMOND, e[1], n);
    assert LinksUpTo(DIAMOND, 3, n) == LinkOf(DIAMOND, e[0], n) + LinkOf(DIAMOND, e[1], n) + LinkOf(DIAMOND, e[2], n);
  }

  lemma DiamondLinks()
    ensures Links(DIAMOND, "r") == [INTO_L, INTO_S] && Links(DIAMOND, "l") == [BODY_LINK]
    ensures Links(DIAMOND, "s") == [INTO_B] && Links(DIAMOND, "b") == []
  {
    assert "r" in DIAMOND.ids && "l" in DIAMOND.ids && "s" in DIAMOND.ids && "b" in DIAMOND.ids;
    LinksFour("r");
    LinksFour("l");
    LinksFour("s");
    LinksFour("b");
  }

  lemma LinksOfSnoc(net: Net, nodes: seq<Id>, n: Id)
    ensures LinksOf(net, nodes + [n]) == LinksOf(net, nodes) + Links(net, n)
  {
    assert (nodes + [n])[..|nodes|] == nodes;
  }

  lemma LinksOfOne(net: Net, n: Id)
    ensures LinksOf(net, [n]) == Links(net, n)
  {
    assert [n][..0] == [] && LinksOf(net, []) == [];
    assert LinksOf(net, [n]) == [] + Links(net, n);
  }

  lemma DiamondAllLinks()
    ensures LinksOf(DIAMOND, DIAMOND.ids) == [INTO_L, INTO_S, BODY_LINK, INTO_B]
  {
    DiamondLinks();
    LinksOfOne(DIAMOND, "r");
    LinksOfSnoc(DIAMOND, ["r"], "l");
    LinksOfSnoc(DIAMOND, ["r", "l"], "s");
    LinksOfSnoc(DIAMOND, ["r", "l", "s"], "b");
    assert ["r"] + ["l"] == ["r", "l"] && ["r", "l"] + ["s"] == ["r", "l", "s"];
    assert ["r", "l", "s"] + ["b"] == DIAMOND.ids;
  }

  lemma DiamondLinksOf()
    ensures LinksOf(DIAMOND, ["r"]) == [INTO_L, INTO_S]
    ensures LinksOf(DIAMOND, ["l", "s"]) == [BODY_LINK, INTO_B]
    ensures LinksOf(DIAMOND, ["b"]) == []
    ensures LinksOf(DIAMOND, DIAMOND.ids) == [INTO_L, INTO_S, BODY_LINK, INTO_B]
  {
    DiamondLinks();
    LinksOfOne(DIAMOND, "r");
    LinksOfOne(DIAMOND, "l");
    LinksOfOne(DIAMOND, "b");
    LinksOfSnoc(DIAMOND, ["l"], "s");
    assert ["l"] + ["s"] == ["l", "s"];
    DiamondAllLinks();
  }

  lemma CountSnoc(links: seq<Link>, l: Link, t: Id)
    ensures Count(links + [l], t) == Count(links, t) + if l.target == t then 1 else 0
  {
    assert (links + [l])[..|links|] == links;
  }

  lemma DiamondCount(t: Id)
    ensures Count([INTO_L, INTO_S, BODY_LINK, INTO_B], t) ==
              (if t == "l" then 1 else 0) + (if t == "s" then 1 else 0) + (if t == "b" then 2 else 0)
  {
    CountSnoc([], INTO_L, t);
    CountSnoc([INTO_L], INTO_S, t);
    CountSnoc([INTO_L, INTO_S], BODY_LINK, t);
    CountSnoc([INTO_L, INTO_S, BODY_LINK], INTO_B, t);
    assert [] + [INTO_L] == [INTO_L] && [INTO_L] + [INTO_S] == [INTO_L, INTO_S];
    assert [INTO_L, INTO_S] + [BODY_LINK] == [INTO_L, INTO_S, BODY_LINK];
    assert [INTO_L, INTO_S, BODY_LINK] + [INTO_B] == [INTO_L, INTO_S, BODY_LINK, INTO_B];
  }

  lemma DiamondDegrees()
    ensures LevelDegrees(DIAMOND) == map["r" := 0, "l" := 1, "s" := 1, "b" := 2]
  {
    DiamondAllLinks();
    DiamondCount("r");
    DiamondCount("l");
    DiamondCount("s");
    DiamondCount("b");
  }

  lemma RootsSnoc(ids: seq<Id>, n: Id, indeg: InDeg)
    requires forall i :: i in ids + [n] ==> i in indeg
    ensures (forall i :: i in ids ==> i in ids + [n]) && n in ids + [n]
    ensures Roots(ids + [n], indeg) == Roots(ids, indeg) + if indeg[n] == 0 then [n] else []
  {
    assert (ids + [n])[..|ids|] == ids;
  }

  lemma DiamondRoots(indeg: InDeg)
    requires indeg == map["r" := 0, "l" := 1, "s" := 1, "b" := 2]
    ensures Roots(DIAMOND.ids, indeg) == ["r"]
  {
    RootsSnoc([], "r", indeg);
    RootsSnoc(["r"], "l", indeg);
    RootsSnoc(["r", "l"], "s", indeg);
    RootsSnoc(["r", "l", "s"], "b", indeg);
    assert [] + ["r"] == ["r"] && ["r"] + ["l"] == ["r", "l"] && ["r", "l"] + ["s"] == ["r", "l", "s"];
    assert ["r", "l", "s"] + ["b"] == DIAMOND.ids;
  }

  lemma SpreadTwo(l1: Link, l2: Link, indeg: InDeg, seen: set<Id>)
    requires l1.target in indeg && l2.target in indeg
    ensures Targets([l1, l2], indeg)
    ensures Spread([l1, l2], indeg, seen) == SpreadOne(SpreadOne(Wave(indeg, seen, []), l1.target), l2.target)
  {
    assert [l1, l2][..1] == [l1] && [l1][..0] == [];
    assert Spread([l1], indeg, seen) == SpreadOne(Spread([], indeg, seen), l1.target);
  }

  // The first sweep frees both nodes in the middle, the second their common target.
  lemma FirstSweep(d0: InDeg, s0: set<Id>)
    requires d0 == map["r" := 0, "l" := 1, "s" := 1, "b" := 2] && s0 == {"r"}
    ensures Targets([INTO_L, INTO_S], d0)
    ensures var w := Spread([INTO_L, INTO_S], d0, s0);
            w.next == ["l", "s"] && "b" !in w.seen && "b" in w.indeg && w.indeg["b"] == 2
  {
    SpreadTwo(INTO_L, INTO_S, d0, s0);
    var one := SpreadOne(Wave(d0, s0, []), "l");
    assert one == Wave(d0["l" := 0], s0 + {"l"}, [] + ["l"]);
    assert SpreadOne(one, "s") == Wave(one.indeg["s" := 0], one.seen + {"s"}, one.next + ["s"]);
  }

  lemma SecondSweep(indeg: InDeg, seen: set<Id>)
    requires "b" !in seen && "b" in indeg && indeg["b"] == 2
    ensures Targets([BODY_LINK, INTO_B], indeg) && Spread([BODY_LINK, INTO_B], indeg, seen).next == ["b"]
  {
    SpreadTwo(BODY_LINK, INTO_B, indeg, seen);
    var one := SpreadOne(Wave(indeg, seen, []), "b");
    assert one == Wave(indeg["b" := 1], seen, []);
    assert SpreadOne(one, "b") == Wave(one.indeg["b" := 0], seen + {"b"}, [] + ["b"]);
  }

  lemma DiamondLevels()
    ensures LevelsOf(DIAMOND) == [["r"], ["l", "s"], ["b"]]
  {
    DiamondLinksOf();
    DiamondDegrees();
    var d0 := LevelDegrees(DIAMOND);
    DiamondRoots(d0);
    var s0 := set i | i in ["r"];
    FirstSweep(d0, s0);
    var w1 := Spread([INTO_L, INTO_S], d0, s0);
    SecondSweep(w1.indeg, w1.seen);
    DiamondSweeps(d0, s0, w1, Spread([BODY_LINK, INTO_B], w1.indeg, w1.seen));
  }

  lemma DiamondSweeps(d0: InDeg, s0: set<Id>, w1: Wave, w2: Wave)
    requires Covers(DIAMOND, d0) && LinksOf(DIAMOND, ["r"]) == [INTO_L, INTO_S]
    requires LinksOf(DIAMOND, ["l", "s"]) == [BODY_LINK, INTO_B] && LinksOf(DIAMOND, ["b"]) == []
    requires Targets([INTO_L, INTO_S], d0) && w1 == Spread([INTO_L, INTO_S], d0, s0) && w1.next == ["l", "s"]
    requires Targets([BODY_LINK, INTO_B], w1.indeg) && w2 == Spread([BODY_LINK, INTO_B], w1.indeg, w1.seen)
    requires w2.next == ["b"]
    ensures Sweep(DIAMOND, [], ["r"], d0, s0) == [["r"], ["l", "s"], ["b"]]
  {
    var net := DIAMOND;
    assert [] + [["r"]] == [["r"]];
    assert Sweep(net, [], ["r"], d0, s0) == Sweep(net, [["r"]], ["l", "s"], w1.indeg, w1.seen);
    assert [["r"]] + [["l", "s"]] == [["r"], ["l", "s"]];
    assert Sweep(net, [["r"]], ["l", "s"], w1.indeg, w1.seen) ==
        Sweep(net, [["r"], ["l", "s"]], ["b"], w2.indeg, w2.seen);
    assert [["r"], ["l", "s"]] + [["b"]] == [["r"], ["l", "s"], ["b"]];
    assert Spread([], w2.indeg, w2.seen) == Wave(w2.indeg, w2.seen, []);
    assert Sweep(net, [["r"], ["l", "s"]], ["b"], w2.indeg, w2.seen) ==
        Sweep(net, [["r"], ["l", "s"], ["b"]], [], w2.indeg, w2.seen);
  }

  // ----- handlers that look at nothing but their input -----

  const LOOP_OUTPUT := Obj(map["items" := Arr([Num(1)]), "count" := Num(1), "__loop__" := Bool(true)])

  function Plainly(id: Id): Node {
    Node(id, "action.log", "", Null, false, Num(0), Num(5), "abort")
  }

  function RunPlainly(n: Node, k: nat, inp: Json, c: Context): Outcome {
    Ok(if n.id == "l" then LOOP_OUTPUT else Str(n.id), map[])
  }

  function EchoInput(n: Node, inp: Json, c: Context): Outcome {
    Ok(inp, map[])
  }

  function DiamondPlan(runtime: Runtime): Plan {
    Plan(DIAMOND, map["r" := Plainly("r"), "l" := Plainly("l"), "s" := Plainly("s"), "b" := Plainly("b")],
         Env(RunPlainly, EchoInput, runtime))
  }

  ghost predicate IsDiamond(plan: Plan) {
    && plan == DiamondPlan(plan.env.runtime) && FaithfulListing(plan.env)
    && (forall n, k, inp, c :: plan.env.run(n, k, inp, c) == RunPlainly(n, k, inp, c))
    && (forall n, inp, c :: plan.env.body(n, inp, c) == EchoInput(n, inp, c))
  }

  function ValueAt(x: Id): Json {
    if x == "l" then LOOP_OUTPUT else Str(x)
  }

  // ----- the body of the loop -----

  lemma ListsOne(listing: set<Id> -> seq<Id>, x: Id)
    requires Distinct(listing({x})) && Elements(listing({x})) == {x}
    ensures listing({x}) == [x]
  {
    var s := listing({x});
    DistinctSize(s);
    assert (set y | y in s) == {x};
    assert s[0] in Elements(s);
  }

  lemma OneTarget(net: Net, l: Link)
    ensures BodyTargets([l]) == if l.handle == Some("body") then [l.target] else []
    ensures BodyOf(net, [l.target]) == {l.target} + TargetsOf(Links(net, l.target))
  {
    assert BodyTargets([l][..0]) == [] && BodyOf(net, [l.target][..0]) == {};
  }

  lemma DiamondBody()
    ensures BodyTargets(Links(DIAMOND, "l")) == ["b"] && BodySet(DIAMOND, "l") == {"b"}
  {
    DiamondLinks();
    OneTarget(DIAMOND, BODY_LINK);
    assert TargetsOf([]) == {};
  }

  lemma LoneBodyOrder(plan: Plan)
    requires IsDiamond(plan)
    ensures BodyTargets(Links(plan.net, "l")) == ["b"] && BodyOrder(plan, "l") == ["b"]
  {
    DiamondBody();
    ListsOne(plan.env.runtime.listing, "b");
    NoEdgesWithin(DIAMOND.edges, {"b"});
    var body := Net(["b"], []);
    EdgeFree(body);
    assert BodyOrder(plan, "l") == RemoveFirst(body.ids, "l");
  }

  lemma {:induction false} NoEdgesWithin(edges: seq<Edge>, subset: set<Id>)
    requires forall e :: e in edges ==> e.source !in subset
    ensures EdgesWithin(edges, subset) == []
  {
    if |edges| == 0 {
    } else {
      NoEdgesWithin(edges[..|edges| - 1], subset);
    }
  }

  // The body takes the entry of `s` if there is one, and the item otherwise.
  lemma BodyInputTakes(plan: Plan, lc: Context)
    requires IsDiamond(plan) && "l" in lc
    ensures BodyInput(plan, Num(1), lc, "b") == if "s" in lc then lc["s"] else lc["l"]
  {
    var e := DIAMOND.edges;
    assert FirstAvailable(e, 3, "b", lc) == Some(lc["l"]);
    assert FirstAvailable(e, 2, "b", lc) == if "s" in lc then Some(lc["s"]) else Some(lc["l"]);
    assert FirstAvailable(e, 1, "b", lc) == FirstAvailable(e, 2, "b", lc);
    assert FirstAvailable(e, 0, "b", lc) == FirstAvailable(e, 1, "b", lc);
  }

  lemma ItemTakes(plan: Plan, ctx: Context)
    requires IsDiamond(plan)
    ensures ItemResult(plan, "l", ctx, Num(1)) == if "s" in ctx then ctx["s"] else Num(1)
  {
    LoneBodyOrder(plan);
    var lc := ItemContext("l", Num(1), ctx);
    BodyInputTakes(plan, lc);
    OneBodyNode(plan, Num(1), lc, "b");
    EchoStep(plan, lc);
  }

  lemma OneBodyNode(plan: Plan, item: Json, lc: Context, b: Id)
    ensures BodyRun(plan, item, lc, [b]) == BodyStep(plan, item, lc, b)
  {
    assert BodyRun(plan, item, lc, [b][..0]) == lc;
  }

  lemma EchoStep(plan: Plan, lc: Context)
    requires IsDiamond(plan)
    ensures var after := BodyStep(plan, Num(1), lc, "b"); "b" in after && after["b"] == BodyInput(plan, Num(1), lc, "b")
  {
  }

  lemma OneItem(plan: Plan, n: Id, ctx: Context, item: Json)
    ensures LoopResults(plan, n, ctx, [item]) == [ItemResult(plan, n, ctx, item)]
  {
    assert LoopResults(plan, n, ctx, [item][..0]) == [];
    assert LoopResults(plan, n, ctx, [item]) == [] + [ItemResult(plan, n, ctx, item)];
  }

  lemma BodyTakes(plan: Plan, ctx: Context)
    requires IsDiamond(plan)
    ensures IsLoop(LOOP_OUTPUT)
    ensures Expanded(plan, "l", LOOP_OUTPUT, ctx) == Some(LoopOutput([if "s" in ctx then ctx["s"] else Num(1)]))
  {
    LoopOutputItems(plan.env);
    ItemTakes(plan, ctx);
    OneItem(plan, "l", ctx, Num(1));
  }

  lemma LoopOutputItems(env: Env)
    ensures IsLoop(LOOP_OUTPUT) && LoopItems(env, LOOP_OUTPUT) == Some([Num(1)])
  {
  }

  // ----- both runs -----

  // What one node leaves behind, given the context it is applied to.
  lemma PlainAnswer(plan: Plan, st: State, x: Id, c: Context)
    requires IsDiamond(plan) && x in plan.nodes
    ensures var e := Exec(plan, plan.nodes[x], c);
            && Answers(e, c, ValueAt(x))
            && Stored(plan, st, Apply(plan, st, x, e), x, ValueAt(x))
  {
    SteadyRun(plan, plan.nodes[x], c, ValueAt(x), map[]);
    assert c + map[] == c;
    AnswerApplied(plan, st, x, Exec(plan, plan.nodes[x], c), ValueAt(x));
  }

  lemma PlainStep(plan: Plan, st: State, x: Id)
    requires IsDiamond(plan) && x in plan.nodes && x != "l" && st.skip == {}
    ensures var r := SeqStep(plan, st, x);
            && r.Running? && r.st.skip == {} && r.st.context.Keys == st.context.Keys + {x}
            && r.st.results == st.results[x := Str(x)]
  {
    var begun := Begin(st, x, SeqInput(plan, x, st.context));
    PlainAnswer(plan, begun, x, begun.context);
    assert begun.(context := begun.context) == begun;
  }

  // The loop takes the item when it runs before `s` has an entry.
  lemma LoopStep(plan: Plan, st: State)
    requires IsDiamond(plan) && st.skip == {} && "s" !in st.context
    ensures var r := SeqStep(plan, st, "l");
            r.Running? && r.st.skip == {} && r.st.results == st.results["l" := LOOP_AS_ITEM]
  {
    var begun := Begin(st, "l", SeqInput(plan, "l", st.context));
    PlainAnswer(plan, begun, "l", begun.context);
    BodyTakes(plan, begun.context["l" := LOOP_OUTPUT]);
    assert begun.(context := begun.context) == begun;
  }

  const LOOP_AS_ITEM := LoopOutput([Num(1)])
  const LOOP_AS_SEED := LoopOutput([Str("r")])

  lemma DiamondSequential(plan: Plan, st: State)
    requires IsDiamond(plan) && st == State(BaseContext(EMPTY_OBJECT), map[], [], {}, [])
    ensures var r := SeqRun(plan, Running(st), ["r", "l", "s", "b"]);
            r.Running? && "l" in r.st.results && r.st.results["l"] == LOOP_AS_ITEM
  {
    assert [] + ["r"] == ["r"] && ["r"] + ["l"] == ["r", "l"];
    assert ["r", "l"] + ["s"] == ["r", "l", "s"] && ["r", "l", "s"] + ["b"] == ["r", "l", "s", "b"];
    SeqRunSnoc(plan, Running(st), [], "r");
    PlainStep(plan, st, "r");
    var r1 := SeqStep(plan, st, "r");
    SeqRunSnoc(plan, Running(st), ["r"], "l");
    LoopStep(plan, r1.st);
    var r2 := SeqStep(plan, r1.st, "l");
    SeqRunSnoc(plan, Running(st), ["r", "l"], "s");
    PlainStep(plan, r2.st, "s");
    var r3 := SeqStep(plan, r2.st, "s");
    SeqRunSnoc(plan, Running(st), ["r", "l", "s"], "b");
    PlainStep(plan, r3.st, "b");
  }

  lemma LoneFilter(plan: Plan, st: State, x: Id)
    requires IsDiamond(plan) && (x == "r" || x == "b") && st.skip == {}
    ensures var f := Filter(plan, st, [x]);
            && f.active == [x] && f.st.skip == {} && f.st.results == st.results
            && f.st.context.Keys + {x} == st.context.Keys + {x}
  {
    assert [x][..0] == [] && Filter(plan, st, []) == Filtered(st, []);
    assert Filter(plan, st, [x]).active == [] + [x];
  }

  lemma LoneLevel(plan: Plan, st: State, x: Id)
    requires IsDiamond(plan) && (x == "r" || x == "b") && st.skip == {}
    ensures var r := ParLevel(plan, st, [x]);
            && r.Running? && r.st.skip == {} && r.st.results == st.results[x := Str(x)]
            && x in r.st.context && r.st.context[x] == Str(x) && r.st.context.Keys == st.context.Keys + {x}
  {
    var f := Filter(plan, st, [x]);
    LoneFilter(plan, st, x);
    AnswerOnly(plan, AllBegun(f), f.active, Live);
    PlainAnswer(plan, AllBegun(f), x, f.st.context);
    assert AllBegun(f).(context := f.st.context) == AllBegun(f);
  }

  // The filter pass gives both nodes of the middle level their seed before either runs.
  lemma MiddleFilter(plan: Plan, st: State)
    requires IsDiamond(plan) && st.skip == {} && "r" in st.context
    ensures var f := Filter(plan, st, ["l", "s"]);
            && f.active == ["l", "s"] && f.st.skip == {} && f.st.results == st.results
            && f.st.context == st.context["l" := st.context["r"]]["s" := st.context["r"]]
  {
    var e, level := DIAMOND.edges, ["l", "s"];
    assert level[..1] == ["l"] && ["l"][..0] == [] && Filter(plan, st, []) == Filtered(st, []);
    assert FirstAvailable(e, 0, "l", st.context) == Some(st.context["r"]);
    var f1 := Filter(plan, st, ["l"]);
    assert f1 == Filtered(st.(context := st.context["l" := st.context["r"]]), [] + ["l"]);
    assert FirstAvailable(e, 0, "s", f1.st.context) == FirstAvailable(e, 1, "s", f1.st.context) ==
        Some(st.context["r"]);
    assert f1.active + ["s"] == ["l", "s"];
  }

  // In the pool's hands the loop's expansion finds the seed of `s`.
  lemma LoopAnswer(plan: Plan, st: State, c: Context)
    requires IsDiamond(plan) && st.skip == {} && "s" in st.context && st.context["s"] == Str("r")
    ensures var r := Answer(plan, st, "l", Pool(c));
            r.Running? && r.st.skip == {} && r.st.results == st.results["l" := LOOP_AS_SEED]
  {
    PlainAnswer(plan, st, "l", c);
    BodyTakes(plan, st.context["l" := LOOP_OUTPUT]);
  }

  lemma MiddleLevel(plan: Plan, st: State)
    requires IsDiamond(plan) && st.skip == {} && "r" in st.context && st.context["r"] == Str("r")
    ensures var r := ParLevel(plan, st, ["l", "s"]);
            r.Running? && r.st.skip == {} && "l" in r.st.results && r.st.results["l"] == LOOP_AS_SEED
  {
    var f := Filter(plan, st, ["l", "s"]);
    MiddleFilter(plan, st);
    var begun, pool := AllBegun(f), Pool(f.st.context);
    assert [] + ["l"] == ["l"] && ["l"] + ["s"] == ["l", "s"];
    AnswerSnoc(plan, Running(begun), [], "l", pool);
    AnswerSnoc(plan, Running(begun), ["l"], "s", pool);
    LoopAnswer(plan, begun, f.st.context);
    var one := Answer(plan, begun, "l", pool);
    PlainAnswer(plan, one.st, "s", f.st.context);
  }

  lemma DiamondParallel(plan: Plan, st: State)
    requires IsDiamond(plan) && st == State(BaseContext(EMPTY_OBJECT), map[], [], {}, [])
    ensures var r := ParRun(plan, Running(st), [["r"], ["l", "s"], ["b"]]);
            r.Running? && "l" in r.st.results && r.st.results["l"] == LOOP_AS_SEED
  {
    var levels := [["r"], ["l", "s"], ["b"]];
    assert levels[..2] == [["r"], ["l", "s"]] && levels[..2][..1] == [["r"]] && [["r"]][..0] == [];
    assert ParRun(plan, Running(st), []) == Running(st);
    LoneLevel(plan, st, "r");
    var r1 := ParRun(plan, Running(st), [["r"]]);
    assert r1 == ParLevel(plan, st, ["r"]);
    MiddleLevel(plan, r1.st);
    var r2 := ParRun(plan, Running(st), [["r"], ["l", "s"]]);
    assert r2 == ParLevel(plan, r1.st, ["l", "s"]);
    LoneLevel(plan, r2.st, "b");
  }

  lemma DiamondOrder()
    ensures Order(DIAMOND) == ["r", "l", "s", "b"]
  {
    DiamondLevels();
    DiamondFlat();
    DiamondDistinct();
    LevelsFlattenToOrder(DIAMOND);
  }

  lemma DiamondDistinct()
    ensures Distinct(DIAMOND.ids)
  {
  }

  lemma DiamondFlat()
    ensures Flatten([["r"], ["l", "s"], ["b"]]) == ["r", "l", "s", "b"]
  {
    FlattenSnoc([], ["r"]);
    FlattenSnoc([["r"]], ["l", "s"]);
    FlattenSnoc([["r"], ["l", "s"]], ["b"]);
    assert [] + [["r"]] == [["r"]] && [["r"]] + [["l", "s"]] == [["r"], ["l", "s"]];
    assert [["r"], ["l", "s"]] + [["b"]] == [["r"], ["l", "s"], ["b"]];
  }

  // Whatever order the runtime lists sets in, the loop's output depends on the mode.
  lemma LoopBodySeesSeed(plan: Plan)
    requires IsDiamond(plan)
    ensures HandlersWriteOnly(plan, {}) && forall i, keys :: i in plan.nodes ==> Ignores(plan.env, plan.nodes[i], keys)
    ensures var st := State(BaseContext(EMPTY_OBJECT), map[], [], {}, []);
            !SameOutcome(RunInOrder(plan, st), RunByLevels(plan, st))
  {
    var st := State(BaseContext(EMPTY_OBJECT), map[], [], {}, []);
    DiamondLevels();
    DiamondOrder();
    DiamondSequential(plan, st);
    DiamondParallel(plan, st);
    assert LOOP_AS_ITEM.fields["loop_results"] != LOOP_AS_SEED.fields["loop_results"];
    forall i, keys | i in plan.nodes
      ensures Ignores(plan.env, plan.nodes[i], keys)
    {
      IgnoresAll(plan, plan.nodes[i], keys);
    }
  }

  lemma IgnoresAll(plan: Plan, n: Node, keys: set<Id>)
    requires IsDiamond(plan)
    ensures Ignores(plan.env, n, keys)
  {
    forall k, inp, c
      ensures RunIgnores(plan.env, n, keys, k, inp, c)
    {
    }
  }
}
