/** What a resumed run does not restore: variables that ancestors set; with the outputs the
    canvas sends, an empty object where the first source was passed over; and the branches that
    skipped conditions had switched off. */
module ResumeDivergence {
  import opened Nets
  import opened Kahn
  import opened Levels
  import opened LevelTheorems
  import opened Values
  import opened Reachability
  import opened NodeExec
  import opened Runner
  import opened Locality
  import opened Refinement
  import opened RunLaws
  import opened ParallelLaws
  import opened GraphRun
  import opened DataFlow
  import opened Writers
  import opened ResumeRun

  // ----- variables -----

  // A key that nobody writes who is not skipped from the start never appears.
  lemma {:induction false} NobodyWrites(plan: Plan, st: State, order: seq<Id>, key: Id)
    requires WellFormed(plan) && key !in plan.net.ids && key !in st.context
    requires forall i :: i in plan.nodes ==> NeverWrites(plan.env, plan.nodes[i], key) || i in st.skip
    ensures key !in SeqRun(plan, Running(st), order).st.context
  {
    if |order| == 0 {
    } else {
      var rest, x := order[..|order| - 1], order[|order| - 1];
      NobodyWrites(plan, st, rest, key);
      SkipGrows(plan, Running(st), rest);
      var r := SeqRun(plan, Running(st), rest);
      if r.Running? && x in plan.nodes {
        StepKeys(plan, r.st, x, key);
      }
    }
  }

  lemma AnswerKeepsKey(plan: Plan, st: State, x: Id, source: Source, key: Id)
    requires x in plan.nodes && key in st.context
    ensures key in Answer(plan, st, x, source).st.context
  {
    var n := plan.nodes[x];
    match source {
      case Pool(snapshot) => ApplyKeys(plan, st, x, PoolResult(plan, x, snapshot));
      case Live =>
        if Runs(plan.env, n) {
          ExecKeys(plan, n, st.context, key);
          var e := Exec(plan, n, st.context);
          ApplyKeys(plan, st.(context := e.ctx), x, e);
        }
    }
  }

  lemma {:induction false} AnswersKeepKey(plan: Plan, run: Run, active: seq<Id>, source: Source, key: Id)
    requires (forall x :: x in active ==> x in plan.nodes) && key in run.st.context
    ensures key in AnswerAll(plan, run, active, source).st.context
  {
    if |active| == 0 {
    } else {
      var front := active[..|active| - 1];
      assert forall y :: y in front ==> y in active;
      AnswersKeepKey(plan, run, front, source, key);
      var r := AnswerAll(plan, run, front, source);
      if r.Running? {
        AnswerKeepsKey(plan, r.st, active[|active| - 1], source, key);
      }
    }
  }

  lemma FilterKey(plan: Plan, st: State, level: seq<Id>, key: Id)
    requires WellFormed(plan) && (forall x :: x in level ==> x in plan.nodes) && key !in plan.net.ids
    ensures key in Filter(plan, st, level).st.context <==> key in st.context
  {
    FilterIs(plan, st, level);
    AgreeAt(Filter(plan, st, level).st.context, st.context, ActiveSet(plan, st.skip, level), key);
  }

  lemma {:induction false} LevelsKeepKey(plan: Plan, st: State, i: nat, k: nat, key: Id)
    requires WellFormed(plan) && i <= k <= |LevelsOf(plan.net)| && key !in plan.net.ids
    requires key in ParAt(plan, st, i).st.context
    ensures key in ParAt(plan, st, k).st.context
    decreases k - i
  {
    if i < k {
      NextLevelKeepsKey(plan, st, i, key);
      LevelsKeepKey(plan, st, i + 1, k, key);
    }
  }

  lemma NextLevelKeepsKey(plan: Plan, st: State, k: nat, key: Id)
    requires WellFormed(plan) && k < |LevelsOf(plan.net)| && key !in plan.net.ids
    requires key in ParAt(plan, st, k).st.context
    ensures key in ParAt(plan, st, k + 1).st.context
  {
    ParNext(plan, st, k);
    var r := ParAt(plan, st, k);
    if r.Running? {
      LevelIsDistinct(plan.net, k);
      LevelKeepsKey(plan, r.st, LevelsOf(plan.net)[k], key);
    }
  }

  lemma LevelKeepsKey(plan: Plan, st: State, level: seq<Id>, key: Id)
    requires WellFormed(plan) && (forall x :: x in level ==> x in plan.nodes) && key !in plan.net.ids
    requires key in st.context
    ensures key in ParLevel(plan, st, level).st.context
  {
    var f := Filter(plan, st, level);
    FilterKey(plan, st, level, key);
    FilterActive(plan, st, level);
    AnswersKeepKey(plan, Running(AllBegun(f)), f.active, SourceOf(f), key);
  }

  // At the i-th level `a` is the only node that runs.
  ghost predicate AloneAtLevel(plan: Plan, st: State, i: nat, a: Id) {
    && i < |LevelsOf(plan.net)| && ParAt(plan, st, i).Running?
    && ActiveOf(plan, ParAt(plan, st, i).st.skip, LevelsOf(plan.net)[i]) == [a]
  }

  // Whether a run in the given mode keeps what `a` writes.
  ghost predicate KeepsWrites(plan: Plan, st: State, parallel: bool, a: Id) {
    parallel ==> exists i: nat :: AloneAtLevel(plan, st, i, a)
  }

  lemma AloneWrites(plan: Plan, st: State, i: nat, a: Id, key: Id)
    requires WellFormed(plan) && AloneAtLevel(plan, st, i, a) && Marks(plan, a, key) && Runs(plan.env, plan.nodes[a])
    ensures a in LevelsOf(plan.net)[i] && key in ParAt(plan, st, i + 1).st.context
  {
    var r, level := ParAt(plan, st, i), LevelsOf(plan.net)[i];
    ParNext(plan, st, i);
    LevelIsDistinct(plan.net, i);
    FilterIs(plan, r.st, level);
    FilterActive(plan, r.st, level);
    ActiveMembers(plan, r.st.skip, level);
    var f := Filter(plan, r.st, level);
    assert f.active[0] == a;
    AnswerOnly(plan, AllBegun(f), f.active, Live);
    ExecKeys(plan, plan.nodes[a], f.st.context, key);
    var e := Exec(plan, plan.nodes[a], f.st.context);
    ApplyKeys(plan, AllBegun(f).(context := e.ctx), a, e);
  }

  // What the parallel run holds of the variable when it comes to a node downstream of `a`.
  lemma KeptIffAlone(plan: Plan, st: State, a: Id, key: Id, k: nat, x: Id)
    requires WellFormed(plan) && Marks(plan, a, key) && Runs(plan.env, plan.nodes[a]) && key !in st.context
    requires k < |LevelsOf(plan.net)| && x in LevelsOf(plan.net)[k] && Reaches(plan.net, a, x)
    ensures key in ParAt(plan, st, k).st.context <==> KeepsWrites(plan, st, true, a)
  {
    if i: nat :| AloneAtLevel(plan, st, i, a) {
      AloneWrites(plan, st, i, a, key);
      var j := UpstreamIsLower(plan.net, k, a, x);
      LevelIsUnique(plan.net, i, j, a);
      LevelsKeepKey(plan, st, i + 1, k, key);
    } else {
      NeverAlone(plan, st, a, key, k);
    }
  }

  lemma NeverAlone(plan: Plan, st: State, a: Id, key: Id, k: nat)
    requires WellFormed(plan) && Marks(plan, a, key) && key !in st.context && k < |LevelsOf(plan.net)|
    requires forall i: nat :: !AloneAtLevel(plan, st, i, a)
    ensures key !in ParAt(plan, st, k).st.context
  {
    forall j | 0 <= j < k && ParAt(plan, st, j).Running?
      ensures NotAlone(plan, ParAt(plan, st, j).st.skip, LevelsOf(plan.net)[j], a)
    {
      OnlyOne(plan, ParAt(plan, st, j).st.skip, LevelsOf(plan.net)[j], a);
      assert !AloneAtLevel(plan, st, j, a);
    }
    LevelsLose(plan, st, k, a, key);
  }

  lemma OnlyOne(plan: Plan, skip: set<Id>, level: seq<Id>, a: Id)
    ensures !NotAlone(plan, skip, level, a) ==> ActiveOf(plan, skip, level) == [a]
  {
  }

  // A variable of a node that is skipped from the start never appears in a parallel run.
  lemma SkippedWritesNothing(plan: Plan, st: State, a: Id, key: Id, k: nat)
    requires WellFormed(plan) && Marks(plan, a, key) && a in st.skip && key !in st.context
    requires k <= |LevelsOf(plan.net)|
    ensures key !in ParAt(plan, st, k).st.context
  {
    forall j | 0 <= j < k && ParAt(plan, st, j).Running?
      ensures NotAlone(plan, ParAt(plan, st, j).st.skip, LevelsOf(plan.net)[j], a)
    {
      ParSkipGrows(plan, st, 0, j);
      assert ParAt(plan, st, 0) == Running(st);
      ActiveIff(plan, ParAt(plan, st, j).st.skip, LevelsOf(plan.net)[j]);
    }
    LevelsLose(plan, st, k, a, key);
  }

  // The handler answers whether the variable is set.
  ghost predicate Reports(env: Env, n: Node, key: Id) {
    Runs(env, n) && forall k, inp, c :: env.run(n, k, inp, c) == Ok(Bool(key in c), map[])
  }

  lemma ReportedOutput(plan: Plan, n: Node, c: Context, key: Id)
    requires Reports(plan.env, n, key)
    ensures Exec(plan, n, c).trace.output == Bool(key in c)
  {
    assert plan.env.run(n, 0, ExecInput(plan.net.edges, n.id, c), c) == Ok(Bool(key in c), map[]);
  }

  // What a reporting node answers in either mode.
  lemma ReportedInWalk(plan: Plan, st: State, x: Id, key: Id, t: Trace) returns (k: nat)
    requires WellFormed(plan) && st.traces == [] && key !in plan.net.ids
    requires x in plan.nodes && Reports(plan.env, plan.nodes[x], key)
    requires t in RunInOrder(plan, st).st.traces && t.node == x && !t.status.Skipped?
    ensures k < |Order(plan.net)| && Order(plan.net)[k] == x
    ensures t.output == Bool(key in SeqRun(plan, Running(st), Order(plan.net)[..k]).st.context)
  {
    k := TraceOrigin(plan, st, Order(plan.net), t);
    var c := SeqRun(plan, Running(st), Order(plan.net)[..k]).st.context;
    ReportedOutput(plan, plan.nodes[x], c[x := SeqInput(plan, x, c)], key);
  }

  lemma ReportedInLevels(plan: Plan, st: State, x: Id, key: Id, t: Trace) returns (k: nat)
    requires WellFormed(plan) && st.traces == [] && key !in plan.net.ids
    requires x in plan.nodes && Reports(plan.env, plan.nodes[x], key)
    requires t in RunByLevels(plan, st).st.traces && t.node == x && !t.status.Skipped?
    ensures k < |LevelsOf(plan.net)| && x in LevelsOf(plan.net)[k]
    ensures t.output == Bool(key in ParAt(plan, st, k).st.context)
  {
    ParEnds(plan, st);
    k := ParTraceOrigin(plan, st, |LevelsOf(plan.net)|, t);
    var r, level := ParAt(plan, st, k), LevelsOf(plan.net)[k];
    LevelIsDistinct(plan.net, k);
    FilterKey(plan, r.st, level, key);
    ReportedOutput(plan, plan.nodes[x], Filter(plan, r.st, level).st.context, key);
  }

  // The start node finds the variable its ancestor set in the first run, if that run kept it,
  // which a parallel one does only for a node that ran alone at its level; and it never finds
  // it in a resumed run, which restores outputs only.
  lemma ResumeForgetsVariable(
    plan: Plan, st1: State, parallel1: bool, req: Request, start: Id, a: Id, key: Id, ta: Trace, t1: Trace, t2: Trace)
    requires WellFormed(plan) && st1.traces == [] && ResumesAt(plan.net, req, start)
    requires Marks(plan, a, key) && key != PAYLOAD_KEY && Reaches(plan.net, a, start) && key !in st1.context
    requires Runs(plan.env, plan.nodes[a]) && start in plan.nodes && Reports(plan.env, plan.nodes[start], key)
    requires ta in RunIn(plan, st1, parallel1).st.traces && ta.node == a && !ta.status.Skipped?
    requires t1 in RunIn(plan, st1, parallel1).st.traces && t1.node == start && !t1.status.Skipped?
    requires t2 in RunGraph(plan, req).st.traces && t2.node == start && !t2.status.Skipped?
    ensures t1.output == Bool(KeepsWrites(plan, st1, parallel1, a)) && t2.output == Bool(false)
  {
    var st2 := InitialState(plan.net, req);
    ReachesInNet(plan.net, a, start);
    assert a in Ancestors(plan.net, start);
    if parallel1 {
      var k := ReportedInLevels(plan, st1, start, key, t1);
      KeptIffAlone(plan, st1, a, key, k, start);
    } else {
      var k := ReportedInWalk(plan, st1, start, key, t1);
      WrittenBefore(plan, st1, a, key, ta, k);
    }
    if InParallel(req) {
      var k := ReportedInLevels(plan, st2, start, key, t2);
      SkippedWritesNothing(plan, st2, a, key, k);
    } else {
      var k := ReportedInWalk(plan, st2, start, key, t2);
      NobodyWrites(plan, st2, Order(plan.net)[..k], key);
    }
  }

  // An executed ancestor was executed before, and what it wrote is there.
  lemma WrittenBefore(plan: Plan, st: State, a: Id, key: Id, ta: Trace, k: nat)
    requires WellFormed(plan) && st.traces == [] && Marks(plan, a, key) && k < |Order(plan.net)|
    requires Reaches(plan.net, a, Order(plan.net)[k])
    requires ta in RunInOrder(plan, st).st.traces && ta.node == a && !ta.status.Skipped?
    ensures key in SeqRun(plan, Running(st), Order(plan.net)[..k]).st.context
  {
    var order := Order(plan.net);
    var i := TraceOrigin(plan, st, order, ta);
    OrderScheduled(plan.net);
    UpstreamIsEarlier(plan.net, order, a, order[k]);
    IndexUnique(order, k);
    IndexUnique(order, i);
    WriteStays(plan, st, order, i, ta, k, key);
  }

  // ----- a first source that is disabled -----

  const PAIR := Net(["d", "b"], [Edge("d", "b", None)])
  const OFF := Node("d", "action.log", "", Null, true, Num(0), Num(5), "abort")
  const START := Node("b", "action.log", "", Null, false, Num(0), Num(5), "abort")

  // Every handler answers null.
  function PairPlan(runtime: Runtime): Plan {
    Plan(PAIR, map["d" := OFF, "b" := START],
         Env((n: Node, k: nat, inp: Json, c: Context) => Ok(Null, map[]),
             (n: Node, inp: Json, c: Context) => Ok(Null, map[]), runtime))
  }

  // The first source runs first.
  lemma PairOrder()
    ensures Order(PAIR) == ["d", "b"] && Reaches(PAIR, "d", "b")
  {
    var order := Order(PAIR);
    OrderScheduled(PAIR);
    assert PAIR.edges[0] == Edge("d", "b", None) && Arc(PAIR, "d", "b");
    ArcReaches(PAIR, "d", "b");
    assert ScheduledIff(PAIR, order, "d") && ScheduledIff(PAIR, order, "b");
    UpstreamIsEarlier(PAIR, order, "d", "b");
    OrderInNet(PAIR);
    TwoInOrder(order, "d", "b");
  }

  lemma TwoInOrder(s: seq<Id>, a: Id, b: Id)
    requires Distinct(s) && (forall x :: x in s ==> x == a || x == b) && a in s && b in s && a != b
    requires exists i, j :: 0 <= i < j < |s| && s[i] == a && s[j] == b
    ensures s == [a, b]
  {
    DistinctSize(s);
    assert (set x | x in s) == {a, b};
    assert |s| == 2;
  }

  // The start node's trace shows what the context holds for the source.
  lemma PairRun(plan: Plan, st: State) returns (t: Trace)
    requires plan == PairPlan(plan.env.runtime) && "b" !in st.skip
    ensures t in RunInOrder(plan, st).st.traces && t.node == "b" && !t.status.Skipped?
    ensures t.input == OutputOf(st.context, "d")
  {
    PairOrder();
    assert ["d", "b"] == ["d"] + ["b"];
    SeqRunConcat(plan, Running(st), ["d"], ["b"]);
    SeqRunOne(plan, Running(st), "d");
    var r := SeqStep(plan, st, "d");
    assert r.Running? && r.st.context == st.context && r.st.skip == st.skip;
    SeqRunOne(plan, r, "b");
    t := StartRun(plan, Begin(r.st, "b", SeqInput(plan, "b", r.st.context)));
  }

  lemma StartRun(plan: Plan, begun: State) returns (t: Trace)
    requires plan == PairPlan(plan.env.runtime)
    ensures t in RunLive(plan, begun, "b").st.traces && t.node == "b" && !t.status.Skipped?
    ensures t.input == OutputOf(begun.context, "d")
  {
    t := Exec(plan, START, begun.context).trace;
    assert FirstInto(PAIR.edges, 0, "b") == Some(PAIR.edges[0]);
    ExecFacts(plan, START, begun.context);
  }

  // A run from scratch, and a run resumed with the null its trace has for the disabled source:
  // the input of the start node was an empty object and is now null.
  lemma DisabledSourceChangesInput(plan: Plan, payload: Json) returns (t1: Trace, t2: Trace)
    requires plan == PairPlan(plan.env.runtime)
    ensures var first := Request(payload, None, map[], false, 8);
            var again := Request(payload, Some("b"), map["d" := Null], false, 8);
            && t1 in RunGraph(plan, first).st.traces && t1.node == "b" && t1.input == EMPTY_OBJECT
            && t2 in RunGraph(plan, again).st.traces && t2.node == "b" && t2.input == Null
  {
    var first := Request(payload, None, map[], false, 8);
    var again := Request(payload, Some("b"), map["d" := Null], false, 8);
    PairOrder();
    ScheduledIsNoAncestorOfItself(PAIR, "b");
    assert "d" in Ancestors(PAIR, "b");
    t1 := PairRun(plan, InitialState(PAIR, first));
    t2 := PairRun(plan, InitialState(PAIR, again));
  }

  // ----- a branch not taken -----

  const FORK := Net(["c", "a", "b"], [Edge("c", "a", Some("true")), Edge("c", "b", Some("false"))])

  function ForkNode(id: Id, kind: string): Node {
    Node(id, kind, "", Null, false, Num(0), Num(5), "abort")
  }

  // A condition with a node on either branch; every handler answers `true`.
  function ForkPlan(runtime: Runtime): Plan {
    Plan(FORK, map["c" := ForkNode("c", "action.condition"), "a" := ForkNode("a", "action.log"),
                   "b" := ForkNode("b", "action.log")],
         Env((n: Node, k: nat, inp: Json, c: Context) => Ok(Bool(true), map[]),
             (n: Node, inp: Json, c: Context) => Ok(Bool(true), map[]), runtime))
  }

  lemma ForkArcs()
    ensures forall x, y :: Arc(FORK, x, y) <==> x == "c" && (y == "a" || y == "b")
    ensures forall x, y :: Reaches(FORK, x, y) <==> Arc(FORK, x, y)
  {
    assert FORK.edges[0] == Edge("c", "a", Some("true")) && FORK.edges[1] == Edge("c", "b", Some("false"));
    forall x, y
      ensures Reaches(FORK, x, y) <==> Arc(FORK, x, y)
    {
      if Arc(FORK, x, y) {
        ArcReaches(FORK, x, y);
      }
      if Reaches(FORK, x, y) {
        var m := LastArc(FORK, x, y);
        if m != x {
          var l := LastArc(FORK, x, m);
        }
      }
    }
  }

  lemma ForkScheduled()
    ensures forall x :: x in FORK.ids ==> x in Order(FORK)
  {
    forall x | x in FORK.ids
      ensures x in Order(FORK)
    {
      ForkRoot();
      if x != "c" {
        ForkLeaf(x);
      }
    }
  }

  lemma ForkRoot()
    ensures "c" in Order(FORK)
  {
    ForkArcs();
    OrderScheduled(FORK);
    assert "c" == FORK.ids[0];
    assert ScheduledIff(FORK, Order(FORK), "c");
  }

  lemma ForkLeaf(x: Id)
    requires x in FORK.ids && "c" in Order(FORK)
    ensures x in Order(FORK)
  {
    ForkArcs();
    OrderScheduled(FORK);
    assert ScheduledIff(FORK, Order(FORK), x);
  }

  lemma ForkSwitches(n: Node)
    requires n == ForkNode("c", "action.condition")
    ensures SkipDelta(FORK, n, Bool(true)) == {"b"}
  {
    ForkArcs();
    var links := Links(FORK, "c");
    assert LinksUpTo(FORK, 1, "c") == [Link("a", Some("true"))];
    assert links == [Link("a", Some("true")), Link("b", Some("false"))];
    assert links[0] in links && links[1] in links;
  }

  // What matters about it: only its condition leads anywhere, and it switches off one branch.
  ghost predicate Forks(plan: Plan) {
    && WellFormed(plan) && plan.nodes.Keys == {"c", "a", "b"} && plan.nodes["c"].kind == "action.condition"
    && (forall x, y :: Reaches(plan.net, x, y) ==> x == "c") && Reaches(plan.net, "c", "a")
    && SkipDelta(plan.net, plan.nodes["c"], Bool(true)) == {"b"}
    && (forall x :: x in plan.nodes ==>
          x in Order(plan.net) && FateOf(plan.nodes[x], {}).Active? && Runs(plan.env, plan.nodes[x]))
    && forall n, k, inp, c :: plan.env.run(n, k, inp, c) == Ok(Bool(true), map[])
  }

  lemma ForkForks(plan: Plan)
    requires plan == ForkPlan(plan.env.runtime) && FaithfulListing(plan.env)
    ensures Forks(plan)
  {
    ForkArcs();
    ForkNodes(plan);
    ForkRuns(plan);
    ForkSwitches(plan.nodes["c"]);
    assert Arc(FORK, "c", "a");
  }

  lemma ForkNodes(plan: Plan)
    requires plan == ForkPlan(plan.env.runtime) && FaithfulListing(plan.env)
    ensures plan.nodes.Keys == {"c", "a", "b"} && WellFormed(plan)
    ensures plan.nodes["c"] == ForkNode("c", "action.condition")
  {
    assert plan.nodes.Keys == {"c", "a", "b"};
    assert Elements(FORK.ids) == {"c", "a", "b"};
  }

  lemma ForkRuns(plan: Plan)
    requires plan == ForkPlan(plan.env.runtime)
    ensures forall x :: x in plan.nodes ==>
              x in Order(plan.net) && FateOf(plan.nodes[x], {}).Active? && Runs(plan.env, plan.nodes[x])
  {
    ForkScheduled();
    forall x | x in plan.nodes
      ensures x in Order(plan.net) && FateOf(plan.nodes[x], {}).Active? && Runs(plan.env, plan.nodes[x])
    {
      assert x in FORK.ids;
      ForkNodeRuns(plan.env, plan.nodes[x]);
    }
  }

  lemma ForkNodeRuns(env: Env, n: Node)
    requires n == ForkNode(n.id, n.kind) && n.kind != "note"
    ensures FateOf(n, {}).Active? && Runs(env, n)
  {
  }

  lemma AnswersTrue(plan: Plan, n: Node, ctx: Context)
    requires Runs(plan.env, n) && forall m, k, inp, c :: plan.env.run(m, k, inp, c) == Ok(Bool(true), map[])
    ensures var t := Exec(plan, n, ctx).trace; t.status.Succeeded? && t.output == Bool(true)
  {
    AttemptsStep(plan.env, n, ExecInput(plan.net.edges, n.id, ctx), ctx, 0);
  }

  lemma ForkTrace(plan: Plan, st: State, parallel: bool, t: Trace)
    requires Forks(plan) && Blank(st) && t in RunIn(plan, st, parallel).st.traces && !t.status.Skipped?
    ensures t.status.Succeeded? && t.output == Bool(true)
  {
    var c := TraceIsRun(plan, st, parallel, t);
    AnswersTrue(plan, plan.nodes[t.node], c);
  }

  // Nothing can stop a run of it.
  lemma ForkCompletes(plan: Plan, st: State, parallel: bool)
    requires Forks(plan) && Blank(st)
    ensures RunIn(plan, st, parallel).Running?
  {
    var run := RunIn(plan, st, parallel);
    if run.Stopped? {
      BlamedNode(plan, st, parallel);
      var t :| t in run.st.traces && t.node == run.failure.node && !WentOn(plan, t);
      ForkTrace(plan, st, parallel, t);
    }
  }

  lemma ForkSkips(plan: Plan, first: Request)
    requires Forks(plan) && first.start.None? && RunGraph(plan, first).Running?
    ensures exists t :: t in RunGraph(plan, first).st.traces && t.node == "b" && t.status.Skipped?
  {
    var st, end := InitialState(plan.net, first), RunGraph(plan, first).st;
    EveryRunSkips(plan, st, InParallel(first));
    if "c" in SwitchedOff(plan, end.traces) {
      var u := SwitchedBy(plan, end.traces, "c");
      SkipDeltaDownstream(plan.net, plan.nodes[u.node], u.output, "c");
    }
    var t := FirstTrace(plan, first, "c");
    ForkTrace(plan, st, InParallel(first), t);
    SwitchesOff(plan, end.traces, t, "b");
    var u := FirstTrace(plan, first, "b");
  }

  // Run from scratch, the graph skips the branch its condition does not take; run again from the
  // other branch it executes it, even with all outputs of that run. In any modes.
  lemma ResumeWakesBranch(plan: Plan, first: Request, again: Request)
    requires plan == ForkPlan(plan.env.runtime) && FaithfulListing(plan.env)
    requires first.start.None? && again.start == Some("a")
    ensures RunGraph(plan, first).Running? && RunGraph(plan, again).Running?
    ensures exists t :: t in RunGraph(plan, first).st.traces && t.node == "b" && t.status.Skipped?
    ensures exists t :: t in RunGraph(plan, again).st.traces && t.node == "b" && t.status.Succeeded?
  {
    ForkForks(plan);
    ForkCompletes(plan, InitialState(plan.net, first), InParallel(first));
    ForkCompletes(plan, InitialState(plan.net, again), InParallel(again));
    ForkSkips(plan, first);
    ForkWakes(plan, again);
  }

  lemma ForkWakes(plan: Plan, again: Request)
    requires Forks(plan) && ResumesAt(plan.net, again, "a") && RunGraph(plan, again).Running?
    ensures exists t :: t in RunGraph(plan, again).st.traces && t.node == "b" && t.status.Succeeded?
  {
    OnlySkippedConditions(plan, again, "a", "b");
    var t := TracedNodeHasTrace(RunGraph(plan, again).st.traces, "b");
    ForkTrace(plan, InitialState(plan.net, again), InParallel(again), t);
  }
}
