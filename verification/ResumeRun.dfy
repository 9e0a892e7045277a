/** The whole run from a node on: when everything it runs again comes out as it did in the run
    whose outputs it was given. */
module ResumeRun {
  import opened Nets
  import opened Kahn
  import opened Levels
  import opened LevelTheorems
  import opened Values
  import opened Reachability
  import opened NodeExec
  import opened LoopBody
  import opened Runner
  import opened Locality
  import opened RunLaws
  import opened ParallelLaws
  import opened GraphRun
  import opened DataFlow
  import opened LoopEntries
  import opened Resume

  // ----- what every run, completed or not, has traced -----

  // The run traced `x`, or came to it and stopped there.
  ghost predicate CameTo(run: Run, x: Id) {
    x in TracedNodes(run.st.traces) || (run.Stopped? && run.failure.node == x)
  }

  lemma WalkCameTo(plan: Plan, st: State, x: Id)
    requires WellFormed(plan) && Blank(st) && CameTo(RunInOrder(plan, st), x)
    ensures x in Order(plan.net)
    ensures forall y :: Reaches(plan.net, y, x) ==> y in TracedNodes(RunInOrder(plan, st).st.traces)
  {
    var run, order := RunInOrder(plan, st), Order(plan.net);
    var xs := TracedNodes(run.st.traces);
    OrderScheduled(plan.net);
    SequentialRunBalances(plan, st);
    assert order[..|order|] == order;
    if run.Stopped? {
      var j :| 0 <= j < |order| && StoppedAt(plan, st.skip, order, j, run.st, run.failure);
    }
    assert xs == order[..|xs|];
    forall y | Reaches(plan.net, y, x)
      ensures y in xs
    {
      UpstreamIsEarlier(plan.net, order, y, x);
      if x in xs {
        var i :| 0 <= i < |xs| && xs[i] == x;
        IndexUnique(order, i);
      } else {
        IndexUnique(order, |xs|);
      }
      assert order[IndexOf(order, y)] == y && IndexOf(order, y) < |xs|;
    }
  }

  lemma LevelsCameTo(plan: Plan, st: State, x: Id)
    requires WellFormed(plan) && Blank(st) && CameTo(RunByLevels(plan, st), x)
    ensures x in Order(plan.net)
    ensures forall y :: Reaches(plan.net, y, x) ==> y in TracedNodes(RunByLevels(plan, st).st.traces)
  {
    var run, levels := RunByLevels(plan, st), LevelsOf(plan.net);
    var xs := TracedNodes(run.st.traces);
    ParallelRunBalances(plan, st);
    LevelsFlattenToOrder(plan.net);
    OrderScheduled(plan.net);
    if run.Running? {
      assert x in Elements(xs);
      forall y | Reaches(plan.net, y, x)
        ensures y in xs
      {
        UpstreamIsEarlier(plan.net, Order(plan.net), y, x);
        assert y in Elements(Order(plan.net));
      }
    } else {
      var m: nat, j: nat :| StoppedAtLevel(plan, st, m, j, run);
      StoppedLevelCameTo(plan, st, m, j, run, x);
    }
  }

  lemma StoppedLevelCameTo(plan: Plan, st: State, m: nat, j: nat, run: Run, x: Id)
    requires WellFormed(plan) && StoppedAtLevel(plan, st, m, j, run) && CameTo(run, x)
    ensures x in Order(plan.net)
    ensures forall y :: Reaches(plan.net, y, x) ==> y in TracedNodes(run.st.traces)
  {
    var levels, before := LevelsOf(plan.net), ParAt(plan, st, m).st;
    var above := TracedNodes(before.traces);
    var k := LevelCameTo(plan, st, m, j, run, x);
    LevelsFlattenToOrder(plan.net);
    FlattenMember(levels, x);
    assert x in Order(plan.net);
    forall y | Reaches(plan.net, y, x)
      ensures y in TracedNodes(run.st.traces)
    {
      var i := UpstreamIsLower(plan.net, k, y, x);
      assert levels[..m][i] == levels[i];
      FlattenMember(levels[..m], y);
      assert y in Elements(above);
    }
  }

  lemma LevelCameTo(plan: Plan, st: State, m: nat, j: nat, run: Run, x: Id) returns (k: nat)
    requires WellFormed(plan) && StoppedAtLevel(plan, st, m, j, run) && CameTo(run, x)
    ensures k <= m && x in LevelsOf(plan.net)[k]
  {
    var levels, before := LevelsOf(plan.net), ParAt(plan, st, m).st;
    var above := TracedNodes(before.traces);
    if x in above {
      assert x in Elements(above);
      FlattenMember(levels[..m], x);
      k :| 0 <= k < m && x in levels[..m][k];
    } else {
      k := m;
      InertMembers(plan, before.skip, levels[m]);
      ActiveIff(plan, before.skip, levels[m]);
    }
  }

  // In either mode, whatever leads to a node that a run came to has been traced.
  lemma UpstreamTraced(plan: Plan, st: State, parallel: bool, x: Id)
    requires WellFormed(plan) && Blank(st) && CameTo(RunIn(plan, st, parallel), x)
    ensures x in Order(plan.net)
    ensures forall y :: Reaches(plan.net, y, x) ==> y in TracedNodes(RunIn(plan, st, parallel).st.traces)
  {
    if parallel {
      LevelsCameTo(plan, st, x);
    } else {
      WalkCameTo(plan, st, x);
    }
  }

  // The node a stopped run blames was to be executed, and does not run or leaves a trace after
  // which no run goes on.
  lemma BlamedNode(plan: Plan, st: State, parallel: bool)
    requires WellFormed(plan) && Blank(st) && RunIn(plan, st, parallel).Stopped?
    ensures var end, x := RunIn(plan, st, parallel).st, RunIn(plan, st, parallel).failure.node;
            && x in plan.nodes && FateOf(plan.nodes[x], end.skip).Active?
            && (Runs(plan.env, plan.nodes[x]) ==> exists t :: t in end.traces && t.node == x && !WentOn(plan, t))
  {
    var run, order := RunIn(plan, st, parallel), Order(plan.net);
    var end, x := run.st, run.failure.node;
    if parallel {
      ParallelRunBalances(plan, st);
      assert ParStopped(plan, st.skip, end, run.failure);
    } else {
      SequentialRunBalances(plan, st);
      var j :| 0 <= j < |order| && StoppedAt(plan, st.skip, order, j, end, run.failure);
    }
    if Runs(plan.env, plan.nodes[x]) {
      var t := end.traces[|end.traces| - 1];
      assert t in end.traces && BlamesLast(plan, run.failure, t);
    }
  }

  // ----- a run and the run of everything from a node on -----

  // A completed run from scratch, and a request to run again from `start` on the context it
  // left, in the same or the other mode.
  ghost predicate RunsAgain(plan: Plan, first: Request, again: Request, start: Id, vars: set<Id>) {
    && WellFormed(plan) && WritesVariables(plan, vars)
    && first.start.None? && RunGraph(plan, first).Running?
    && ResumesAt(plan.net, again, start) && again.payload == first.payload
    && again.prior == RunGraph(plan, first).st.context
  }

  // Of the nodes to run again, none looks at anything but upstream outputs, nor does the body
  // of one that was a loop, apart from the outputs of the loop and the body.
  ghost predicate Rereads(plan: Plan, first: Request, start: Id, vars: set<Id>) {
    && (forall x :: x in Order(plan.net) && x in plan.nodes && FateOf(plan.nodes[x], {}).Active?
                    && !Reaches(plan.net, x, start) ==>
          Ignores(plan.env, plan.nodes[x], Hidden(plan.net, x) + vars))
    && forall t :: t in RunGraph(plan, first).st.traces && !Reaches(plan.net, t.node, start) && IsLoop(t.output) ==>
         OutOfSight(plan, t.node, Outside(plan.net, t.node, vars))
  }

  // Two traces of one node, apart from the input noted for a node that was passed over.
  ghost predicate SameTrace(t1: Trace, t2: Trace) {
    if t1.status.Skipped? then t2 == t1.(input := t2.input) else t2 == t1
  }

  // The nodes to run again have the same traces in both runs.
  ghost predicate TracesRepeat(plan: Plan, traces1: seq<Trace>, traces2: seq<Trace>, start: Id) {
    forall t1, t2 :: t1 in traces1 && t2 in traces2 && t1.node == t2.node && !Reaches(plan.net, t1.node, start) ==>
      SameTrace(t1, t2)
  }

  ghost predicate Switches(plan: Plan, t: Trace, x: Id) {
    t.status.Succeeded? && t.node in plan.nodes && x in SkipDelta(plan.net, plan.nodes[t.node], t.output)
  }

  // The nodes that were switched off, and only by conditions that are not to run again.
  ghost function Revived(plan: Plan, traces: seq<Trace>, start: Id): set<Id> {
    set x | x in Order(plan.net) && x in plan.nodes && !Reaches(plan.net, x, start)
            && FateOf(plan.nodes[x], {}).Active? && x in SwitchedOff(plan, traces)
            && forall t :: t in traces && Switches(plan, t, x) ==> Reaches(plan.net, t.node, start)
  }

  lemma {:induction false} SwitchesOff(plan: Plan, traces: seq<Trace>, t: Trace, x: Id)
    requires t in traces && Switches(plan, t, x)
    ensures x in SwitchedOff(plan, traces)
  {
    if t != traces[|traces| - 1] {
      SwitchesOff(plan, traces[..|traces| - 1], t, x);
    }
  }

  ghost predicate UpstreamPair(plan: Plan, t1: Trace, t2: Trace, start: Id, x: Id) {
    t1.node == t2.node && !Reaches(plan.net, t1.node, start) && Reaches(plan.net, t1.node, x)
  }

  // The traces of all nodes upstream of `x` that are to run again are the same in both runs.
  ghost predicate UpstreamRepeats(plan: Plan, traces1: seq<Trace>, traces2: seq<Trace>, start: Id, x: Id) {
    forall t1, t2 :: t1 in traces1 && t2 in traces2 && UpstreamPair(plan, t1, t2, start, x) ==> SameTrace(t1, t2)
  }

  // Every scheduled node has a trace in the first run.
  lemma FirstTrace(plan: Plan, first: Request, x: Id) returns (t: Trace)
    requires WellFormed(plan) && first.start.None? && RunGraph(plan, first).Running? && x in Order(plan.net)
    ensures var end := RunGraph(plan, first).st;
            t in end.traces && t.node == x && WentOn(plan, t) && TraceOk(plan, end.skip, end.results, t)
  {
    var st, end := InitialState(plan.net, first), RunGraph(plan, first).st;
    CompletedBooks(plan, st, InParallel(first));
    assert x in Elements(TracedNodes(end.traces));
    t := TracedNodeHasTrace(end.traces, x);
    CompletedTrace(plan, st, InParallel(first), t);
  }

  // What is switched off and not revived was switched off by a condition that is to run again.
  lemma NotRevived(plan: Plan, traces: seq<Trace>, start: Id, x: Id) returns (t: Trace)
    requires x in Order(plan.net) && x in plan.nodes && !Reaches(plan.net, x, start)
    requires FateOf(plan.nodes[x], {}).Active? && x in SwitchedOff(plan, traces) && x !in Revived(plan, traces, start)
    ensures t in traces && Switches(plan, t, x) && !Reaches(plan.net, t.node, start)
  {
    t :| t in traces && Switches(plan, t, x) && !Reaches(plan.net, t.node, start);
  }

  // What the first run switched off, the run from a node on does too, unless it is revived.
  lemma StaysOff(plan: Plan, traces1: seq<Trace>, traces2: seq<Trace>, start: Id, x: Id)
    requires WellFormed(plan) && x in Order(plan.net) && x in plan.nodes && FateOf(plan.nodes[x], {}).Active?
    requires x in SwitchedOff(plan, traces1) && !Reaches(plan.net, x, start) && Revived(plan, traces1, start) == {}
    requires forall y :: Reaches(plan.net, y, x) ==> y in TracedNodes(traces2)
    requires UpstreamRepeats(plan, traces1, traces2, start, x)
    ensures x in SwitchedOff(plan, traces2)
  {
    var t := NotRevived(plan, traces1, start, x);
    SkipDeltaDownstream(plan.net, plan.nodes[t.node], t.output, x);
    var u := TracedNodeHasTrace(traces2, t.node);
    assert UpstreamPair(plan, t, u, start, x);
    SwitchesOff(plan, traces2, u, x);
  }

  // Only nodes that run again switch anything off in a run from a node on.
  lemma SwitcherRunsAgain(plan: Plan, end: State, start: Id, x: Id) returns (u: Trace)
    requires WellFormed(plan) && SkipsBalance(plan, Ancestors(plan.net, start), end)
    requires x in SwitchedOff(plan, end.traces)
    ensures u in end.traces && Switches(plan, u, x)
    ensures Reaches(plan.net, u.node, x) && !Reaches(plan.net, u.node, start)
  {
    u := SwitchedBy(plan, end.traces, x);
    SkipDeltaDownstream(plan.net, plan.nodes[u.node], u.output, x);
    if Reaches(plan.net, u.node, start) {
      ReachesInNet(plan.net, u.node, start);
    }
  }

  // It switches off nothing else: the conditions that do have the trace they had.
  lemma StaysOn(plan: Plan, traces1: seq<Trace>, end: State, start: Id, x: Id)
    requires WellFormed(plan) && SkipsBalance(plan, Ancestors(plan.net, start), end)
    requires x in SwitchedOff(plan, end.traces)
    requires forall y :: y in TracedNodes(end.traces) ==> y in TracedNodes(traces1)
    requires UpstreamRepeats(plan, traces1, end.traces, start, x)
    ensures x in SwitchedOff(plan, traces1)
  {
    var u := SwitcherRunsAgain(plan, end, start, x);
    TracedMember(end.traces, u);
    var t := TracedNodeHasTrace(traces1, u.node);
    assert UpstreamPair(plan, t, u, start, x);
    SwitchesOff(plan, traces1, t, x);
  }

  // The skip sets of the two runs, and that the second traces only what the first one did.
  lemma BothBalance(plan: Plan, first: Request, again: Request, start: Id)
    requires WellFormed(plan) && first.start.None? && RunGraph(plan, first).Running?
    requires ResumesAt(plan.net, again, start)
    ensures SkipsBalance(plan, {}, RunGraph(plan, first).st)
    ensures SkipsBalance(plan, Ancestors(plan.net, start), RunGraph(plan, again).st)
    ensures forall y :: y in TracedNodes(RunGraph(plan, again).st.traces) ==>
              y in Order(plan.net) && y in TracedNodes(RunGraph(plan, first).st.traces)
  {
    var st1, st2 := InitialState(plan.net, first), InitialState(plan.net, again);
    EveryRunSkips(plan, st1, InParallel(first));
    EveryRunSkips(plan, st2, InParallel(again));
    forall y | y in TracedNodes(RunGraph(plan, again).st.traces)
      ensures y in Order(plan.net) && y in TracedNodes(RunGraph(plan, first).st.traces)
    {
      var u := TracedNodeHasTrace(RunGraph(plan, again).st.traces, y);
      TracedInOrder(plan, st2, InParallel(again), u);
      var t := FirstTrace(plan, first, y);
      TracedMember(RunGraph(plan, first).st.traces, t);
    }
  }

  // A node both runs come to is switched off in both or in neither.
  lemma SkipRepeats(plan: Plan, first: Request, again: Request, start: Id, x: Id, vars: set<Id>)
    requires RunsAgain(plan, first, again, start, vars)
    requires Revived(plan, RunGraph(plan, first).st.traces, start) == {}
    requires x in plan.nodes && !Reaches(plan.net, x, start) && CameTo(RunGraph(plan, again), x)
    requires UpstreamRepeats(plan, RunGraph(plan, first).st.traces, RunGraph(plan, again).st.traces, start, x)
    ensures FateOf(plan.nodes[x], RunGraph(plan, first).st.skip) == FateOf(plan.nodes[x], RunGraph(plan, again).st.skip)
  {
    var end1, end2 := RunGraph(plan, first).st, RunGraph(plan, again).st;
    BothBalance(plan, first, again, start);
    UpstreamTraced(plan, InitialState(plan.net, again), InParallel(again), x);
    if FateOf(plan.nodes[x], {}).Active? {
      if x in end1.skip {
        StaysOff(plan, end1.traces, end2.traces, start, x);
      }
      if x in end2.skip {
        StaysOn(plan, end1.traces, end2, start, x);
      }
    }
  }

  // What the run from a node on leaves for an ancestor is what it was given.
  lemma SeedRepeats(plan: Plan, again: Request, start: Id, y: Id, vars: set<Id>)
    requires WellFormed(plan) && WritesVariables(plan, vars) && ResumesAt(plan.net, again, start)
    requires y in plan.net.ids && Reaches(plan.net, y, start)
    ensures SameAt(again.prior, RunGraph(plan, again).st.context, y)
  {
    var st := InitialState(plan.net, again);
    var end := RunGraph(plan, again).st;
    SkipsAncestors(plan, again, start);
    ContextFrame(plan, st, InParallel(again), vars);
    AgreeAt(end.context, st.context, Elements(Order(plan.net)) - st.skip + vars, y);
  }

  // The context holds nothing for a node a run has passed over, unless it was given that.
  lemma PassedOverLeavesNone(plan: Plan, req: Request, t: Trace, vars: set<Id>)
    requires WellFormed(plan) && WritesVariables(plan, vars) && t in RunGraph(plan, req).st.traces && t.status.Skipped?
    requires req.start.Some? && ResumesAt(plan.net, req, req.start.value) ==>
               !Reaches(plan.net, t.node, req.start.value)
    ensures t.node !in RunGraph(plan, req).st.context
  {
    var st := InitialState(plan.net, req);
    PassedOverKept(plan, st, InParallel(req), t, vars);
    TracedInOrder(plan, st, InParallel(req), t);
  }

  // No run from scratch, or from a node on, is given anything for the body of a loop it runs.
  lemma BodyNotSeeded(plan: Plan, req: Request, x: Id)
    requires WellFormed(plan) && !Reaches(plan.net, x, x)
    requires req.start.Some? && ResumesAt(plan.net, req, req.start.value) ==> !Reaches(plan.net, x, req.start.value)
    ensures BodyAbsent(plan.net, x, InitialState(plan.net, req).context)
  {
    forall b | b in BodySet(plan.net, x)
      ensures b !in InitialState(plan.net, req).context
    {
      BodyIsHidden(plan.net, x, b);
      if req.start.Some? && Reaches(plan.net, b, req.start.value) {
        ReachesTransitive(plan.net, x, b, req.start.value);
      }
    }
  }

  // What the two runs have on all that leads to `x`.
  ghost predicate SameView(plan: Plan, c1: Context, c2: Context, x: Id, vars: set<Id>) {
    c1 - (Hidden(plan.net, x) + vars) == c2 - (Hidden(plan.net, x) + vars)
  }

  // What a run leaves for a loop that is run again.
  lemma LoopLeaves(plan: Plan, req: Request, t: Trace, vars: set<Id>)
    requires WellFormed(plan) && WritesVariables(plan, vars) && SelfContained(plan, t, vars)
    requires t in RunGraph(plan, req).st.traces
    requires req.start.Some? && ResumesAt(plan.net, req, req.start.value) ==>
               !Reaches(plan.net, t.node, req.start.value)
    ensures var c := RunGraph(plan, req).st.context;
            t.node in c && Some(c[t.node]) == EntryOf(plan, c, t, vars)
  {
    var st := InitialState(plan.net, req);
    TracedInOrder(plan, st, InParallel(req), t);
    ScheduledIsNoAncestorOfItself(plan.net, t.node);
    BodyNotSeeded(plan, req, t.node);
    LoopEntry(plan, st, InParallel(req), t, vars);
  }

  // What the two runs leave for a node they traced alike.
  lemma OutputRepeats(plan: Plan, first: Request, again: Request, start: Id, t1: Trace, t2: Trace, vars: set<Id>)
    requires RunsAgain(plan, first, again, start, vars) && Rereads(plan, first, start, vars)
    requires t1 in RunGraph(plan, first).st.traces && t2 in RunGraph(plan, again).st.traces
    requires SameTrace(t1, t2) && !Reaches(plan.net, t1.node, start)
    requires SameView(plan, RunGraph(plan, first).st.context, RunGraph(plan, again).st.context, t1.node, vars)
    ensures SameAt(RunGraph(plan, first).st.context, RunGraph(plan, again).st.context, t1.node)
  {
    if t1.status.Skipped? {
      PassedOverLeavesNone(plan, first, t1, vars);
      PassedOverLeavesNone(plan, again, t2, vars);
    } else {
      CompletedTrace(plan, InitialState(plan.net, first), InParallel(first), t1);
      if IsLoop(t1.output) {
        LoopLeaves(plan, first, t1, vars);
        LoopLeaves(plan, again, t2, vars);
      } else {
        FinalOutputOf(plan, InitialState(plan.net, first), InParallel(first), t1, vars);
        FinalOutputOf(plan, InitialState(plan.net, again), InParallel(again), t2, vars);
      }
    }
  }

  lemma ResultPayloadOnly(plan: Plan, req: Request, vars: set<Id>)
    requires WellFormed(plan) && WritesVariables(plan, vars)
    ensures PayloadOnly(plan, req.payload, RunGraph(plan, req).st.context, vars)
  {
    var st, keys := InitialState(plan.net, req), Elements(plan.net.ids) + vars;
    assert st.context - keys == BaseContext(req.payload);
    FinalContextPayloadOnly(plan, req.payload, st, InParallel(req), vars);
  }

  lemma OthersRepeat(plan: Plan, first: Request, again: Request, start: Id, y: Id, vars: set<Id>)
    requires RunsAgain(plan, first, again, start, vars) && y !in Elements(plan.net.ids) + vars
    ensures SameAt(RunGraph(plan, first).st.context, RunGraph(plan, again).st.context, y)
  {
    ResultPayloadOnly(plan, first, vars);
    ResultPayloadOnly(plan, again, vars);
    AgreeAt(RunGraph(plan, first).st.context, RunGraph(plan, again).st.context, Elements(plan.net.ids) + vars, y);
  }

  // What the two runs leave for whatever leads to a node both come to.
  lemma EntryRepeats(plan: Plan, first: Request, again: Request, start: Id, x: Id, y: Id, vars: set<Id>)
    requires RunsAgain(plan, first, again, start, vars) && Rereads(plan, first, start, vars)
    requires y in plan.net.ids && y in Order(plan.net) && Reaches(plan.net, y, x)
    requires y in TracedNodes(RunGraph(plan, again).st.traces)
    requires UpstreamRepeats(plan, RunGraph(plan, first).st.traces, RunGraph(plan, again).st.traces, start, x)
    requires SameView(plan, RunGraph(plan, first).st.context, RunGraph(plan, again).st.context, y, vars)
    ensures SameAt(RunGraph(plan, first).st.context, RunGraph(plan, again).st.context, y)
  {
    if Reaches(plan.net, y, start) {
      SeedRepeats(plan, again, start, y, vars);
    } else {
      var t1 := FirstTrace(plan, first, y);
      var t2 := TracedNodeHasTrace(RunGraph(plan, again).st.traces, y);
      assert UpstreamPair(plan, t1, t2, start, x);
      OutputRepeats(plan, first, again, start, t1, t2, vars);
    }
  }

  lemma UpstreamOfUpstream(plan: Plan, traces1: seq<Trace>, traces2: seq<Trace>, start: Id, y: Id, x: Id)
    requires UpstreamRepeats(plan, traces1, traces2, start, x) && Reaches(plan.net, y, x)
    ensures UpstreamRepeats(plan, traces1, traces2, start, y)
  {
    forall t1, t2 | t1 in traces1 && t2 in traces2 && UpstreamPair(plan, t1, t2, start, y)
      ensures SameTrace(t1, t2)
    {
      ReachesTransitive(plan.net, t1.node, y, x);
      assert UpstreamPair(plan, t1, t2, start, x);
    }
  }

  lemma {:induction false} ViewRepeats(
    plan: Plan, first: Request, again: Request, start: Id, k: nat, vars: set<Id>)
    requires RunsAgain(plan, first, again, start, vars) && Rereads(plan, first, start, vars)
    requires k < |Order(plan.net)| && CameTo(RunGraph(plan, again), Order(plan.net)[k])
    requires UpstreamRepeats(
               plan, RunGraph(plan, first).st.traces, RunGraph(plan, again).st.traces, start, Order(plan.net)[k])
    ensures SameView(
              plan, RunGraph(plan, first).st.context, RunGraph(plan, again).st.context, Order(plan.net)[k], vars)
    decreases k, 1
  {
    var c1, c2 := RunGraph(plan, first).st.context, RunGraph(plan, again).st.context;
    forall y | y !in Hidden(plan.net, Order(plan.net)[k]) + vars
      ensures SameAt(c1, c2, y)
    {
      ViewRepeatsAt(plan, first, again, start, k, y, vars);
    }
  }

  lemma {:induction false} ViewRepeatsAt(
    plan: Plan, first: Request, again: Request, start: Id, k: nat, y: Id, vars: set<Id>)
    requires RunsAgain(plan, first, again, start, vars) && Rereads(plan, first, start, vars)
    requires k < |Order(plan.net)| && CameTo(RunGraph(plan, again), Order(plan.net)[k])
    requires y !in Hidden(plan.net, Order(plan.net)[k]) + vars
    requires UpstreamRepeats(
               plan, RunGraph(plan, first).st.traces, RunGraph(plan, again).st.traces, start, Order(plan.net)[k])
    ensures SameAt(RunGraph(plan, first).st.context, RunGraph(plan, again).st.context, y)
    decreases k, 0
  {
    if y in plan.net.ids {
      var order, x := Order(plan.net), Order(plan.net)[k];
      UpstreamTraced(plan, InitialState(plan.net, again), InParallel(again), x);
      OrderScheduled(plan.net);
      UpstreamIsEarlier(plan.net, order, y, x);
      IndexUnique(order, k);
      UpstreamOfUpstream(plan, RunGraph(plan, first).st.traces, RunGraph(plan, again).st.traces, start, y, x);
      ViewRepeats(plan, first, again, start, IndexOf(order, y), vars);
      EntryRepeats(plan, first, again, start, x, y, vars);
    } else {
      OthersRepeat(plan, first, again, start, y, vars);
    }
  }

  // Traces repeat if those upstream do.
  lemma TraceRepeats(plan: Plan, first: Request, again: Request, start: Id, t1: Trace, t2: Trace, vars: set<Id>)
    requires RunsAgain(plan, first, again, start, vars) && Rereads(plan, first, start, vars)
    requires Revived(plan, RunGraph(plan, first).st.traces, start) == {}
    requires t1 in RunGraph(plan, first).st.traces && t2 in RunGraph(plan, again).st.traces && t1.node == t2.node
    requires !Reaches(plan.net, t1.node, start)
    requires UpstreamRepeats(plan, RunGraph(plan, first).st.traces, RunGraph(plan, again).st.traces, start, t1.node)
    ensures SameTrace(t1, t2)
  {
    var st1, st2 := InitialState(plan.net, first), InitialState(plan.net, again);
    var end1, end2, x := RunGraph(plan, first).st, RunGraph(plan, again).st, t1.node;
    TracedMember(end2.traces, t2);
    TracedInOrder(plan, st1, InParallel(first), t1);
    SkipRepeats(plan, first, again, start, x, vars);
    EveryRunSkips(plan, st1, InParallel(first));
    EveryRunSkips(plan, st2, InParallel(again));
    if t1.status.Skipped? {
      TraceBooked(plan, st1, InParallel(first), t1);
      TraceBooked(plan, st2, InParallel(again), t2);
    } else {
      var apart := Hidden(plan.net, x) + vars;
      TracesAreStable(plan, st1, InParallel(first), t1, vars);
      TracesAreStable(plan, st2, InParallel(again), t2, vars);
      ViewRepeats(plan, first, again, start, IndexOf(Order(plan.net), x), vars);
      InputsReserved(plan, x, vars);
      ExecLocal(plan, plan.nodes[x], end1.context, end2.context, apart, apart);
    }
  }

  lemma {:induction false} NodeRepeats(
    plan: Plan, first: Request, again: Request, start: Id, t1: Trace, t2: Trace, k: nat, vars: set<Id>)
    requires RunsAgain(plan, first, again, start, vars) && Rereads(plan, first, start, vars)
    requires Revived(plan, RunGraph(plan, first).st.traces, start) == {}
    requires t1 in RunGraph(plan, first).st.traces && t2 in RunGraph(plan, again).st.traces && t1.node == t2.node
    requires !Reaches(plan.net, t1.node, start)
    requires k < |Order(plan.net)| && Order(plan.net)[k] == t1.node
    ensures SameTrace(t1, t2)
    decreases k
  {
    var order := Order(plan.net);
    OrderScheduled(plan.net);
    IndexUnique(order, k);
    forall u1, u2 | u1 in RunGraph(plan, first).st.traces && u2 in RunGraph(plan, again).st.traces
                    && UpstreamPair(plan, u1, u2, start, t1.node)
      ensures SameTrace(u1, u2)
    {
      UpstreamIsEarlier(plan.net, order, u1.node, t1.node);
      NodeRepeats(plan, first, again, start, u1, u2, IndexOf(order, u1.node), vars);
    }
    TraceRepeats(plan, first, again, start, t1, t2, vars);
  }

  lemma AllRepeat(plan: Plan, first: Request, again: Request, start: Id, vars: set<Id>)
    requires RunsAgain(plan, first, again, start, vars) && Rereads(plan, first, start, vars)
    requires Revived(plan, RunGraph(plan, first).st.traces, start) == {}
    ensures TracesRepeat(plan, RunGraph(plan, first).st.traces, RunGraph(plan, again).st.traces, start)
  {
    forall u1, u2 | u1 in RunGraph(plan, first).st.traces && u2 in RunGraph(plan, again).st.traces
                    && u1.node == u2.node && !Reaches(plan.net, u1.node, start)
      ensures SameTrace(u1, u2)
    {
      TracedInOrder(plan, InitialState(plan.net, first), InParallel(first), u1);
      NodeRepeats(plan, first, again, start, u1, u2, IndexOf(Order(plan.net), u1.node), vars);
    }
  }

  // A node the first run went on after does not stop the run from a node on either.
  lemma NotBlamed(plan: Plan, first: Request, again: Request, start: Id, x: Id, vars: set<Id>)
    requires RunsAgain(plan, first, again, start, vars) && x in plan.nodes && x in Order(plan.net)
    requires !Reaches(plan.net, x, start) && FateOf(plan.nodes[x], RunGraph(plan, first).st.skip).Active?
    requires TracesRepeat(plan, RunGraph(plan, first).st.traces, RunGraph(plan, again).st.traces, start)
    ensures Runs(plan.env, plan.nodes[x])
    ensures forall t :: t in RunGraph(plan, again).st.traces && t.node == x ==> WentOn(plan, t)
  {
    var t1 := FirstTrace(plan, first, x);
    forall t | t in RunGraph(plan, again).st.traces && t.node == x
      ensures WentOn(plan, t)
    {
      assert SameTrace(t1, t);
    }
  }

  // If nothing is revived the run from a node on completes.
  lemma RerunCompletes(plan: Plan, first: Request, again: Request, start: Id, vars: set<Id>)
    requires RunsAgain(plan, first, again, start, vars) && Revived(plan, RunGraph(plan, first).st.traces, start) == {}
    requires TracesRepeat(plan, RunGraph(plan, first).st.traces, RunGraph(plan, again).st.traces, start)
    ensures RunGraph(plan, again).Running?
  {
    var run, st2 := RunGraph(plan, again), InitialState(plan.net, again);
    if run.Stopped? {
      var x := run.failure.node;
      BlamedNode(plan, st2, InParallel(again));
      UpstreamTraced(plan, st2, InParallel(again), x);
      BothBalance(plan, first, again, start);
      if Reaches(plan.net, x, start) {
        ReachesInNet(plan.net, x, start);
      }
      SkipRepeats(plan, first, again, start, x, vars);
      NotBlamed(plan, first, again, start, x, vars);
    }
  }

  // A skipped condition is not asked again. So the run from a node on completes with the traces
  // the first run had, all of them, if and only if no node was switched off by conditions
  // upstream of the start node alone: the runner comes back to such nodes as if nothing had
  // switched them off.
  lemma RerunRepeatsIff(plan: Plan, first: Request, again: Request, start: Id, vars: set<Id>)
    requires RunsAgain(plan, first, again, start, vars) && Rereads(plan, first, start, vars)
    ensures var traces1, run := RunGraph(plan, first).st.traces, RunGraph(plan, again);
            run.Running? && TracesRepeat(plan, traces1, run.st.traces, start) <==> Revived(plan, traces1, start) == {}
  {
    var traces1, run := RunGraph(plan, first).st.traces, RunGraph(plan, again);
    if Revived(plan, traces1, start) == {} {
      AllRepeat(plan, first, again, start, vars);
      RerunCompletes(plan, first, again, start, vars);
    } else if run.Running? && TracesRepeat(plan, traces1, run.st.traces, start) {
      var x :| x in Revived(plan, traces1, start);
      RevivedDiffers(plan, first, again, start, x, vars);
    }
  }

  lemma RevivedDiffers(plan: Plan, first: Request, again: Request, start: Id, x: Id, vars: set<Id>)
    requires RunsAgain(plan, first, again, start, vars) && RunGraph(plan, again).Running?
    requires x in Revived(plan, RunGraph(plan, first).st.traces, start)
    ensures !TracesRepeat(plan, RunGraph(plan, first).st.traces, RunGraph(plan, again).st.traces, start)
  {
    var end1, end2 := RunGraph(plan, first).st, RunGraph(plan, again).st;
    BothBalance(plan, first, again, start);
    CompletedBooks(plan, InitialState(plan.net, again), InParallel(again));
    var t1 := FirstTrace(plan, first, x);
    assert x in Elements(TracedNodes(end2.traces));
    var t2 := TracedNodeHasTrace(end2.traces, x);
    assert t1.status.Skipped?;
    if SameTrace(t1, t2) {
      SwitcherDiffers(plan, end1.traces, end2, start, x);
    }
  }

  // The condition that switches it off in the second run did not in the first.
  lemma SwitcherDiffers(plan: Plan, traces1: seq<Trace>, end: State, start: Id, x: Id)
    requires WellFormed(plan) && SkipsBalance(plan, Ancestors(plan.net, start), end)
    requires x in Revived(plan, traces1, start) && x in end.skip
    requires forall y :: y in TracedNodes(end.traces) ==> y in TracedNodes(traces1)
    ensures !TracesRepeat(plan, traces1, end.traces, start)
  {
    var u := SwitcherRunsAgain(plan, end, start, x);
    TracedMember(end.traces, u);
    var t := TracedNodeHasTrace(traces1, u.node);
    RevivedOnlyBySkipped(plan, traces1, start, x, t);
    OnePairDiffers(plan, traces1, end.traces, start, t, u);
  }

  lemma RevivedOnlyBySkipped(plan: Plan, traces: seq<Trace>, start: Id, x: Id, t: Trace)
    requires x in Revived(plan, traces, start) && t in traces && !Reaches(plan.net, t.node, start)
    ensures !Switches(plan, t, x)
  {
  }

  lemma OnePairDiffers(plan: Plan, traces1: seq<Trace>, traces2: seq<Trace>, start: Id, t1: Trace, t2: Trace)
    requires t1 in traces1 && t2 in traces2 && t1.node == t2.node && !Reaches(plan.net, t1.node, start)
    requires !SameTrace(t1, t2)
    ensures !TracesRepeat(plan, traces1, traces2, start)
  {
  }

  // Whatever the first run did: a resumed run that completes executes every node downstream of
  // no conditions but skipped ones.
  lemma OnlySkippedConditions(plan: Plan, again: Request, start: Id, x: Id)
    requires WellFormed(plan) && ResumesAt(plan.net, again, start) && RunGraph(plan, again).Running?
    requires x in Order(plan.net) && x in plan.nodes && FateOf(plan.nodes[x], {}).Active?
    requires !Reaches(plan.net, x, start)
    requires forall c :: c in plan.nodes && plan.nodes[c].kind == "action.condition" && Reaches(plan.net, c, x) ==>
               Reaches(plan.net, c, start)
    ensures x in TracedNodes(RunGraph(plan, again).st.traces)
    ensures forall t :: t in RunGraph(plan, again).st.traces && t.node == x ==> !t.status.Skipped?
  {
    var st, end := InitialState(plan.net, again), RunGraph(plan, again).st;
    EveryRunSkips(plan, st, InParallel(again));
    SkipsAncestors(plan, again, start);
    CompletedBooks(plan, st, InParallel(again));
    assert x in Elements(TracedNodes(end.traces));
    if x in SwitchedOff(plan, end.traces) {
      var u := SwitchedBy(plan, end.traces, x);
      SkipDeltaDownstream(plan.net, plan.nodes[u.node], u.output, x);
    }
  }
}
