/** "Run from this node", in either mode: which nodes a resumed run skips, and what its start
    node gets, for any prior outputs, against the run it resumes. */
module Resume {
  import opened Nets
  import opened Kahn
  import opened Levels
  import opened Values
  import opened Reachability
  import opened NodeExec
  import opened Runner
  import opened Locality
  import opened Refinement
  import opened RunLaws
  import opened ParallelLaws
  import opened GraphRun
  import opened DataFlow

  // The skip set of a resumed run starts as exactly the strict ancestors of the start node,
  // which therefore stay skipped; and nothing the run does ever switches the start node off.
  lemma ResumeRunsStart(plan: Plan, req: Request, start: Id)
    requires WellFormed(plan) && ResumesAt(plan.net, req, start) && start in Order(plan.net)
    ensures forall x :: x in InitialState(plan.net, req).skip <==> Reaches(plan.net, x, start)
    ensures var run := RunGraph(plan, req);
            && start !in run.st.skip
            && (forall t :: t in run.st.traces && Reaches(plan.net, t.node, start) ==> t.status.Skipped?)
            && (forall t :: t in run.st.traces && t.node == start ==>
                  (t.status.Skipped? <==> plan.nodes[start].kind == "note" || plan.nodes[start].disabled))
            && (run.Running? ==> start in TracedNodes(run.st.traces))
  {
    var st, run := InitialState(plan.net, req), RunGraph(plan, req);
    EveryRunSkips(plan, st, InParallel(req));
    ScheduledIsNoAncestorOfItself(plan.net, start);
    SkipsAncestors(plan, req, start);
    StartStaysOn(plan, run.st, start);
    if run.Running? {
      CompletedBooks(plan, st, InParallel(req));
      assert start in Elements(TracedNodes(run.st.traces));
    }
  }

  lemma SkipsAncestors(plan: Plan, req: Request, start: Id)
    requires ResumesAt(plan.net, req, start)
    ensures forall x :: x in InitialState(plan.net, req).skip <==> Reaches(plan.net, x, start)
  {
    forall x | Reaches(plan.net, x, start)
      ensures x in Ancestors(plan.net, start)
    {
      ReachesInNet(plan.net, x, start);
    }
  }

  // Only an ancestor could switch the start node off, and ancestors are skipped.
  lemma StartStaysOn(plan: Plan, end: State, start: Id)
    requires WellFormed(plan) && SkipsBalance(plan, Ancestors(plan.net, start), end)
    ensures start !in SwitchedOff(plan, end.traces)
  {
    if start in SwitchedOff(plan, end.traces) {
      var t := SwitchedBy(plan, end.traces, start);
      SkipDeltaDownstream(plan.net, plan.nodes[t.node], t.output, start);
      ReachesInNet(plan.net, t.node, start);
    }
  }

  // ----- what the start node of a resumed run finds -----

  // All but the ancestors is nothing to the start node, and the ancestors are skipped.
  lemma SeedsStay(plan: Plan, req: Request, start: Id, k: nat, vars: set<Id>)
    requires WellFormed(plan) && HandlersWriteOnly(plan, vars) && ResumesAt(plan.net, req, start)
    requires k < |LevelsOf(plan.net)|
    ensures var st, apart := InitialState(plan.net, req), Hidden(plan.net, start) + vars;
            Filter(plan, ParAt(plan, st, k).st, LevelsOf(plan.net)[k]).st.context - apart == st.context - apart
  {
    var st, apart, levels := InitialState(plan.net, req), Hidden(plan.net, start) + vars, LevelsOf(plan.net);
    forall j | 0 <= j <= k
      ensures Covered(plan, ParAt(plan, st, j).st.skip, levels[j], apart)
    {
      LevelIsDistinct(plan.net, j);
      CoveredFromStart(plan, st, j, apart);
    }
    assert ParAt(plan, st, 0) == Running(st);
    LevelsFrame(plan, st, 0, k, apart, vars);
    LevelIsDistinct(plan.net, k);
    FilterFrame(plan, ParAt(plan, st, k).st, levels[k], apart);
  }

  // In a resumed run the ancestors' outputs are still the seeded ones.
  lemma ViewFromSeeds(plan: Plan, st: State, order: seq<Id>, start: Id, vars: set<Id>)
    requires WellFormed(plan) && HandlersWriteOnly(plan, vars) && st.skip == Ancestors(plan.net, start)
    requires forall x :: x in order ==> x in plan.net.ids
    ensures var apart := Hidden(plan.net, start) + vars;
            SeqRun(plan, Running(st), order).st.context - apart == st.context - apart
  {
    WalkFrame(plan, st, order, vars);
    var written := Elements(order) - st.skip + vars;
    AgreeWider(SeqRun(plan, Running(st), order).st.context, st.context, written, Hidden(plan.net, start) + vars);
  }

  // The context the start node finds in a resumed run agrees with the seeded one on all that
  // leads to it, whatever the prior outputs are.
  lemma ResumedContext(plan: Plan, req: Request, start: Id, t: Trace, vars: set<Id>) returns (c: Context)
    requires WellFormed(plan) && HandlersWriteOnly(plan, vars) && ResumesAt(plan.net, req, start)
    requires t in RunGraph(plan, req).st.traces && t.node == start && !t.status.Skipped?
    ensures start in plan.nodes && t == PoolResult(plan, start, c).trace
    ensures var apart := Hidden(plan.net, start) + vars; c - apart == InitialState(plan.net, req).context - apart
  {
    var st := InitialState(plan.net, req);
    if InParallel(req) {
      var levels := LevelsOf(plan.net);
      ParEnds(plan, st);
      var k := ParTraceOrigin(plan, st, |levels|, t);
      c := Filter(plan, ParAt(plan, st, k).st, levels[k]).st.context;
      SeedsStay(plan, req, start, k, vars);
    } else {
      var order := Order(plan.net);
      var k := TraceOrigin(plan, st, order, t);
      OrderInNet(plan.net);
      assert forall x :: x in order[..k] ==> x in order;
      ViewFromSeeds(plan, st, order[..k], start, vars);
      var before := SeqRun(plan, Running(st), order[..k]).st.context;
      c := before[start := SeqInput(plan, start, before)];
      OwnEntryUnseen(plan, start, before, SeqInput(plan, start, before), vars);
    }
  }

  // A resumed start node that runs is fed by the prior outputs, and if its handler reads
  // upstream outputs only, its trace is that of its run on the seeded context.
  lemma ResumedTraceIsRunOnSeeds(plan: Plan, req: Request, start: Id, t: Trace, vars: set<Id>)
    requires WellFormed(plan) && WritesVariables(plan, vars) && ResumesAt(plan.net, req, start)
    requires t in RunGraph(plan, req).st.traces && t.node == start && !t.status.Skipped?
    ensures start in plan.nodes
    ensures Runs(plan.env, plan.nodes[start]) ==>
              t.input == ExecInput(plan.net.edges, start, InitialState(plan.net, req).context)
    ensures Ignores(plan.env, plan.nodes[start], Hidden(plan.net, start) + vars) ==>
              t == PoolResult(plan, start, InitialState(plan.net, req).context).trace
  {
    var seeded, apart := InitialState(plan.net, req).context, Hidden(plan.net, start) + vars;
    var c := ResumedContext(plan, req, start, t, vars);
    InputsReserved(plan, start, vars);
    ExecInputLocal(plan.net, start, c, seeded, apart);
    if Runs(plan.env, plan.nodes[start]) {
      ExecFacts(plan, plan.nodes[start], c);
    }
    if Ignores(plan.env, plan.nodes[start], apart) {
      ExecLocal(plan, plan.nodes[start], c, seeded, apart, apart);
    }
  }

  // ----- a resumed run against the run it resumes -----

  // A context that holds the payload, variables and otherwise only node outputs.
  ghost predicate PayloadOnly(plan: Plan, payload: Json, ctx: Context, vars: set<Id>) {
    ctx - (Elements(plan.net.ids) + vars) == BaseContext(payload)
  }

  // Seeding from a finished context gives back all the start node may look at.
  lemma SeedsRestoreView(plan: Plan, req: Request, start: Id, vars: set<Id>)
    requires WellFormed(plan) && ResumesAt(plan.net, req, start) && PayloadOnly(plan, req.payload, req.prior, vars)
    ensures var apart := Hidden(plan.net, start) + vars;
            InitialState(plan.net, req).context - apart == req.prior - apart
  {
    var c, apart := InitialState(plan.net, req).context, Hidden(plan.net, start) + vars;
    var base := BaseContext(req.payload);
    forall x | x !in apart
      ensures x in c <==> x in req.prior
      ensures x in c ==> c[x] == req.prior[x]
    {
      if x in plan.net.ids {
        assert x in Ancestors(plan.net, start);
      } else {
        assert x in req.prior <==> x in req.prior - (Elements(plan.net.ids) + vars);
        assert x in req.prior ==> req.prior[x] == base[x];
      }
    }
  }

  lemma FinalContextPayloadOnly(plan: Plan, payload: Json, st: State, parallel: bool, vars: set<Id>)
    requires WellFormed(plan) && HandlersWriteOnly(plan, vars) && PayloadOnly(plan, payload, st.context, vars)
    ensures PayloadOnly(plan, payload, RunIn(plan, st, parallel).st.context, vars)
  {
    var end := RunIn(plan, st, parallel).st;
    OrderInNet(plan.net);
    ContextFrame(plan, st, parallel, vars);
    AgreeWider(end.context, st.context, Elements(Order(plan.net)) - st.skip + vars, Elements(plan.net.ids) + vars);
  }

  // A run in one mode, completed or not, and a later run of the same graph and payload, in the
  // same or the other mode, resumed at a node that runs and that the first one executed.
  ghost predicate Resumes(
    plan: Plan, st1: State, parallel1: bool, req: Request, start: Id, t1: Trace, vars: set<Id>)
  {
    && WellFormed(plan) && WritesVariables(plan, vars)
    && Blank(st1) && PayloadOnly(plan, req.payload, st1.context, vars)
    && t1 in RunIn(plan, st1, parallel1).st.traces && t1.node == start && !t1.status.Skipped?
    && ResumesAt(plan.net, req, start) && start in plan.nodes && Runs(plan.env, plan.nodes[start])
  }

  // A node that was executed once is executed by every run resumed at it that gets there.
  lemma StartIsActive(plan: Plan, st1: State, parallel1: bool, req: Request, start: Id, t1: Trace, vars: set<Id>)
    requires Resumes(plan, st1, parallel1, req, start, t1, vars)
    ensures var run := RunGraph(plan, req);
            && (forall t :: t in run.st.traces && t.node == start ==> !t.status.Skipped?)
            && (run.Running? ==> start in TracedNodes(run.st.traces))
  {
    EveryRunSkips(plan, st1, parallel1);
    TracedInOrder(plan, st1, parallel1, t1);
    ResumeRunsStart(plan, req, start);
  }

  lemma ResumedTraceIs(
    plan: Plan, st1: State, parallel1: bool, req: Request, start: Id, t1: Trace, t2: Trace, vars: set<Id>)
    requires Resumes(plan, st1, parallel1, req, start, t1, vars)
    requires start in plan.nodes && Ignores(plan.env, plan.nodes[start], Hidden(plan.net, start) + vars)
    requires req.prior == RunIn(plan, st1, parallel1).st.context
    requires t2 in RunGraph(plan, req).st.traces && t2.node == start && !t2.status.Skipped?
    ensures t2 == t1
  {
    var apart := Hidden(plan.net, start) + vars;
    TracesAreStable(plan, st1, parallel1, t1, vars);
    ResumedTraceIsRunOnSeeds(plan, req, start, t2, vars);
    FinalContextPayloadOnly(plan, req.payload, st1, parallel1, vars);
    SeedsRestoreView(plan, req, start, vars);
    InputsReserved(plan, start, vars);
    ExecLocal(plan, plan.nodes[start], InitialState(plan.net, req).context, req.prior, apart, apart);
  }

  // Running again from a node, with the outputs of an earlier run of the same graph and
  // payload, gives that node the trace it had: same input, same output, same attempts, in
  // whichever modes the two runs are. The resumed run either gets to the node or was stopped
  // by another node before it.
  lemma {:induction false} ResumeRecomputes(
    plan: Plan, st1: State, parallel1: bool, req: Request, start: Id, t1: Trace, vars: set<Id>)
    requires Resumes(plan, st1, parallel1, req, start, t1, vars)
    requires start in plan.nodes && Ignores(plan.env, plan.nodes[start], Hidden(plan.net, start) + vars)
    requires req.prior == RunIn(plan, st1, parallel1).st.context
    ensures var run := RunGraph(plan, req);
            && (forall t :: t in run.st.traces && t.node == start ==> t == t1)
            && (run.Running? ==> t1 in run.st.traces)
  {
    var run := RunGraph(plan, req);
    StartIsActive(plan, st1, parallel1, req, start, t1, vars);
    forall t | t in run.st.traces && t.node == start
      ensures t == t1
    {
      ResumedTraceIs(plan, st1, parallel1, req, start, t1, t, vars);
    }
    if run.Running? {
      var t := TracedNodeHasTrace(run.st.traces, start);
    }
  }

  // ----- resuming with recorded outputs -----

  lemma SourceIsAncestor(plan: Plan, start: Id, source: Id)
    requires WellFormed(plan) && start in plan.net.ids && source in plan.net.ids
    requires FirstInto(plan.net.edges, 0, start).Some? && FirstInto(plan.net.edges, 0, start).value.source == source
    ensures source in Ancestors(plan.net, start) && source != PAYLOAD_KEY
  {
    FirstIntoMember(plan.net.edges, 0, start);
    assert Arc(plan.net, source, start);
    ArcReaches(plan.net, source, start);
  }

  // `source` is the trace of the node the first edge into the start node comes from.
  ghost predicate FirstSource(plan: Plan, st1: State, parallel1: bool, start: Id, source: Trace) {
    && source in RunIn(plan, st1, parallel1).st.traces
    && FirstInto(plan.net.edges, 0, start).Some?
    && FirstInto(plan.net.edges, 0, start).value.source == source.node
  }

  // What the start node was given the first time.
  lemma FirstInput(
    plan: Plan, st1: State, parallel1: bool, req: Request, start: Id, t1: Trace, source: Trace, vars: set<Id>)
    requires Resumes(plan, st1, parallel1, req, start, t1, vars) && FirstSource(plan, st1, parallel1, start, source)
    ensures source.status.Skipped? ==> source.output == Null && t1.input == OutputOf(st1.context, source.node)
    ensures !source.status.Skipped? ==> (t1.input == source.output <==> !IsLoop(source.output))
  {
    InputsAreFinalOutputs(plan, st1, parallel1, t1, vars);
    TracedInOrder(plan, st1, parallel1, source);
    SourceIsAncestor(plan, start, source.node);
    if source.status.Skipped? {
      PassedOverKept(plan, st1, parallel1, source, vars);
    } else {
      UpstreamWentOn(plan, st1, parallel1, source, t1);
      FinalOutputOf(plan, st1, parallel1, source, vars);
    }
  }

  // What it is given when resumed.
  lemma ResumedInput(
    plan: Plan, st1: State, parallel1: bool, req: Request, start: Id, t1: Trace, t2: Trace, source: Trace,
    vars: set<Id>)
    requires Resumes(plan, st1, parallel1, req, start, t1, vars) && FirstSource(plan, st1, parallel1, start, source)
    requires t2 in RunGraph(plan, req).st.traces && t2.node == start
    ensures t2.input == OutputOf(req.prior, source.node)
  {
    StartIsActive(plan, st1, parallel1, req, start, t1, vars);
    ResumedTraceIsRunOnSeeds(plan, req, start, t2, vars);
    TracedInOrder(plan, st1, parallel1, source);
    SourceIsAncestor(plan, start, source.node);
    var base := BaseContext(req.payload);
    assert source.node !in base;
  }

  // The canvas resumes with the outputs in the traces. For a loop the trace has the list the
  // loop was given, not what its body made of it, and for a node that was passed over it has
  // null, which stands for no output. So the start node gets the input it had exactly if its
  // first source was executed and is no loop, or was passed over by a run that already had
  // null for its output; never the latter in a run from scratch.
  lemma ResumeFromTraces(
    plan: Plan, st1: State, parallel1: bool, req: Request, start: Id, t1: Trace, t2: Trace, source: Trace,
    vars: set<Id>)
    requires Resumes(plan, st1, parallel1, req, start, t1, vars) && FirstSource(plan, st1, parallel1, start, source)
    requires source.node in req.prior && req.prior[source.node] == source.output
    requires t2 in RunGraph(plan, req).st.traces && t2.node == start
    ensures t2.input == source.output
    ensures t2.input == t1.input <==>
              if source.status.Skipped? then OutputOf(st1.context, source.node) == Null else !IsLoop(source.output)
    ensures source.node !in st1.context ==>
              (t2.input == t1.input <==> !source.status.Skipped? && !IsLoop(source.output))
  {
    FirstInput(plan, st1, parallel1, req, start, t1, source, vars);
    ResumedInput(plan, st1, parallel1, req, start, t1, t2, source, vars);
  }

  // If nothing is sent for the source the start node gets an empty object, as it did when the
  // source was passed over by a run from scratch.
  lemma ResumeWithoutSource(
    plan: Plan, st1: State, parallel1: bool, req: Request, start: Id, t1: Trace, t2: Trace, source: Trace,
    vars: set<Id>)
    requires Resumes(plan, st1, parallel1, req, start, t1, vars) && FirstSource(plan, st1, parallel1, start, source)
    requires source.node !in req.prior
    requires t2 in RunGraph(plan, req).st.traces && t2.node == start
    ensures t2.input == EMPTY_OBJECT
    ensures source.status.Skipped? && source.node !in st1.context ==> t2.input == t1.input
  {
    FirstInput(plan, st1, parallel1, req, start, t1, source, vars);
    ResumedInput(plan, st1, parallel1, req, start, t1, t2, source, vars);
  }
}
