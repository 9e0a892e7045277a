/** What a run, in either mode, completed or stopped, records for each node, in terms of the
    request, the edges and what the handlers answer. */
module RunMeaning {
  import opened Nets
  import opened Kahn
  import opened Levels
  import opened Values
  import opened NodeExec
  import opened NodeMeaning
  import opened Runner
  import opened Locality
  import opened Refinement
  import opened RunLaws
  import opened ParallelLaws
  import opened GraphRun
  import opened DataFlow

  // ----- what an executed node finds -----

  // The node `x` finds what leads to it as the run leaves it, and under its own id what the
  // first edge has whose source has something. Without any, the sequential mode puts an empty
  // object there, and the parallel mode leaves what the run started with.
  ghost predicate Finds(
    plan: Plan, parallel: bool, c: Context, begin: Context, end: Context, x: Id, vars: set<Id>)
  {
    && c - (Hidden(plan.net, x) + vars) == end - (Hidden(plan.net, x) + vars)
    && (forall i: nat :: FirstAnswered(plan.net.edges, i, x, end) ==>
          x in c && c[x] == end[plan.net.edges[i].source])
    && (NoneAnswered(plan.net.edges, x, end) ==>
          if parallel then SameAt(c, begin, x) else x in c && c[x] == Obj(map[]))
  }

  // The seed of a node is the same on all contexts that agree on what leads to it.
  lemma SeedSettled(plan: Plan, x: Id, c: Context, end: Context, vars: set<Id>)
    requires WellFormed(plan) && WritesVariables(plan, vars) && x in plan.net.ids
    requires c - (Hidden(plan.net, x) + vars) == end - (Hidden(plan.net, x) + vars)
    ensures FirstAvailable(plan.net.edges, 0, x, c) == FirstAvailable(plan.net.edges, 0, x, end)
  {
    InputsReserved(plan, x, vars);
    FirstAvailableLocal(plan.net, 0, x, c, end, Hidden(plan.net, x) + vars);
  }

  lemma WalkFinds(plan: Plan, st: State, t: Trace, vars: set<Id>) returns (c: Context)
    requires WellFormed(plan) && WritesVariables(plan, vars) && Blank(st)
    requires t in RunInOrder(plan, st).st.traces && !t.status.Skipped?
    ensures t.node in plan.nodes && t == PoolResult(plan, t.node, c).trace
    ensures Finds(plan, false, c, st.context, RunInOrder(plan, st).st.context, t.node, vars)
  {
    var order, end := Order(plan.net), RunInOrder(plan, st).st.context;
    var k := TraceOrigin(plan, st, order, t);
    var before := SeqRun(plan, Running(st), order[..k]).st.context;
    c := before[t.node := SeqInput(plan, t.node, before)];
    OrderInNet(plan.net);
    ViewFromBefore(plan, st, k, vars);
    OwnEntryUnseen(plan, t.node, before, SeqInput(plan, t.node, before), vars);
    SeedSettled(plan, t.node, before, end, vars);
    SeedIs(plan.net.edges, t.node, end);
  }

  // The first pass over a level seeds its active nodes from what it finds.
  lemma {:induction false} FilterSeeds(plan: Plan, st: State, level: seq<Id>, x: Id)
    requires WellFormed(plan) && Distinct(level) && (forall y :: y in level ==> y in plan.nodes)
    requires x in level && FateOf(plan.nodes[x], st.skip).Active?
    requires Elements(level) !! Inputs(plan.net, x)
    ensures var c := Filter(plan, st, level).st.context;
            match FirstAvailable(plan.net.edges, 0, x, st.context)
            case Some(v) => x in c && c[x] == v
            case None => SameAt(c, st.context, x)
  {
    var front, y := level[..|level| - 1], level[|level| - 1];
    FilterSkip(plan, st, front);
    if y == x {
      FilterIs(plan, st, front);
      var f := Filter(plan, st, front);
      AgreeWider(f.st.context, st.context, ActiveSet(plan, st.skip, front), Elements(level));
      FirstAvailableLocal(plan.net, 0, x, f.st.context, st.context, Elements(level));
      AgreeAt(f.st.context, st.context, ActiveSet(plan, st.skip, front), x);
    } else {
      FilterSeeds(plan, st, front, x);
    }
  }

  // The levels before its own leave a node's entry alone.
  lemma LevelsMissEarlier(plan: Plan, st: State, k: nat, x: Id, vars: set<Id>)
    requires WellFormed(plan) && HandlersWriteOnly(plan, vars) && x !in vars
    requires k < |LevelsOf(plan.net)| && x in LevelsOf(plan.net)[k]
    ensures SameAt(ParAt(plan, st, k).st.context, st.context, x)
  {
    var levels, apart := LevelsOf(plan.net), Elements(plan.net.ids) - {x} + vars;
    forall j | 0 <= j < k
      ensures Covered(plan, ParAt(plan, st, j).st.skip, levels[j], apart)
    {
      LevelIsDistinct(plan.net, j);
      if x in levels[j] {
        LevelIsUnique(plan.net, j, k, x);
      }
    }
    assert ParAt(plan, st, 0) == Running(st);
    LevelsFrame(plan, st, 0, k, apart, vars);
    AgreeAt(ParAt(plan, st, k).st.context, st.context, apart, x);
  }

  lemma LevelsFind(plan: Plan, st: State, t: Trace, vars: set<Id>) returns (c: Context)
    requires WellFormed(plan) && WritesVariables(plan, vars) && Blank(st)
    requires t in RunByLevels(plan, st).st.traces && !t.status.Skipped?
    ensures t.node in plan.nodes && t == PoolResult(plan, t.node, c).trace
    ensures Finds(plan, true, c, st.context, RunByLevels(plan, st).st.context, t.node, vars)
  {
    var levels, x, end := LevelsOf(plan.net), t.node, RunByLevels(plan, st).st.context;
    ParEnds(plan, st);
    var k := ParTraceOrigin(plan, st, |levels|, t);
    var before := ParAt(plan, st, k).st;
    c := Filter(plan, before, levels[k]).st.context;
    ParViewFromBefore(plan, st, k, x, vars);
    SeedSettled(plan, x, before.context, end, vars);
    SeedIs(plan.net.edges, x, end);
    LevelIsDistinct(plan.net, k);
    LowerIsHidden(plan.net, k, k, x);
    InputsVisible(plan.net, x);
    FilterSeeds(plan, before, levels[k], x);
    LevelsMissEarlier(plan, st, k, x, vars);
  }

  // The trace of every executed node that runs: its input comes from the source of its first
  // edge, or is the payload; and it records the last of the attempts its handler made on what
  // the node found.
  lemma TraceMeans(plan: Plan, st: State, parallel: bool, t: Trace, vars: set<Id>) returns (c: Context)
    requires WellFormed(plan) && WritesVariables(plan, vars) && Blank(st)
    requires t in RunIn(plan, st, parallel).st.traces && !t.status.Skipped?
    ensures t.node in plan.nodes
    ensures Finds(plan, parallel, c, st.context, RunIn(plan, st, parallel).st.context, t.node, vars)
    ensures forall m :: Retries(plan.env, plan.nodes[t.node], m) ==>
              TracesAttempts(plan.env, plan.nodes[t.node], m, c, t)
    ensures Runs(plan.env, plan.nodes[t.node]) ==>
              var end := RunIn(plan, st, parallel).st.context;
              && (forall i: nat :: FirstEdge(plan.net.edges, i, t.node) ==>
                    t.input == var source := plan.net.edges[i].source;
                               if source in end then end[source] else Obj(map[]))
              && ((forall e :: e in plan.net.edges ==> e.target != t.node) ==>
                    t.input == if "__initial_payload__" in end then end["__initial_payload__"] else Obj(map[]))
  {
    if parallel {
      c := LevelsFind(plan, st, t, vars);
    } else {
      c := WalkFinds(plan, st, t, vars);
    }
    var n := plan.nodes[t.node];
    forall m | Retries(plan.env, n, m)
      ensures TracesAttempts(plan.env, n, m, c, t)
    {
      RunIsAttempted(plan, n, c, m);
    }
    if Runs(plan.env, n) {
      InputsAreFinalOutputs(plan, st, parallel, t, vars);
      InputIs(plan.net.edges, t.node, RunIn(plan, st, parallel).st.context);
    }
  }

  // The last attempt of an executed node that runs: what it found, and what came of it.
  ghost predicate LastCall(
    plan: Plan, st: State, parallel: bool, t: Trace, found: Context, c: Context, o: Outcome, vars: set<Id>)
  {
    && t.node in plan.nodes && t.attempts >= 1
    && var n := plan.nodes[t.node];
       && Finds(plan, parallel, found, st.context, RunIn(plan, st, parallel).st.context, t.node, vars)
       && c == ContextAt(plan.env, n, t.input, found, t.attempts - 1)
       && o == plan.env.run(n, t.attempts - 1, t.input, c)
       && Records(n, t.input, LastAttempt(plan.env, n), o, t)
  }

  lemma LastCallOf(plan: Plan, st: State, parallel: bool, t: Trace, vars: set<Id>)
    returns (found: Context, c: Context, o: Outcome)
    requires WellFormed(plan) && WritesVariables(plan, vars) && Blank(st)
    requires t in RunIn(plan, st, parallel).st.traces && !t.status.Skipped?
    requires t.node in plan.nodes && Runs(plan.env, plan.nodes[t.node])
    ensures LastCall(plan, st, parallel, t, found, c, o, vars)
  {
    var n := plan.nodes[t.node];
    found := FoundAndTraced(plan, st, parallel, t, vars);
    LastOfAttempts(plan.env, n, LastAttempt(plan.env, n), found, t);
    c := ContextAt(plan.env, n, t.input, found, t.attempts - 1);
    o := plan.env.run(n, t.attempts - 1, t.input, c);
  }

  lemma FoundAndTraced(plan: Plan, st: State, parallel: bool, t: Trace, vars: set<Id>) returns (found: Context)
    requires WellFormed(plan) && WritesVariables(plan, vars) && Blank(st)
    requires t in RunIn(plan, st, parallel).st.traces && !t.status.Skipped?
    requires t.node in plan.nodes && Runs(plan.env, plan.nodes[t.node])
    ensures Finds(plan, parallel, found, st.context, RunIn(plan, st, parallel).st.context, t.node, vars)
    ensures TracesAttempts(plan.env, plan.nodes[t.node], LastAttempt(plan.env, plan.nodes[t.node]), found, t)
  {
    RunsRetries(plan.env, plan.nodes[t.node]);
    found := TraceMeans(plan, st, parallel, t, vars);
  }

  lemma LastOfAttempts(env: Env, n: Node, m: int, found: Context, t: Trace)
    requires TracesAttempts(env, n, m, found, t)
    ensures t.attempts >= 1
    ensures Records(n, t.input, m,
                    env.run(n, t.attempts - 1, t.input, ContextAt(env, n, t.input, found, t.attempts - 1)), t)
  {
  }

  // ----- the payload -----

  // A run leaves the payload where it put it, whatever the request asks for.
  lemma PayloadStays(plan: Plan, req: Request, vars: set<Id>)
    requires WellFormed(plan) && WritesVariables(plan, vars)
    ensures var end := RunGraph(plan, req).st.context;
            && "__initial_payload__" in end
            && end["__initial_payload__"] == if Falsy(req.payload) then Obj(map[]) else req.payload
  {
    var st, end := InitialState(plan.net, req), RunGraph(plan, req).st;
    TruthyIs(req.payload);
    OrderInNet(plan.net);
    ContextFrame(plan, st, InParallel(req), vars);
    AgreeAt(end.context, st.context, Elements(Order(plan.net)) - st.skip + vars, "__initial_payload__");
  }

  // In every run, of either mode, completed or stopped, a root is given the payload of the
  // request, or an empty object for one that Python takes for false.
  lemma RootsGetPayload(plan: Plan, req: Request, t: Trace, vars: set<Id>)
    requires WellFormed(plan) && WritesVariables(plan, vars)
    requires t in RunGraph(plan, req).st.traces && !t.status.Skipped?
    requires t.node in plan.nodes && Runs(plan.env, plan.nodes[t.node])
    requires forall e :: e in plan.net.edges ==> e.target != t.node
    ensures t.input == if Falsy(req.payload) then Obj(map[]) else req.payload
  {
    PayloadStays(plan, req, vars);
    var c := TraceMeans(plan, InitialState(plan.net, req), InParallel(req), t, vars);
  }

  // A request to run from no node, or from one the graph does not have, is an ordinary one.
  lemma UnknownStartIsIgnored(plan: Plan, req: Request)
    requires req.start.Some? ==> req.start.value == "" || req.start.value !in plan.net.ids
    ensures RunGraph(plan, req) == RunGraph(plan, req.(start := None, prior := map[]))
  {
  }

  // Only a parallel graph with more than one worker runs level by level.
  lemma WorkersDecide(plan: Plan, req: Request)
    ensures RunGraph(plan, req) ==
              if req.parallel && req.maxWorkers >= 2 then RunByLevels(plan, InitialState(plan.net, req))
              else RunInOrder(plan, InitialState(plan.net, req))
  {
  }

  // ----- what is kept of an answer -----

  // A run that went on after a node holds its answer for it, in the context and among the
  // results, unless that is an object that calls itself a loop.
  lemma AnswerIsKept(plan: Plan, st: State, parallel: bool, t: Trace, vars: set<Id>)
    requires WellFormed(plan) && WritesVariables(plan, vars) && Blank(st)
    requires t in RunIn(plan, st, parallel).st.traces && !t.status.Skipped? && WentOn(plan, t)
    requires t.node in plan.nodes && Runs(plan.env, plan.nodes[t.node])
    ensures var end := RunIn(plan, st, parallel).st;
            && t.node in end.context && t.node in end.results && end.results[t.node] == end.context[t.node]
            && (end.context[t.node] == t.output <==>
                  !(t.output.Obj? && "__loop__" in t.output.fields && !Falsy(t.output.fields["__loop__"])))
  {
    OutputsStay(plan, st, parallel, t, vars);
    FinalOutputOf(plan, st, parallel, t, vars);
    if t.output.Obj? && "__loop__" in t.output.fields {
      TruthyIs(t.output.fields["__loop__"]);
    }
  }

  // ----- nodes that are passed over -----

  // What a run records for a node it passed over, and why.
  lemma PassedOverTells(plan: Plan, st: State, parallel: bool, t: Trace)
    requires WellFormed(plan) && Blank(st) && t in RunIn(plan, st, parallel).st.traces && t.status.Skipped?
    ensures t.node in plan.nodes && t.node in RunIn(plan, st, parallel).st.results
    ensures var n, end := plan.nodes[t.node], RunIn(plan, st, parallel).st;
            && t == Trace(t.node, n.kind, n.title, Skipped, 0, t.input, Null, t.error)
            && if n.kind == "note" then
                 end.results[t.node] == Obj(map["__ui_only" := Bool(true)]) && t.error == None
               else if n.disabled then
                 end.results[t.node] == Obj(map["__disabled" := Bool(true)]) && t.error == None
               else
                 && t.node in end.skip && end.results[t.node] == Obj(map["__skipped" := Bool(true)])
                 && t.error == Some("Branch not taken")
  {
    TracedInOrder(plan, st, parallel, t);
    TraceBooked(plan, st, parallel, t);
  }

  lemma {:induction false} SkippedOrigin(plan: Plan, st: State, order: seq<Id>, t: Trace) returns (k: nat)
    requires WellFormed(plan) && st.traces == []
    requires t in SeqRun(plan, Running(st), order).st.traces && t.status.Skipped?
    ensures k < |order| && order[k] == t.node && SeqRun(plan, Running(st), order[..k]).Running?
    ensures t.input == SeqInput(plan, t.node, SeqRun(plan, Running(st), order[..k]).st.context)
  {
    k := |order| - 1;
    var rest, x := order[..k], order[k];
    var r := SeqRun(plan, Running(st), rest);
    if t in r.st.traces {
      k := SkippedOrigin(plan, st, rest, t);
      assert rest[..k] == order[..k];
    } else {
      SkippedInStep(plan, r.st, x, t);
    }
  }

  lemma SkippedInStep(plan: Plan, st: State, x: Id, t: Trace)
    requires WellFormed(plan) && t in SeqStep(plan, st, x).st.traces && t !in st.traces && t.status.Skipped?
    ensures t.node == x && t.input == SeqInput(plan, x, st.context)
  {
    if x in plan.nodes && FateOf(plan.nodes[x], st.skip).Active? && Runs(plan.env, plan.nodes[x]) {
      ExecFacts(plan, plan.nodes[x], st.context[x := SeqInput(plan, x, st.context)]);
    }
  }

  ghost predicate NothingNoted(traces: seq<Trace>) {
    forall t :: t in traces && t.status.Skipped? ==> t.input == Null
  }

  lemma {:induction false} FilterNotes(plan: Plan, st: State, level: seq<Id>)
    requires NothingNoted(st.traces)
    ensures NothingNoted(Filter(plan, st, level).st.traces)
  {
    if |level| == 0 {
    } else {
      FilterNotes(plan, st, level[..|level| - 1]);
    }
  }

  lemma AnswerNotes(plan: Plan, st: State, x: Id, source: Source)
    requires x in plan.nodes && NothingNoted(st.traces)
    ensures NothingNoted(Answer(plan, st, x, source).st.traces)
  {
    if Runs(plan.env, plan.nodes[x]) {
      ExecFacts(plan, plan.nodes[x], ContextOf(source, st));
    }
  }

  lemma {:induction false} AnswersNote(plan: Plan, run: Run, active: seq<Id>, source: Source)
    requires (forall x :: x in active ==> x in plan.nodes) && NothingNoted(run.st.traces)
    ensures NothingNoted(AnswerAll(plan, run, active, source).st.traces)
  {
    if |active| == 0 {
    } else {
      var front, x := active[..|active| - 1], active[|active| - 1];
      assert x in active && forall y :: y in front ==> y in active;
      AnswersNote(plan, run, front, source);
      var r := AnswerAll(plan, run, front, source);
      if r.Running? {
        AnswerNotes(plan, r.st, x, source);
      }
    }
  }

  lemma {:induction false} LevelsNote(plan: Plan, run: Run, levels: seq<seq<Id>>)
    requires NothingNoted(run.st.traces)
    ensures NothingNoted(ParRun(plan, run, levels).st.traces)
  {
    if |levels| == 0 {
    } else {
      var front, level := levels[..|levels| - 1], levels[|levels| - 1];
      LevelsNote(plan, run, front);
      var r := ParRun(plan, run, front);
      if r.Running? {
        FilterNotes(plan, r.st, level);
        FilterActive(plan, r.st, level);
        var f := Filter(plan, r.st, level);
        AnswersNote(plan, Running(AllBegun(f)), f.active, SourceOf(f));
      }
    }
  }

  // The input noted for a node that is passed over: in the sequential mode what it would have
  // been seeded with, in the parallel mode nothing.
  lemma PassedOverInput(plan: Plan, st: State, parallel: bool, t: Trace, vars: set<Id>)
    requires WellFormed(plan) && WritesVariables(plan, vars) && Blank(st)
    requires t in RunIn(plan, st, parallel).st.traces && t.status.Skipped?
    ensures parallel ==> t.input == Null
    ensures !parallel ==>
              var end := RunIn(plan, st, parallel).st.context;
              && (forall i: nat :: FirstAnswered(plan.net.edges, i, t.node, end) ==>
                    t.input == end[plan.net.edges[i].source])
              && (NoneAnswered(plan.net.edges, t.node, end) ==> t.input == Obj(map[]))
  {
    if parallel {
      LevelsNote(plan, Running(st), LevelsOf(plan.net));
    } else {
      var order, end := Order(plan.net), RunInOrder(plan, st).st.context;
      var k := SkippedOrigin(plan, st, order, t);
      OrderInNet(plan.net);
      ViewFromBefore(plan, st, k, vars);
      SeedSettled(plan, t.node, SeqRun(plan, Running(st), order[..k]).st.context, end, vars);
      SeedIs(plan.net.edges, t.node, end);
    }
  }

  // ----- how a run stops -----

  // What a stopped run leaves of the node that stopped it.
  ghost predicate StopRecorded(plan: Plan, st: State, f: Failure) {
    match f
    case NodeFailed(x, kind, attempts, msg) =>
      && |st.traces| > 0 && x in st.context && x in st.results && x in plan.nodes
      && st.context[x] == Obj(map["__error" := Str(msg)]) == st.results[x]
      && var t := st.traces[|st.traces| - 1];
         if Runs(plan.env, plan.nodes[x]) then
           t.node == x && t.kind == kind && t.attempts == attempts && exists k :: t.error == Some(k + ": " + msg)
         else
           && msg == plan.env.runtime.crashText(plan.nodes[x]) && kind == "" && attempts == 1
           && t == Trace(x, "", "", Errored, 1, Null, Null, Some(msg))
    case NotIterable(x) =>
      && |st.traces| > 0 && x in st.context && x in st.results
      && st.context[x] == st.traces[|st.traces| - 1].output == st.results[x]
    case Crashed(x, kind, text) =>
      && x in plan.nodes && !Runs(plan.env, plan.nodes[x])
      && kind == CrashKind(plan.env, plan.nodes[x]) && text == plan.env.runtime.crashText(plan.nodes[x])
  }

  ghost predicate StopsRecorded(plan: Plan, r: Run) {
    r.Stopped? ==> StopRecorded(plan, r.st, r.failure)
  }

  lemma RunStops(plan: Plan, st: State, n: Node, ctx: Context)
    requires n.id in plan.nodes && plan.nodes[n.id] == n && Runs(plan.env, n)
    ensures StopsRecorded(plan, Apply(plan, st, n.id, Exec(plan, n, ctx)))
  {
    RunsRetries(plan.env, n);
    RunIsAttempted(plan, n, ctx, LastAttempt(plan.env, n));
    ExecFacts(plan, n, ctx);
  }

  lemma AnswerStops(plan: Plan, st: State, x: Id, source: Source)
    requires WellFormed(plan) && x in plan.nodes
    ensures StopsRecorded(plan, Answer(plan, st, x, source))
  {
    var n, c := plan.nodes[x], ContextOf(source, st);
    if Runs(plan.env, n) {
      RunStops(plan, if source.Live? then st.(context := Exec(plan, n, c).ctx) else st, n, c);
    }
  }

  lemma {:induction false} WalkStops(plan: Plan, st: State, order: seq<Id>)
    requires WellFormed(plan)
    ensures StopsRecorded(plan, SeqRun(plan, Running(st), order))
  {
    if |order| == 0 {
    } else {
      var rest, x := order[..|order| - 1], order[|order| - 1];
      WalkStops(plan, st, rest);
      var r := SeqRun(plan, Running(st), rest);
      if r.Running? && x in plan.nodes {
        AnswerStops(plan, Begin(r.st, x, SeqInput(plan, x, r.st.context)), x, Live);
      }
    }
  }

  lemma {:induction false} AnswersStop(plan: Plan, st: State, active: seq<Id>, source: Source)
    requires WellFormed(plan) && forall x :: x in active ==> x in plan.nodes
    ensures StopsRecorded(plan, AnswerAll(plan, Running(st), active, source))
  {
    if |active| == 0 {
    } else {
      var front, x := active[..|active| - 1], active[|active| - 1];
      assert x in active && forall y :: y in front ==> y in active;
      AnswersStop(plan, st, front, source);
      var r := AnswerAll(plan, Running(st), front, source);
      if r.Running? {
        AnswerStops(plan, r.st, x, source);
      }
    }
  }

  lemma {:induction false} LevelsStop(plan: Plan, st: State, levels: seq<seq<Id>>)
    requires WellFormed(plan)
    ensures StopsRecorded(plan, ParRun(plan, Running(st), levels))
  {
    if |levels| == 0 {
    } else {
      var front, level := levels[..|levels| - 1], levels[|levels| - 1];
      LevelsStop(plan, st, front);
      var r := ParRun(plan, Running(st), front);
      if r.Running? {
        var f := Filter(plan, r.st, level);
        FilterActive(plan, r.st, level);
        AnswersStop(plan, AllBegun(f), f.active, SourceOf(f));
      }
    }
  }

  // A run of either mode that stops leaves the message of the failure for the node it blames,
  // and the same message in the node's trace.
  lemma StopLeaves(plan: Plan, st: State, parallel: bool)
    requires WellFormed(plan) && RunIn(plan, st, parallel).Stopped?
    ensures StopRecorded(plan, RunIn(plan, st, parallel).st, RunIn(plan, st, parallel).failure)
  {
    if parallel {
      LevelsStop(plan, st, LevelsOf(plan.net));
    } else {
      WalkStops(plan, st, Order(plan.net));
    }
  }
}
