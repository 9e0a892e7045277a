/** Where values come from and where they go, in either mode: what a run leaves alone in the
    context, what an executed node found there, and what is still there when the run is over. */
module DataFlow {
  import opened Nets
  import opened Kahn
  import opened Levels
  import opened LevelTheorems
  import opened Values
  import opened NodeExec
  import opened Runner
  import opened Locality
  import opened Refinement
  import opened RunLaws
  import opened ParallelLaws

  // The context keys the executor itself goes by.
  ghost function Reserved(net: Net): set<Id> {
    Elements(net.ids) + {PAYLOAD_KEY} + set e | e in net.edges :: e.source
  }

  // Handlers write no context keys but the variables `vars`, which bear no reserved name.
  ghost predicate WritesVariables(plan: Plan, vars: set<Id>) {
    HandlersWriteOnly(plan, vars) && vars !! Reserved(plan.net)
  }

  // ----- both modes: books -----

  // The skip set of a run and the statuses in its traces.
  ghost predicate SkipsBalance(plan: Plan, skip0: set<Id>, st: State) {
    && st.skip == skip0 + SwitchedOff(plan, st.traces)
    && forall t :: t in st.traces ==>
         && t.node in plan.nodes && (t.status.Skipped? <==> FateOf(plan.nodes[t.node], st.skip).Inert?)
         && (t.status.Skipped? ==> t.output == Null)
  }

  lemma BooksSkip(plan: Plan, skip0: set<Id>, xs: seq<Id>, st: State)
    requires Books(plan, skip0, xs, st)
    ensures SkipsBalance(plan, skip0, st)
  {
    forall t | t in st.traces
      ensures t.node in plan.nodes && (t.status.Skipped? <==> FateOf(plan.nodes[t.node], st.skip).Inert?)
      ensures t.status.Skipped? ==> t.output == Null
    {
      assert TraceOk(plan, st.skip, st.results, t);
    }
  }

  lemma CrashSkips(plan: Plan, skip0: set<Id>, st: State, f: Failure)
    requires PoolCrashed(plan, skip0, st, f) && FateOf(plan.nodes[f.node], st.skip).Active?
    ensures SkipsBalance(plan, skip0, st)
  {
    var front, t := st.traces[..|st.traces| - 1], st.traces[|st.traces| - 1];
    var before := st.(traces := front, results := st.results - {f.node});
    BooksSkip(plan, skip0, TracedNodes(front), before);
    assert st.traces == front + [t];
    SwitchedSnoc(plan, front, t);
    assert SwitchedOff(plan, front) + {} == SwitchedOff(plan, front);
  }

  // Every run of every plan, in either mode, completed or not: the skip set is the initial one
  // plus what the conditions that answered switched off, and decides who was executed.
  lemma EveryRunSkips(plan: Plan, st: State, parallel: bool)
    requires WellFormed(plan) && Blank(st)
    ensures SkipsBalance(plan, st.skip, RunIn(plan, st, parallel).st)
  {
    var run := RunIn(plan, st, parallel);
    if parallel {
      ParallelRunBalances(plan, st);
      if run.Stopped? && !run.failure.Crashed? && !Runs(plan.env, plan.nodes[run.failure.node]) {
        CrashSkips(plan, st.skip, run.st, run.failure);
      } else {
        BooksSkip(plan, st.skip, TracedNodes(run.st.traces), run.st);
      }
    } else {
      var xs := BooksOfRun(plan, st);
      BooksSkip(plan, st.skip, xs, run.st);
    }
  }

  // A completed run has open books, and has traced exactly the scheduled nodes.
  lemma CompletedBooks(plan: Plan, st: State, parallel: bool)
    requires WellFormed(plan) && Blank(st) && RunIn(plan, st, parallel).Running?
    ensures var end := RunIn(plan, st, parallel).st;
            && OpenBooks(plan, st.skip, TracedNodes(end.traces), end)
            && Elements(TracedNodes(end.traces)) == Elements(Order(plan.net))
  {
    if parallel {
      ParallelRunBalances(plan, st);
    } else {
      var xs := BooksOfRun(plan, st);
    }
  }

  lemma CompletedTrace(plan: Plan, st: State, parallel: bool, t: Trace)
    requires WellFormed(plan) && Blank(st) && RunIn(plan, st, parallel).Running?
    requires t in RunIn(plan, st, parallel).st.traces
    ensures var end := RunIn(plan, st, parallel).st;
            TraceOk(plan, end.skip, end.results, t) && WentOn(plan, t) && t.node in Order(plan.net)
  {
    var end := RunIn(plan, st, parallel).st;
    CompletedBooks(plan, st, parallel);
    TracedMember(end.traces, t);
    assert t.node in Elements(TracedNodes(end.traces));
  }

  // A trace has its books in every run, unless it is the pool's trace of a crash.
  lemma TraceBooked(plan: Plan, st: State, parallel: bool, t: Trace)
    requires WellFormed(plan) && Blank(st)
    requires t in RunIn(plan, st, parallel).st.traces
    requires t.node in plan.nodes && (t.status.Skipped? || Runs(plan.env, plan.nodes[t.node]))
    ensures var end := RunIn(plan, st, parallel).st; TraceOk(plan, end.skip, end.results, t)
  {
    var run := RunIn(plan, st, parallel);
    if parallel {
      ParallelRunBalances(plan, st);
      if run.Stopped? && !run.failure.Crashed? && !Runs(plan.env, plan.nodes[run.failure.node]) {
        CrashBooked(plan, st.skip, run.st, run.failure, t);
      }
    } else {
      var xs := BooksOfRun(plan, st);
    }
  }

  lemma CrashBooked(plan: Plan, skip0: set<Id>, st: State, f: Failure, t: Trace)
    requires PoolCrashed(plan, skip0, st, f) && !Runs(plan.env, plan.nodes[f.node]) && t in st.traces
    requires t.node in plan.nodes && (t.status.Skipped? || Runs(plan.env, plan.nodes[t.node]))
    ensures TraceOk(plan, st.skip, st.results, t)
  {
    var front, last := st.traces[..|st.traces| - 1], st.traces[|st.traces| - 1];
    assert st.traces == front + [last] && t != last && t in front;
    assert TraceOk(plan, st.skip, st.results - {f.node}, t);
  }

  // Only scheduled nodes are traced.
  lemma TracedInOrder(plan: Plan, st: State, parallel: bool, t: Trace)
    requires WellFormed(plan) && Blank(st) && t in RunIn(plan, st, parallel).st.traces
    ensures t.node in Order(plan.net) && t.node in plan.nodes
  {
    var run := RunIn(plan, st, parallel);
    TracedMember(run.st.traces, t);
    OrderInNet(plan.net);
    if parallel {
      ParallelRunBalances(plan, st);
      assert t.node in Elements(TracedNodes(run.st.traces));
    } else {
      var xs := BooksOfRun(plan, st);
    }
  }

  // ----- what a sequential run leaves alone -----

  lemma StepFrame(plan: Plan, st: State, x: Id, vars: set<Id>)
    requires HandlersWriteOnly(plan, vars) && x in plan.nodes
    ensures SeqStep(plan, st, x).st.context - ({x} + vars) == st.context - ({x} + vars)
  {
    var n, apart := plan.nodes[x], {x} + vars;
    var c := st.context[x := SeqInput(plan, x, st.context)];
    assert c - apart == st.context - apart;
    ExecWrites(plan, n, c, vars);
    var e := Exec(plan, n, c);
    if e.Executed? {
      var after := SeqStep(plan, st, x).st.context;
      AgreeWider(e.ctx, c, vars, apart);
      if FateOf(n, st.skip).Active? {
        ApplyFrame(plan, Begin(st, x, SeqInput(plan, x, st.context)).(context := e.ctx), x, e);
        AgreeWider(after, e.ctx, {x}, apart);
      }
    }
  }

  // Nodes that are skipped from the start or not reached keep what the context held for them.
  lemma {:induction false} WalkFrame(plan: Plan, st: State, order: seq<Id>, vars: set<Id>)
    requires WellFormed(plan) && HandlersWriteOnly(plan, vars)
    ensures var written := Elements(order) - st.skip + vars;
            SeqRun(plan, Running(st), order).st.context - written == st.context - written
    ensures st.skip <= SeqRun(plan, Running(st), order).st.skip
  {
    if |order| == 0 {
    } else {
      var rest, x := order[..|order| - 1], order[|order| - 1];
      WalkFrame(plan, st, rest, vars);
      var r, written := SeqRun(plan, Running(st), rest), Elements(order) - st.skip + vars;
      AgreeWider(r.st.context, st.context, Elements(rest) - st.skip + vars, written);
      if r.Running? && x in plan.nodes && FateOf(plan.nodes[x], r.st.skip).Active? {
        StepFrame(plan, r.st, x, vars);
        AgreeWider(SeqStep(plan, r.st, x).st.context, r.st.context, {x} + vars, written);
      }
    }
  }

  // ----- what a parallel run leaves alone -----

  lemma AnswerFrame(plan: Plan, st: State, x: Id, source: Source, apart: set<Id>, vars: set<Id>)
    requires HandlersWriteOnly(plan, vars) && x in plan.nodes && x in apart && vars <= apart
    ensures Answer(plan, st, x, source).st.context - apart == st.context - apart
  {
    var n := plan.nodes[x];
    var after := Answer(plan, st, x, source).st.context;
    match source {
      case Pool(snapshot) =>
        ApplyFrame(plan, st, x, PoolResult(plan, x, snapshot));
        AgreeWider(after, st.context, {x}, apart);
      case Live =>
        var e := Exec(plan, n, st.context);
        ExecWrites(plan, n, st.context, vars);
        if e.Executed? {
          ApplyFrame(plan, st.(context := e.ctx), x, e);
          AgreeWider(after, e.ctx, {x}, apart);
          AgreeWider(e.ctx, st.context, vars, apart);
        }
    }
  }

  lemma {:induction false} AnswersFrame(
    plan: Plan, st: State, active: seq<Id>, source: Source, apart: set<Id>, vars: set<Id>)
    requires HandlersWriteOnly(plan, vars) && vars <= apart && forall x :: x in active ==> x in plan.nodes && x in apart
    ensures AnswerAll(plan, Running(st), active, source).st.context - apart == st.context - apart
  {
    if |active| == 0 {
    } else {
      var front, x := active[..|active| - 1], active[|active| - 1];
      assert x in active && forall y :: y in front ==> y in active;
      AnswersFrame(plan, st, front, source, apart, vars);
      var r := AnswerAll(plan, Running(st), front, source);
      if r.Running? {
        AnswerFrame(plan, r.st, x, source, apart, vars);
      }
    }
  }

  // `apart` covers the nodes of a level that run.
  ghost predicate Covered(plan: Plan, skip: set<Id>, level: seq<Id>, apart: set<Id>) {
    ActiveSet(plan, skip, level) <= apart
  }

  lemma FilterFrame(plan: Plan, st: State, level: seq<Id>, apart: set<Id>)
    requires WellFormed(plan) && (forall x :: x in level ==> x in plan.nodes) && Covered(plan, st.skip, level, apart)
    ensures Filter(plan, st, level).st.context - apart == st.context - apart
  {
    FilterIs(plan, st, level);
    AgreeWider(Filter(plan, st, level).st.context, st.context, ActiveSet(plan, st.skip, level), apart);
  }

  lemma LevelFrame(plan: Plan, st: State, level: seq<Id>, apart: set<Id>, vars: set<Id>)
    requires WellFormed(plan) && (forall x :: x in level ==> x in plan.nodes) && Covered(plan, st.skip, level, apart)
    requires HandlersWriteOnly(plan, vars) && vars <= apart
    ensures ParLevel(plan, st, level).st.context - apart == st.context - apart
  {
    var f := Filter(plan, st, level);
    FilterFrame(plan, st, level, apart);
    FilterIs(plan, st, level);
    FilterActive(plan, st, level);
    ActiveIff(plan, st.skip, level);
    forall x | x in f.active
      ensures x in apart
    {
      assert x in ActiveSet(plan, st.skip, level);
    }
    AnswersFrame(plan, AllBegun(f), f.active, SourceOf(f), apart, vars);
  }

  // From level `k` on, whatever `apart` leaves out stays as it is.
  lemma {:induction false} LevelsFrame(plan: Plan, st: State, k: nat, m: nat, apart: set<Id>, vars: set<Id>)
    requires WellFormed(plan) && HandlersWriteOnly(plan, vars) && vars <= apart && k <= m <= |LevelsOf(plan.net)|
    requires forall j :: k <= j < m ==> Covered(plan, ParAt(plan, st, j).st.skip, LevelsOf(plan.net)[j], apart)
    ensures ParAt(plan, st, m).st.context - apart == ParAt(plan, st, k).st.context - apart
    decreases m - k
  {
    if m == k {
    } else {
      LevelsFrame(plan, st, k, m - 1, apart, vars);
      ParNext(plan, st, m - 1);
      var r := ParAt(plan, st, m - 1);
      if r.Running? {
        LevelIsDistinct(plan.net, m - 1);
        LevelFrame(plan, r.st, LevelsOf(plan.net)[m - 1], apart, vars);
      }
    }
  }

  // A level all of whose nodes are in `apart` or skipped from the start.
  lemma CoveredFromStart(plan: Plan, st: State, j: nat, apart: set<Id>)
    requires WellFormed(plan) && j < |LevelsOf(plan.net)|
    requires forall x :: x in LevelsOf(plan.net)[j] ==> x in apart || x in st.skip
    ensures Covered(plan, ParAt(plan, st, j).st.skip, LevelsOf(plan.net)[j], apart)
  {
    ParSkipGrows(plan, st, 0, j);
    assert ParAt(plan, st, 0) == Running(st);
  }

  // In either mode a run leaves alone what the context holds for nodes that are skipped from
  // the start or not scheduled, variables apart, and its skip set only grows.
  lemma ContextFrame(plan: Plan, st: State, parallel: bool, vars: set<Id>)
    requires WellFormed(plan) && HandlersWriteOnly(plan, vars)
    ensures var written := Elements(Order(plan.net)) - st.skip + vars;
            RunIn(plan, st, parallel).st.context - written == st.context - written
    ensures st.skip <= RunIn(plan, st, parallel).st.skip
  {
    var written, levels := Elements(Order(plan.net)) - st.skip + vars, LevelsOf(plan.net);
    if parallel {
      forall j | 0 <= j < |levels|
        ensures Covered(plan, ParAt(plan, st, j).st.skip, levels[j], written)
      {
        LevelIsDistinct(plan.net, j);
        CoveredFromStart(plan, st, j, written);
      }
      assert ParAt(plan, st, 0) == Running(st);
      LevelsFrame(plan, st, 0, |levels|, written, vars);
      ParSkipGrows(plan, st, 0, |levels|);
      ParEnds(plan, st);
    } else {
      WalkFrame(plan, st, Order(plan.net), vars);
    }
  }

  // ----- where an executed trace came from -----

  // In the sequential walk: the run of its node against the context of the moment.
  ghost predicate Origin(plan: Plan, st: State, order: seq<Id>, k: nat, t: Trace) {
    && k < |order| && order[k] == t.node && t.node in plan.nodes
    && var r := SeqRun(plan, Running(st), order[..k]);
       && r.Running?
       && FateOf(plan.nodes[t.node], r.st.skip).Active?
       && var e := Exec(plan, plan.nodes[t.node], r.st.context[t.node := SeqInput(plan, t.node, r.st.context)]);
          e.Executed? && e.trace == t
  }

  lemma {:induction false} TraceOrigin(plan: Plan, st: State, order: seq<Id>, t: Trace) returns (k: nat)
    requires WellFormed(plan) && st.traces == []
    requires t in SeqRun(plan, Running(st), order).st.traces && !t.status.Skipped?
    ensures Origin(plan, st, order, k, t) && t in SeqRun(plan, Running(st), order[..k + 1]).st.traces
  {
    k := |order| - 1;
    var rest, x := order[..k], order[k];
    var r := SeqRun(plan, Running(st), rest);
    if t in r.st.traces {
      k := TraceOrigin(plan, st, rest, t);
      assert rest[..k] == order[..k] && rest[..k + 1] == order[..k + 1];
    } else {
      StepTrace(plan, r.st, x, t);
      assert order[..k + 1] == order;
    }
  }

  lemma StepTrace(plan: Plan, st: State, x: Id, t: Trace)
    requires WellFormed(plan) && t in SeqStep(plan, st, x).st.traces && t !in st.traces && !t.status.Skipped?
    ensures x in plan.nodes && t.node == x && FateOf(plan.nodes[x], st.skip).Active? && Runs(plan.env, plan.nodes[x])
    ensures t == Exec(plan, plan.nodes[x], st.context[x := SeqInput(plan, x, st.context)]).trace
  {
  }

  lemma {:induction false} FilterTraces(plan: Plan, st: State, level: seq<Id>, t: Trace)
    requires t in Filter(plan, st, level).st.traces && !t.status.Skipped?
    ensures t in st.traces
  {
    if |level| == 0 {
    } else {
      FilterTraces(plan, st, level[..|level| - 1], t);
    }
  }

  lemma {:induction false} PoolTrace(plan: Plan, run: Run, active: seq<Id>, c: Context, t: Trace) returns (x: Id)
    requires forall y :: y in active ==> y in plan.nodes
    requires t in AnswerAll(plan, run, active, Pool(c)).st.traces && t !in run.st.traces
    ensures x in active && t == PoolResult(plan, x, c).trace
  {
    x := active[|active| - 1];
    if t in AnswerAll(plan, run, active[..|active| - 1], Pool(c)).st.traces {
      x := PoolTrace(plan, run, active[..|active| - 1], c, t);
    }
  }

  // In a level, on the fast path or in the pool: the run of its node against what the filter
  // pass left.
  lemma LevelTrace(plan: Plan, st: State, level: seq<Id>, t: Trace)
    requires WellFormed(plan) && forall x :: x in level ==> x in plan.nodes
    requires t in ParLevel(plan, st, level).st.traces && t !in st.traces && !t.status.Skipped?
    ensures t.node in level && FateOf(plan.nodes[t.node], st.skip).Active?
    ensures t == PoolResult(plan, t.node, Filter(plan, st, level).st.context).trace
  {
    var f := Filter(plan, st, level);
    FilterIs(plan, st, level);
    FilterActive(plan, st, level);
    ActiveIff(plan, st.skip, level);
    if t in f.st.traces {
      FilterTraces(plan, st, level, t);
      assert false;
    }
    var x := AnswerTrace(plan, f, t);
    PoolTraceNode(plan, x, f.st.context);
  }

  lemma PoolTraceNode(plan: Plan, x: Id, c: Context)
    requires WellFormed(plan) && x in plan.nodes
    ensures PoolResult(plan, x, c).trace.node == x
  {
  }

  lemma AnswerTrace(plan: Plan, f: Filtered, t: Trace) returns (x: Id)
    requires forall y :: y in f.active ==> y in plan.nodes
    requires |f.active| > 0 && t !in f.st.traces
    requires t in AnswerAll(plan, Running(AllBegun(f)), f.active, SourceOf(f)).st.traces
    ensures x in f.active && t == PoolResult(plan, x, f.st.context).trace
  {
    if SourceOf(f).Live? {
      x := f.active[0];
      LiveTrace(plan, AllBegun(f), x, t);
      AnswerOnly(plan, AllBegun(f), f.active, Live);
    } else {
      x := PoolTrace(plan, Running(AllBegun(f)), f.active, f.st.context, t);
    }
  }

  lemma LiveTrace(plan: Plan, st: State, x: Id, t: Trace)
    requires x in plan.nodes && t !in st.traces
    ensures t in RunLive(plan, st, x).st.traces ==> t == PoolResult(plan, x, st.context).trace
  {
  }

  ghost predicate ParOrigin(plan: Plan, st: State, k: nat, t: Trace) {
    && k < |LevelsOf(plan.net)| && t.node in LevelsOf(plan.net)[k] && t.node in plan.nodes
    && var r := ParAt(plan, st, k);
       && r.Running? && FateOf(plan.nodes[t.node], r.st.skip).Active?
       && t == PoolResult(plan, t.node, Filter(plan, r.st, LevelsOf(plan.net)[k]).st.context).trace
  }

  lemma {:induction false} ParTraceOrigin(plan: Plan, st: State, m: nat, t: Trace) returns (k: nat)
    requires WellFormed(plan) && st.traces == [] && m <= |LevelsOf(plan.net)|
    requires t in ParAt(plan, st, m).st.traces && !t.status.Skipped?
    ensures k < m && ParOrigin(plan, st, k, t) && t in ParAt(plan, st, k + 1).st.traces
  {
    assert ParAt(plan, st, 0) == Running(st);
    k := m - 1;
    if t in ParAt(plan, st, k).st.traces {
      k := ParTraceOrigin(plan, st, k, t);
    } else {
      NewTraceOrigin(plan, st, k, t);
    }
  }

  lemma NewTraceOrigin(plan: Plan, st: State, k: nat, t: Trace)
    requires WellFormed(plan) && k < |LevelsOf(plan.net)|
    requires t in ParAt(plan, st, k + 1).st.traces && t !in ParAt(plan, st, k).st.traces && !t.status.Skipped?
    ensures ParOrigin(plan, st, k, t)
  {
    ParNext(plan, st, k);
    LevelIsDistinct(plan.net, k);
    LevelTrace(plan, ParAt(plan, st, k).st, LevelsOf(plan.net)[k], t);
  }

  // ----- what an executed node found -----

  lemma LaterIsHidden(net: Net, order: seq<Id>, k: nat, x: Id)
    requires Scheduled(net, order) && k < |order| && x in order[k..]
    ensures x in Hidden(net, order[k])
  {
    var i :| 0 <= i < |order[k..]| && order[k..][i] == x;
    var j: nat := k + i;
    assert order[j] == x && ScheduledIff(net, order, x);
    IndexUnique(order, k);
    IndexUnique(order, j);
    if Reaches(net, x, order[k]) {
      UpstreamIsEarlier(net, order, x, order[k]);
    }
  }

  // From the moment the walk comes to a node, what leads to the node stays as it is.
  lemma ViewFromBefore(plan: Plan, st: State, k: nat, vars: set<Id>)
    requires WellFormed(plan) && HandlersWriteOnly(plan, vars) && k < |Order(plan.net)|
    requires SeqRun(plan, Running(st), Order(plan.net)[..k]).Running?
    ensures var order := Order(plan.net);
            var apart := Hidden(plan.net, order[k]) + vars;
            SeqRun(plan, Running(st), order).st.context - apart ==
                SeqRun(plan, Running(st), order[..k]).st.context - apart
  {
    var order := Order(plan.net);
    var r, rest := SeqRun(plan, Running(st), order[..k]), order[k..];
    SeqRunSplit(plan, Running(st), order, k);
    WalkFrame(plan, r.st, rest, vars);
    RestIsHidden(plan.net, k);
    var written := Elements(rest) - r.st.skip + vars;
    AgreeWider(SeqRun(plan, r, rest).st.context, r.st.context, written, Hidden(plan.net, order[k]) + vars);
  }

  lemma SeqRunSplit(plan: Plan, run: Run, order: seq<Id>, k: nat)
    requires k <= |order|
    ensures SeqRun(plan, run, order) == SeqRun(plan, SeqRun(plan, run, order[..k]), order[k..])
  {
    assert order == order[..k] + order[k..];
    SeqRunConcat(plan, run, order[..k], order[k..]);
  }

  lemma RestIsHidden(net: Net, k: nat)
    requires Distinct(net.ids) && k < |Order(net)|
    ensures Elements(Order(net)[k..]) <= Hidden(net, Order(net)[k])
  {
    OrderScheduled(net);
    forall x | x in Elements(Order(net)[k..])
      ensures x in Hidden(net, Order(net)[k])
    {
      LaterIsHidden(net, Order(net), k, x);
    }
  }

  // All levels from its own on are nothing to a node.
  lemma LowerIsHidden(net: Net, k: nat, j: nat, x: Id)
    requires Distinct(net.ids) && k <= j < |LevelsOf(net)| && x in LevelsOf(net)[k]
    ensures Elements(LevelsOf(net)[j]) <= Hidden(net, x)
  {
    LevelIsDistinct(net, j);
    forall z | z in LevelsOf(net)[j]
      ensures !Reaches(net, z, x)
    {
      NotUpstream(net, k, j, x, z);
    }
  }

  // The same for the walk over the levels.
  lemma ParViewFromBefore(plan: Plan, st: State, k: nat, x: Id, vars: set<Id>)
    requires WellFormed(plan) && HandlersWriteOnly(plan, vars)
    requires k < |LevelsOf(plan.net)| && x in LevelsOf(plan.net)[k]
    ensures var apart := Hidden(plan.net, x) + vars;
            && RunByLevels(plan, st).st.context - apart == ParAt(plan, st, k).st.context - apart
            && Filter(plan, ParAt(plan, st, k).st, LevelsOf(plan.net)[k]).st.context - apart
               == ParAt(plan, st, k).st.context - apart
  {
    var levels, apart := LevelsOf(plan.net), Hidden(plan.net, x) + vars;
    forall j | k <= j < |levels|
      ensures Covered(plan, ParAt(plan, st, j).st.skip, levels[j], apart)
    {
      LowerIsHidden(plan.net, k, j, x);
    }
    LevelsFrame(plan, st, k, |levels|, apart, vars);
    ParEnds(plan, st);
    LevelIsDistinct(plan.net, k);
    FilterFrame(plan, ParAt(plan, st, k).st, levels[k], apart);
  }

  ghost predicate OutputStored(st: State, t: Trace) {
    t.node in st.context && t.node in st.results && st.context[t.node] == st.results[t.node]
  }

  ghost predicate StepStored(before: State, after: State, x: Id, vars: set<Id>) {
    && (forall y :: y != x && y !in vars && y in before.context ==>
         y in after.context && after.context[y] == before.context[y])
    && (forall y :: y != x && y in before.results ==> y in after.results && after.results[y] == before.results[y])
    && (forall t :: t in after.traces && t !in before.traces ==>
         t.node == x && (t.status.Skipped? || OutputStored(after, t)))
  }

  // What a node's run stores: its trace, and the same output in the context and the results.
  lemma AppliedStored(plan: Plan, st: State, n: Node, ctx: Context)
    requires Runs(plan.env, n)
    ensures var e := Exec(plan, n, ctx);
            var after := Apply(plan, st, n.id, e).st;
            && after.traces == st.traces + [e.trace] && e.trace.node == n.id && OutputStored(after, e.trace)
            && after.results == st.results[n.id := after.results[n.id]]
  {
    ExecFacts(plan, n, ctx);
  }

  lemma StepRecords(plan: Plan, st: State, x: Id)
    requires WellFormed(plan) && x in plan.nodes
    ensures var after := SeqStep(plan, st, x).st;
            && (after.traces == st.traces
                || exists t :: after.traces == st.traces + [t] && t.node == x
                               && (t.status.Skipped? || OutputStored(after, t)))
            && forall y :: y != x && y in st.results ==> y in after.results && after.results[y] == st.results[y]
  {
    var n := plan.nodes[x];
    var begun := Begin(st, x, SeqInput(plan, x, st.context));
    if FateOf(n, st.skip).Active? && Runs(plan.env, n) {
      var e := Exec(plan, n, begun.context);
      AppliedStored(plan, begun.(context := e.ctx), n, begun.context);
    }
  }

  // A step touches the entries of its own node and variables only, and stores what it traces.
  lemma StepStores(plan: Plan, st: State, x: Id, vars: set<Id>)
    requires WellFormed(plan) && HandlersWriteOnly(plan, vars) && x in plan.nodes
    ensures StepStored(st, SeqStep(plan, st, x).st, x, vars)
  {
    var after := SeqStep(plan, st, x).st;
    StepFrame(plan, st, x, vars);
    StepRecords(plan, st, x);
    forall y | y != x && y !in vars && y in st.context
      ensures y in after.context && after.context[y] == st.context[y]
    {
      AgreeAt(after.context, st.context, {x} + vars, y);
    }
  }

  lemma {:induction false} WalkOutputsStay(plan: Plan, st: State, order: seq<Id>, vars: set<Id>)
    requires WellFormed(plan) && WritesVariables(plan, vars) && Blank(st) && Distinct(order)
    ensures forall t :: t in SeqRun(plan, Running(st), order).st.traces ==>
              t.node in order && t.node in plan.nodes
              && (t.status.Skipped? || OutputStored(SeqRun(plan, Running(st), order).st, t))
  {
    if |order| == 0 {
    } else {
      var rest, x := order[..|order| - 1], order[|order| - 1];
      WalkOutputsStay(plan, st, rest, vars);
      var r := SeqRun(plan, Running(st), rest);
      if r.Running? && x in plan.nodes {
        var after := SeqStep(plan, r.st, x).st;
        StepStores(plan, r.st, x, vars);
        forall t | t in after.traces
          ensures t.node in order && t.node in plan.nodes && (t.status.Skipped? || OutputStored(after, t))
        {
          if t in r.st.traces {
            assert t.node in rest && t.node != x && t.node !in vars;
          }
        }
      }
    }
  }

  // ----- outputs in a parallel run -----

  // Every executed node has the same output in the context and among the results.
  ghost predicate Mirrored(st: State) {
    forall t :: t in st.traces && !t.status.Skipped? ==> OutputStored(st, t)
  }

  lemma MirrorFilter(plan: Plan, st: State, level: seq<Id>)
    requires WellFormed(plan) && (forall x :: x in level ==> x in plan.nodes) && Mirrored(st)
    requires forall t :: t in st.traces ==> t.node !in level
    ensures Mirrored(Filter(plan, st, level).st)
  {
    var f := Filter(plan, st, level);
    FilterIs(plan, st, level);
    forall t | t in f.st.traces && !t.status.Skipped?
      ensures OutputStored(f.st, t)
    {
      FilterTraces(plan, st, level, t);
      AgreeAt(f.st.context, st.context, ActiveSet(plan, st.skip, level), t.node);
    }
  }

  // Applying a finished run stores its output on both sides and touches no other node's.
  lemma ApplyMirrors(plan: Plan, st: State, x: Id, e: Executed)
    requires Mirrored(st) && e.Executed? && e.trace.node == x
    ensures Mirrored(Apply(plan, st, x, e).st)
  {
    var after := Apply(plan, st, x, e).st;
    forall t | t in after.traces && !t.status.Skipped?
      ensures OutputStored(after, t)
    {
      assert t != e.trace ==> t in st.traces;
    }
  }

  lemma AnswerMirrors(plan: Plan, st: State, x: Id, source: Source, vars: set<Id>)
    requires WellFormed(plan) && HandlersWriteOnly(plan, vars) && x in plan.nodes && Mirrored(st)
    requires forall t :: t in st.traces ==> t.node !in vars
    ensures Mirrored(Answer(plan, st, x, source).st)
    ensures forall t :: t in Answer(plan, st, x, source).st.traces ==> t in st.traces || t.node == x
  {
    var n, c := plan.nodes[x], ContextOf(source, st);
    if Runs(plan.env, n) {
      ExecFacts(plan, n, c);
    }
    match source {
      case Pool(snapshot) => ApplyMirrors(plan, st, x, PoolResult(plan, x, snapshot));
      case Live =>
        var e := Exec(plan, n, c);
        if e.Executed? {
          ExecWrites(plan, n, c, vars);
          var base := st.(context := e.ctx);
          forall t | t in st.traces && !t.status.Skipped?
            ensures OutputStored(base, t)
          {
            AgreeAt(e.ctx, c, vars, t.node);
          }
          ApplyMirrors(plan, base, x, e);
        }
    }
  }

  lemma {:induction false} AnswersMirror(plan: Plan, st: State, active: seq<Id>, source: Source, vars: set<Id>)
    requires WellFormed(plan) && HandlersWriteOnly(plan, vars) && Mirrored(st)
    requires forall t :: t in st.traces ==> t.node !in vars
    requires forall x :: x in active ==> x in plan.nodes && x !in vars
    ensures var after := AnswerAll(plan, Running(st), active, source).st;
            Mirrored(after) && forall t :: t in after.traces ==> t.node !in vars
  {
    if |active| == 0 {
    } else {
      var front, x := active[..|active| - 1], active[|active| - 1];
      assert x in active && forall y :: y in front ==> y in active;
      AnswersMirror(plan, st, front, source, vars);
      var r := AnswerAll(plan, Running(st), front, source);
      if r.Running? {
        AnswerMirrors(plan, r.st, x, source, vars);
      }
    }
  }

  lemma LevelMirrors(plan: Plan, st: State, k: nat, vars: set<Id>)
    requires WellFormed(plan) && WritesVariables(plan, vars) && Mirrored(st) && k < |LevelsOf(plan.net)|
    requires Above(plan.net, k, TracedNodes(st.traces))
    ensures Mirrored(ParLevel(plan, st, LevelsOf(plan.net)[k]).st)
  {
    var level := LevelsOf(plan.net)[k];
    var f := Filter(plan, st, level);
    LevelIsDistinct(plan.net, k);
    forall t | t in st.traces
      ensures t.node !in level && t.node in plan.net.ids
    {
      TracedMember(st.traces, t);
      TracedIsElsewhere(plan.net, k, TracedNodes(st.traces), t.node);
    }
    MirrorFilter(plan, st, level);
    FilterIs(plan, st, level);
    FilterActive(plan, st, level);
    forall t | t in f.st.traces
      ensures t.node !in vars
    {
      FilterTracesAre(plan, st, level, t);
    }
    AnswersMirror(plan, AllBegun(f), f.active, SourceOf(f), vars);
  }

  lemma TracedIsElsewhere(net: Net, k: nat, xs: seq<Id>, x: Id)
    requires Distinct(net.ids) && k < |LevelsOf(net)| && Above(net, k, xs) && x in xs
    ensures x !in LevelsOf(net)[k] && x in net.ids
  {
    var levels := LevelsOf(net);
    assert x in Elements(xs);
    FlattenMember(levels[..k], x);
    var j :| 0 <= j < k && x in levels[..k][j];
    LevelIsDistinct(net, j);
    if x in levels[k] {
      LevelIsUnique(net, j, k, x);
    }
  }

  lemma {:induction false} FilterTracesAre(plan: Plan, st: State, level: seq<Id>, t: Trace)
    requires WellFormed(plan) && t in Filter(plan, st, level).st.traces
    ensures t in st.traces || (t.node in level && t.node in plan.nodes)
  {
    if |level| == 0 {
    } else {
      var front := level[..|level| - 1];
      if t in Filter(plan, st, front).st.traces {
        FilterTracesAre(plan, st, front, t);
      }
    }
  }

  lemma {:induction false} LevelsMirror(plan: Plan, st: State, k: nat, vars: set<Id>)
    requires WellFormed(plan) && WritesVariables(plan, vars) && Blank(st) && k <= |LevelsOf(plan.net)|
    ensures Mirrored(ParAt(plan, st, k).st)
  {
    if k == 0 {
    } else {
      LevelsMirror(plan, st, k - 1, vars);
      ParNext(plan, st, k - 1);
      LevelsKeepBooks(plan, st, k - 1);
      var r := ParAt(plan, st, k - 1);
      if r.Running? {
        LevelMirrors(plan, r.st, k - 1, vars);
      }
    }
  }

  // ----- both modes: inputs and outputs -----

  lemma InputsReserved(plan: Plan, n: Id, vars: set<Id>)
    requires WellFormed(plan) && n in plan.net.ids && vars !! Reserved(plan.net)
    ensures Hidden(plan.net, n) + vars !! Inputs(plan.net, n)
  {
    InputsVisible(plan.net, n);
    forall e | e in plan.net.edges
      ensures e.source in Reserved(plan.net)
    {
    }
  }

  // Its own entry is nothing a scheduled node looks at.
  lemma OwnEntryUnseen(plan: Plan, x: Id, c: Context, inp: Json, vars: set<Id>)
    requires WellFormed(plan) && x in Order(plan.net)
    ensures var apart := Hidden(plan.net, x) + vars; c[x := inp] - apart == c - apart
  {
    OrderInNet(plan.net);
    ScheduledIsNoAncestorOfItself(plan.net, x);
    assert x in Hidden(plan.net, x) + vars;
  }

  // Every executed trace is that of its node's run, or of its crash in the pool, against some
  // context.
  lemma TraceIsRun(plan: Plan, st: State, parallel: bool, t: Trace) returns (c: Context)
    requires WellFormed(plan) && st.traces == []
    requires t in RunIn(plan, st, parallel).st.traces && !t.status.Skipped?
    ensures t.node in plan.nodes && t == PoolResult(plan, t.node, c).trace
  {
    if parallel {
      ParEnds(plan, st);
      var k := ParTraceOrigin(plan, st, |LevelsOf(plan.net)|, t);
      c := Filter(plan, ParAt(plan, st, k).st, LevelsOf(plan.net)[k]).st.context;
    } else {
      var k := TraceOrigin(plan, st, Order(plan.net), t);
      var before := SeqRun(plan, Running(st), Order(plan.net)[..k]).st.context;
      c := before[t.node := SeqInput(plan, t.node, before)];
    }
  }

  // The context it found agrees with the final one on all that leads to the node.
  lemma FoundContext(plan: Plan, st: State, parallel: bool, t: Trace, vars: set<Id>) returns (c: Context)
    requires WellFormed(plan) && HandlersWriteOnly(plan, vars) && st.traces == []
    requires t in RunIn(plan, st, parallel).st.traces && !t.status.Skipped?
    ensures t.node in plan.nodes && t == PoolResult(plan, t.node, c).trace
    ensures var apart := Hidden(plan.net, t.node) + vars; c - apart == RunIn(plan, st, parallel).st.context - apart
  {
    if parallel {
      var levels := LevelsOf(plan.net);
      ParEnds(plan, st);
      var k := ParTraceOrigin(plan, st, |levels|, t);
      c := Filter(plan, ParAt(plan, st, k).st, levels[k]).st.context;
      ParViewFromBefore(plan, st, k, t.node, vars);
    } else {
      var order := Order(plan.net);
      var k := TraceOrigin(plan, st, order, t);
      var before := SeqRun(plan, Running(st), order[..k]).st.context;
      c := before[t.node := SeqInput(plan, t.node, before)];
      ViewFromBefore(plan, st, k, vars);
      OwnEntryUnseen(plan, t.node, before, SeqInput(plan, t.node, before), vars);
    }
  }

  lemma OutputsStay(plan: Plan, st: State, parallel: bool, t: Trace, vars: set<Id>)
    requires WellFormed(plan) && WritesVariables(plan, vars) && Blank(st)
    requires t in RunIn(plan, st, parallel).st.traces && !t.status.Skipped?
    ensures OutputStored(RunIn(plan, st, parallel).st, t)
  {
    if parallel {
      LevelsMirror(plan, st, |LevelsOf(plan.net)|, vars);
      ParEnds(plan, st);
    } else {
      OrderScheduled(plan.net);
      WalkOutputsStay(plan, st, Order(plan.net), vars);
    }
  }

  // Whatever a run executed was fed by final outputs, in either mode and whether it completed
  // or not: its recorded input is what the source of its first edge finally holds (the payload
  // for a root, an empty object if that source was skipped), and what it stored is still there.
  lemma InputsAreFinalOutputs(plan: Plan, st: State, parallel: bool, t: Trace, vars: set<Id>)
    requires WellFormed(plan) && WritesVariables(plan, vars) && Blank(st)
    requires t in RunIn(plan, st, parallel).st.traces && !t.status.Skipped?
    ensures t.node in plan.nodes && OutputStored(RunIn(plan, st, parallel).st, t)
    ensures Runs(plan.env, plan.nodes[t.node]) ==>
              t.input == ExecInput(plan.net.edges, t.node, RunIn(plan, st, parallel).st.context)
  {
    var end := RunIn(plan, st, parallel).st;
    OutputsStay(plan, st, parallel, t, vars);
    var c := FoundContext(plan, st, parallel, t, vars);
    InputsReserved(plan, t.node, vars);
    ExecInputLocal(plan.net, t.node, c, end.context, Hidden(plan.net, t.node) + vars);
    if Runs(plan.env, plan.nodes[t.node]) {
      ExecFacts(plan, plan.nodes[t.node], c);
    }
  }

  // A node whose handler reads upstream outputs only would have the same run again, or the same
  // crash, on the final context of the run.
  lemma TracesAreStable(plan: Plan, st: State, parallel: bool, t: Trace, vars: set<Id>)
    requires WellFormed(plan) && WritesVariables(plan, vars) && Blank(st)
    requires t in RunIn(plan, st, parallel).st.traces && !t.status.Skipped?
    requires t.node in plan.nodes && Ignores(plan.env, plan.nodes[t.node], Hidden(plan.net, t.node) + vars)
    ensures t == PoolResult(plan, t.node, RunIn(plan, st, parallel).st.context).trace
  {
    var c := FoundContext(plan, st, parallel, t, vars);
    InputsReserved(plan, t.node, vars);
    var apart := Hidden(plan.net, t.node) + vars;
    ExecLocal(plan, plan.nodes[t.node], c, RunIn(plan, st, parallel).st.context, apart, apart);
  }

  // A run leaves a node after which it went on with the output of its trace, unless it is a loop.
  lemma FinalOutputOf(plan: Plan, st: State, parallel: bool, t: Trace, vars: set<Id>)
    requires WellFormed(plan) && WritesVariables(plan, vars) && Blank(st)
    requires t in RunIn(plan, st, parallel).st.traces && !t.status.Skipped? && WentOn(plan, t)
    requires t.node in plan.nodes && Runs(plan.env, plan.nodes[t.node])
    ensures t.node in RunIn(plan, st, parallel).st.context
    ensures RunIn(plan, st, parallel).st.context[t.node] == t.output <==> !IsLoop(t.output)
  {
    OutputsStay(plan, st, parallel, t, vars);
    TraceBooked(plan, st, parallel, t);
  }

  // ----- a node that others were traced after -----

  lemma WalkTracesPrefix(plan: Plan, st: State, i: nat, t: Trace)
    requires WellFormed(plan) && Blank(st) && i <= |Order(plan.net)|
    requires t in SeqRun(plan, Running(st), Order(plan.net)[..i]).st.traces
    ensures t.node in Order(plan.net)[..i]
  {
    var order := Order(plan.net);
    OrderScheduled(plan.net);
    RunKeepsBooks(plan, order, i, st);
    var r := SeqRun(plan, Running(st), order[..i]);
    TracedMember(r.st.traces, t);
    if r.Stopped? {
      var j :| 0 <= j < i && StoppedAt(plan, st.skip, order, j, r.st, r.failure);
      assert t.node in order[..j + 1];
    }
  }

  // The walk went on after a node if a node downstream of it was traced.
  lemma WalkWentOn(plan: Plan, st: State, t: Trace, later: Trace)
    requires WellFormed(plan) && Blank(st) && !t.status.Skipped? && Reaches(plan.net, t.node, later.node)
    requires t in RunInOrder(plan, st).st.traces && later in RunInOrder(plan, st).st.traces
    ensures WentOn(plan, t) && t.node in plan.nodes && Runs(plan.env, plan.nodes[t.node])
  {
    var order := Order(plan.net);
    var i := TraceOrigin(plan, st, order, t);
    var r := SeqRun(plan, Running(st), order[..i + 1]);
    OrderScheduled(plan.net);
    TracedInOrder(plan, st, false, later);
    UpstreamIsEarlier(plan.net, order, t.node, later.node);
    IndexUnique(order, i);
    if r.Stopped? {
      SeqRunStoppedAt(plan, Running(st), order, i + 1);
      WalkTracesPrefix(plan, st, i + 1, later);
      assert false;
    }
    RunKeepsBooks(plan, order, i + 1, st);
    assert TraceOk(plan, r.st.skip, r.st.results, t);
  }

  // The same for the levels.
  lemma LevelsWentOn(plan: Plan, st: State, t: Trace, later: Trace)
    requires WellFormed(plan) && Blank(st) && !t.status.Skipped? && Reaches(plan.net, t.node, later.node)
    requires t in RunByLevels(plan, st).st.traces && later in RunByLevels(plan, st).st.traces
    ensures WentOn(plan, t) && t.node in plan.nodes && Runs(plan.env, plan.nodes[t.node])
  {
    var levels := LevelsOf(plan.net);
    ParEnds(plan, st);
    var k := ParTraceOrigin(plan, st, |levels|, t);
    if ParAt(plan, st, k + 1).Stopped? {
      ParRunStopped(plan, Running(st), levels, k + 1);
      NothingBelow(plan, st, k, t.node, later);
    }
    ParTraceWentOn(plan, st, k + 1, t);
  }

  lemma ParTraceWentOn(plan: Plan, st: State, k: nat, t: Trace)
    requires WellFormed(plan) && Blank(st) && !t.status.Skipped?
    requires k <= |LevelsOf(plan.net)| && ParAt(plan, st, k).Running? && t in ParAt(plan, st, k).st.traces
    ensures WentOn(plan, t) && t.node in plan.nodes && Runs(plan.env, plan.nodes[t.node])
  {
    var r := ParAt(plan, st, k);
    LevelsKeepBooks(plan, st, k);
    assert TraceOk(plan, r.st.skip, r.st.results, t);
  }

  // No trace of the levels up to that of a node is of a node downstream of it.
  lemma NothingBelow(plan: Plan, st: State, k: nat, x: Id, later: Trace)
    requires WellFormed(plan) && Blank(st) && k < |LevelsOf(plan.net)| && x in LevelsOf(plan.net)[k]
    requires later in ParAt(plan, st, k + 1).st.traces
    ensures !Reaches(plan.net, x, later.node)
  {
    LevelOfTrace(plan, st, k + 1, later);
    var j :| 0 <= j < k + 1 && later.node in LevelsOf(plan.net)[j];
    NotUpstream(plan.net, j, k, later.node, x);
  }

  lemma LevelOfTrace(plan: Plan, st: State, k: nat, t: Trace)
    requires WellFormed(plan) && Blank(st) && k <= |LevelsOf(plan.net)| && t in ParAt(plan, st, k).st.traces
    ensures exists j :: 0 <= j < k && t.node in LevelsOf(plan.net)[j]
  {
    var r := ParAt(plan, st, k);
    LevelsKeepBooks(plan, st, k);
    TracedMember(r.st.traces, t);
    assert t.node in Elements(TracedNodes(r.st.traces));
    FlattenMember(LevelsOf(plan.net)[..k], t.node);
    var j :| 0 <= j < k && t.node in LevelsOf(plan.net)[..k][j];
    assert t.node in LevelsOf(plan.net)[j];
  }

  // In either mode: a run went on after a node if a node downstream of it was traced.
  lemma UpstreamWentOn(plan: Plan, st: State, parallel: bool, t: Trace, later: Trace)
    requires WellFormed(plan) && Blank(st) && !t.status.Skipped? && Reaches(plan.net, t.node, later.node)
    requires t in RunIn(plan, st, parallel).st.traces && later in RunIn(plan, st, parallel).st.traces
    ensures WentOn(plan, t) && t.node in plan.nodes && Runs(plan.env, plan.nodes[t.node])
  {
    if parallel {
      LevelsWentOn(plan, st, t, later);
    } else {
      WalkWentOn(plan, st, t, later);
    }
  }

  // ----- nodes that were passed over -----

  // Whether and what two contexts hold at `x`.
  ghost predicate SameAt(c1: Context, c2: Context, x: Id) {
    (x in c1 <==> x in c2) && (x in c1 ==> c1[x] == c2[x])
  }

  lemma {:induction false} WalkMisses(plan: Plan, run: Run, order: seq<Id>, x: Id, vars: set<Id>)
    requires HandlersWriteOnly(plan, vars) && x !in vars && x !in order
    ensures SameAt(SeqRun(plan, run, order).st.context, run.st.context, x)
  {
    if |order| == 0 {
    } else {
      var rest, y := order[..|order| - 1], order[|order| - 1];
      assert y in order && x !in rest;
      WalkMisses(plan, run, rest, x, vars);
      var r := SeqRun(plan, run, rest);
      if r.Running? && y in plan.nodes {
        StepFrame(plan, r.st, y, vars);
        AgreeAt(SeqStep(plan, r.st, y).st.context, r.st.context, {y} + vars, x);
      }
    }
  }

  // The walk passes over what the final skip set passes over.
  lemma WalkKeepsInert(plan: Plan, st: State, k: nat, vars: set<Id>)
    requires WellFormed(plan) && HandlersWriteOnly(plan, vars) && k < |Order(plan.net)|
    requires Order(plan.net)[k] in plan.nodes && Order(plan.net)[k] !in vars
    requires FateOf(plan.nodes[Order(plan.net)[k]], RunInOrder(plan, st).st.skip).Inert?
    ensures SameAt(RunInOrder(plan, st).st.context, st.context, Order(plan.net)[k])
  {
    var order := Order(plan.net);
    var x, before, after := order[k], order[..k], order[k + 1..];
    OrderScheduled(plan.net);
    IndexUnique(order, k);
    assert order == before + [x] + after && x !in before && x !in after;
    var r := SeqRun(plan, Running(st), before);
    WalkMisses(plan, Running(st), before, x, vars);
    SeqRunConcat(plan, Running(st), before + [x], after);
    SeqRunSnoc(plan, Running(st), before, x);
    RestSettled(plan, r, k);
    SeqRunSplit(plan, Running(st), order, k);
    var s := SeqRun(plan, Running(st), before + [x]);
    assert SameAt(s.st.context, r.st.context, x);
    WalkMisses(plan, s, after, x, vars);
  }

  // Nothing from a node on leads to the node.
  lemma RestSettled(plan: Plan, run: Run, k: nat)
    requires WellFormed(plan) && k < |Order(plan.net)|
    ensures var order := Order(plan.net);
            order[k] in SeqRun(plan, run, order[k..]).st.skip <==> order[k] in run.st.skip
  {
    var order := Order(plan.net);
    RestIsHidden(plan.net, k);
    forall z | z in order[k..]
      ensures !Reaches(plan.net, z, order[k])
    {
      assert z in Elements(order[k..]);
    }
    WalkSettled(plan, run, order[k..], order[k]);
  }

  // The levels of a run whose final skip set passes `x` over never run it.
  lemma InertThroughout(plan: Plan, st: State, j: nat, x: Id, apart: set<Id>)
    requires WellFormed(plan) && x in plan.nodes && FateOf(plan.nodes[x], RunByLevels(plan, st).st.skip).Inert?
    requires j < |LevelsOf(plan.net)| && Elements(plan.net.ids) - {x} <= apart
    ensures Covered(plan, ParAt(plan, st, j).st.skip, LevelsOf(plan.net)[j], apart)
  {
    LevelIsDistinct(plan.net, j);
    ParEnds(plan, st);
    if x in LevelsOf(plan.net)[j] {
      ParSkipSettled(plan, st, j, |LevelsOf(plan.net)|, x);
    }
  }

  // A run, completed or not, leaves alone what the context holds for a node it passed over.
  lemma PassedOverKept(plan: Plan, st: State, parallel: bool, t: Trace, vars: set<Id>)
    requires WellFormed(plan) && WritesVariables(plan, vars) && Blank(st)
    requires t in RunIn(plan, st, parallel).st.traces && t.status.Skipped?
    ensures t.output == Null && SameAt(RunIn(plan, st, parallel).st.context, st.context, t.node)
  {
    var end, x := RunIn(plan, st, parallel).st, t.node;
    EveryRunSkips(plan, st, parallel);
    TracedInOrder(plan, st, parallel, t);
    assert x in plan.net.ids;
    if parallel {
      var apart, levels := Elements(plan.net.ids) - {x} + vars, LevelsOf(plan.net);
      forall j | 0 <= j < |levels|
        ensures Covered(plan, ParAt(plan, st, j).st.skip, levels[j], apart)
      {
        InertThroughout(plan, st, j, x, apart);
      }
      assert ParAt(plan, st, 0) == Running(st);
      LevelsFrame(plan, st, 0, |levels|, apart, vars);
      ParEnds(plan, st);
      AgreeAt(end.context, st.context, apart, x);
    } else {
      var k :| 0 <= k < |Order(plan.net)| && Order(plan.net)[k] == x;
      WalkKeepsInert(plan, st, k, vars);
    }
  }
}
