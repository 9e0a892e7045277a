/** The two runners on values: `_run_sequential` node by node, `_run_parallel` level by
    level. A run carries the shared state and stops at the first failure that aborts. */
module Runner {
  import opened Nets
  import opened Kahn
  import opened Levels
  import opened Values
  import opened NodeExec
  import opened LoopBody

  // What the node callback is told.
  datatype Event = Started(node: Id) | Finished(trace: Trace)

  datatype State = State(context: Context, results: Context, traces: seq<Trace>, skip: set<Id>, events: seq<Event>)

  // `Crashed` is an exception that escapes `_exec_node` itself, `NotIterable` the one that
  // escapes the expansion of a loop whose items are no list, string or object.
  datatype Failure =
    | NodeFailed(node: Id, kind: string, attempts: nat, msg: string)
    | Crashed(node: Id, kind: string, text: string)
    | NotIterable(node: Id)

  datatype Run = Running(st: State) | Stopped(st: State, failure: Failure)

  const UI_ONLY := Obj(map["__ui_only" := Bool(true)])
  const DISABLED := Obj(map["__disabled" := Bool(true)])
  const SKIPPED := Obj(map["__skipped" := Bool(true)])

  // Why a node is passed over: the marker stored as its result, and the trace's remark.
  datatype Fate = Active | Inert(marker: Json, remark: Option<string>)

  function FateOf(n: Node, skip: set<Id>): Fate {
    if n.kind == "note" then Inert(UI_ONLY, None)
    else if n.disabled then Inert(DISABLED, None)
    else if n.id in skip then Inert(SKIPPED, Some("Branch not taken"))
    else Active
  }

  function PassOver(st: State, n: Node, fate: Fate, inp: Json): State
    requires fate.Inert?
  {
    st.(results := st.results[n.id := fate.marker],
        traces := st.traces + [BlankTrace(n, inp).(error := fate.remark)])
  }

  // The output of a node, in the context and among the results.
  function Keep(st: State, nid: Id, v: Json): State {
    st.(context := st.context[nid := v], results := st.results[nid := v])
  }

  // `_apply_node_result`, and the same steps inlined in `_run_sequential`.
  ghost function Apply(plan: Plan, st: State, nid: Id, e: Executed): Run
    requires e.Executed?
  {
    var events := st.events + [Finished(e.trace)];
    var st' := st.(skip := st.skip + e.delta, traces := st.traces + [e.trace], events := events);
    match e.signal
    case Abort(attempts, msg) =>
      Stopped(Keep(st', nid, Obj(map["__error" := Str(msg)])), NodeFailed(nid, e.trace.kind, attempts, msg))
    case Plain => Running(Keep(st', nid, e.out))
    case Expand(result) =>
      match Expanded(plan, nid, result, st.context[nid := e.out])
      case Some(out) => Running(Keep(st', nid, out))
      case None => Stopped(Keep(st', nid, e.out), NotIterable(nid))
  }

  function CrashOf(plan: Plan, nid: Id): Failure
    requires nid in plan.nodes
  {
    Crashed(nid, CrashKind(plan.env, plan.nodes[nid]), plan.env.runtime.crashText(plan.nodes[nid]))
  }

  // Run a node against the live context and apply what it gives.
  ghost function RunLive(plan: Plan, st: State, nid: Id): Run
    requires nid in plan.nodes
  {
    var e := Exec(plan, plan.nodes[nid], st.context);
    if e.Raised? then Stopped(st, CrashOf(plan, nid)) else Apply(plan, st.(context := e.ctx), nid, e)
  }

  // ----- sequential -----

  function SeqInput(plan: Plan, nid: Id, ctx: Context): Json {
    match FirstAvailable(plan.net.edges, 0, nid, ctx)
    case Some(v) => v
    case None => EMPTY_OBJECT
  }

  // A node that is about to run: its input is already in the context under its own id.
  function Begin(st: State, nid: Id, inp: Json): State {
    st.(context := st.context[nid := inp], events := st.events + [Started(nid)])
  }

  ghost function SeqStep(plan: Plan, st: State, nid: Id): Run {
    if nid !in plan.nodes then Running(st)
    else
      var n := plan.nodes[nid];
      var inp := SeqInput(plan, nid, st.context);
      var fate := FateOf(n, st.skip);
      if fate.Inert? then Running(PassOver(st, n, fate, inp))
      else RunLive(plan, Begin(st, nid, inp), nid)
  }

  ghost function SeqRun(plan: Plan, run: Run, order: seq<Id>): Run {
    if |order| == 0 then run
    else
      match SeqRun(plan, run, order[..|order| - 1])
      case Stopped(st, failure) => Stopped(st, failure)
      case Running(st) => SeqStep(plan, st, order[|order| - 1])
  }

  // ----- parallel -----

  datatype Filtered = Filtered(st: State, active: seq<Id>)

  // The first pass over a level: mark what is passed over, seed the context of the rest.
  function Filter(plan: Plan, st: State, level: seq<Id>): Filtered {
    if |level| == 0 then Filtered(st, [])
    else
      var f := Filter(plan, st, level[..|level| - 1]);
      var nid := level[|level| - 1];
      if nid !in plan.nodes then f
      else
        var n := plan.nodes[nid];
        var fate := FateOf(n, f.st.skip);
        if fate.Inert? then f.(st := PassOver(f.st, n, fate, Null))
        else
          match FirstAvailable(plan.net.edges, 0, nid, f.st.context)
          case Some(v) => Filtered(f.st.(context := f.st.context[nid := v]), f.active + [nid])
          case None => f.(active := f.active + [nid])
  }

  function StartEvents(active: seq<Id>): seq<Event> {
    if |active| == 0 then [] else StartEvents(active[..|active| - 1]) + [Started(active[|active| - 1])]
  }

  // The trace the pool writes for a worker that crashed.
  function CrashTrace(nid: Id, text: string): Trace {
    Trace(nid, "", "", Errored, 1, Null, Null, Some(text))
  }

  // The pool turns an exception that escapes a worker into an abort.
  function Guard(nid: Id, text: string, e: Executed): (g: Executed)
    ensures g.Executed?
  {
    if e.Executed? then e
    else Executed(map[], Obj(map["__error" := Str(text)]), CrashTrace(nid, text), {}, Abort(1, text))
  }

  // What the pool hands back for one node: its run against the snapshot of the level.
  ghost function PoolResult(plan: Plan, nid: Id, snapshot: Context): (e: Executed)
    requires nid in plan.nodes
    ensures e.Executed?
  {
    var n := plan.nodes[nid];
    Guard(nid, plan.env.runtime.crashText(n), Exec(plan, n, snapshot))
  }

  // Where the active nodes of a level run: against the shared context, or in the pool, each
  // against a snapshot of it.
  datatype Source = Live | Pool(snapshot: Context)

  ghost function Answer(plan: Plan, st: State, nid: Id, source: Source): Run
    requires nid in plan.nodes
  {
    match source
    case Live => RunLive(plan, st, nid)
    case Pool(snapshot) => Apply(plan, st, nid, PoolResult(plan, nid, snapshot))
  }

  ghost function AnswerAll(plan: Plan, run: Run, active: seq<Id>, source: Source): Run
    requires forall x :: x in active ==> x in plan.nodes
  {
    if |active| == 0 then run
    else
      match AnswerAll(plan, run, active[..|active| - 1], source)
      case Stopped(st, failure) => Stopped(st, failure)
      case Running(st) => Answer(plan, st, active[|active| - 1], source)
  }

  lemma {:induction false} FilterActive(plan: Plan, st: State, level: seq<Id>)
    ensures forall x :: x in Filter(plan, st, level).active ==> x in plan.nodes && x in level
  {
    if |level| == 0 {
    } else {
      FilterActive(plan, st, level[..|level| - 1]);
    }
  }

  ghost function ParLevel(plan: Plan, st: State, level: seq<Id>): Run {
    var f := Filter(plan, st, level);
    FilterActive(plan, st, level);
    if |f.active| == 0 then Running(f.st)
    else AnswerAll(plan, Running(AllBegun(f)), f.active, SourceOf(f))
  }

  function AllBegun(f: Filtered): State {
    f.st.(events := f.st.events + StartEvents(f.active))
  }

  // A single active node takes the fast path.
  function SourceOf(f: Filtered): Source {
    if |f.active| == 1 then Live else Pool(f.st.context)
  }

  ghost function ParRun(plan: Plan, run: Run, levels: seq<seq<Id>>): Run {
    if |levels| == 0 then run
    else
      match ParRun(plan, run, levels[..|levels| - 1])
      case Stopped(st, failure) => Stopped(st, failure)
      case Running(st) => ParLevel(plan, st, levels[|levels| - 1])
  }

  // Whole runs of a graph from a given state.
  ghost function RunInOrder(plan: Plan, st: State): Run {
    SeqRun(plan, Running(st), Order(plan.net))
  }

  ghost function RunByLevels(plan: Plan, st: State): Run {
    ParRun(plan, Running(st), LevelsOf(plan.net))
  }

  ghost function RunIn(plan: Plan, st: State, parallel: bool): Run {
    if parallel then RunByLevels(plan, st) else RunInOrder(plan, st)
  }

  // Applying a finished run changes the entry of its node only.
  lemma ApplyFrame(plan: Plan, st: State, x: Id, e: Executed)
    requires e.Executed?
    ensures Apply(plan, st, x, e).st.context - {x} == st.context - {x}
  {
  }

  lemma {:induction false} FilterSkip(plan: Plan, st: State, level: seq<Id>)
    ensures Filter(plan, st, level).st.skip == st.skip
  {
    if |level| == 0 {
    } else {
      FilterSkip(plan, st, level[..|level| - 1]);
    }
  }

  // ----- a run goes on from where it is -----

  lemma {:induction false} SeqRunConcat(plan: Plan, run: Run, xs: seq<Id>, ys: seq<Id>)
    ensures SeqRun(plan, run, xs + ys) == SeqRun(plan, SeqRun(plan, run, xs), ys)
  {
    if |ys| == 0 {
      assert xs + ys == xs;
    } else {
      assert (xs + ys)[..|xs + ys| - 1] == xs + ys[..|ys| - 1];
      SeqRunConcat(plan, run, xs, ys[..|ys| - 1]);
    }
  }

  lemma {:induction false} SeqRunStopped(plan: Plan, run: Run, order: seq<Id>)
    requires run.Stopped?
    ensures SeqRun(plan, run, order) == run
  {
    if |order| == 0 {
    } else {
      SeqRunStopped(plan, run, order[..|order| - 1]);
    }
  }

  lemma StopAtStep(plan: Plan, st: State, order: seq<Id>, k: nat)
    requires k < |order|
    requires var r := SeqRun(plan, Running(st), order[..k]); r.Running? && SeqStep(plan, r.st, order[k]).Stopped?
    ensures SeqRun(plan, Running(st), order).Stopped?
  {
    assert order == order[..k + 1] + order[k + 1..] && order[..k + 1][..k] == order[..k];
    SeqRunConcat(plan, Running(st), order[..k + 1], order[k + 1..]);
    SeqRunStopped(plan, SeqRun(plan, Running(st), order[..k + 1]), order[k + 1..]);
  }

  lemma SeqRunStoppedAt(plan: Plan, run: Run, order: seq<Id>, k: nat)
    requires k <= |order| && SeqRun(plan, run, order[..k]).Stopped?
    ensures SeqRun(plan, run, order) == SeqRun(plan, run, order[..k])
  {
    assert order == order[..k] + order[k..];
    SeqRunConcat(plan, run, order[..k], order[k..]);
    SeqRunStopped(plan, SeqRun(plan, run, order[..k]), order[k..]);
  }

  lemma {:induction false} ParRunStopped(plan: Plan, run: Run, levels: seq<seq<Id>>, k: nat)
    requires k <= |levels| && ParRun(plan, run, levels[..k]).Stopped?
    ensures ParRun(plan, run, levels) == ParRun(plan, run, levels[..k])
    decreases |levels|
  {
    if k < |levels| {
      assert levels[..|levels| - 1][..k] == levels[..k];
      ParRunStopped(plan, run, levels[..|levels| - 1], k);
    } else {
      assert levels[..k] == levels;
    }
  }

  ghost function AnswerNext(plan: Plan, run: Run, nid: Id, source: Source): Run
    requires nid in plan.nodes
  {
    if run.Running? then Answer(plan, run.st, nid, source) else run
  }

  lemma AnswerSnoc(plan: Plan, run: Run, xs: seq<Id>, x: Id, source: Source)
    requires (forall y :: y in xs ==> y in plan.nodes) && x in plan.nodes
    ensures AnswerAll(plan, run, xs + [x], source) == AnswerNext(plan, AnswerAll(plan, run, xs, source), x, source)
  {
    assert (xs + [x])[..|xs|] == xs;
  }

  lemma AnswerOnly(plan: Plan, st: State, active: seq<Id>, source: Source)
    requires |active| == 1 && active[0] in plan.nodes
    ensures AnswerAll(plan, Running(st), active, source) == Answer(plan, st, active[0], source)
  {
    assert AnswerAll(plan, Running(st), active[..0], source) == Running(st);
  }

  lemma SeqRunSnoc(plan: Plan, run: Run, order: seq<Id>, x: Id)
    ensures var r := SeqRun(plan, run, order);
            SeqRun(plan, run, order + [x]) == if r.Running? then SeqStep(plan, r.st, x) else r
  {
    assert (order + [x])[..|order|] == order;
  }

  lemma SeqRunOne(plan: Plan, run: Run, nid: Id)
    ensures SeqRun(plan, run, [nid]) == if run.Running? then SeqStep(plan, run.st, nid) else run
  {
    assert SeqRun(plan, run, [nid][..0]) == run;
  }

  lemma {:induction false} AnswerAllStopped(plan: Plan, run: Run, active: seq<Id>, source: Source, k: nat)
    requires forall x :: x in active ==> x in plan.nodes
    requires k <= |active| && AnswerAll(plan, run, active[..k], source).Stopped?
    ensures AnswerAll(plan, run, active, source) == AnswerAll(plan, run, active[..k], source)
    decreases |active|
  {
    if k < |active| {
      assert active[..|active| - 1][..k] == active[..k];
      AnswerAllStopped(plan, run, active[..|active| - 1], source, k);
    } else {
      assert active[..k] == active;
    }
  }
}
