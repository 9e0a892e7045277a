/** What every sequential run keeps: one trace per node it reached, one start and one
    finish event per node it executed, and a skip set that decides, once the run is over,
    which nodes were executed. */
module RunLaws {
  import opened Nets
  import opened Kahn
  import opened Values
  import opened NodeExec
  import opened LoopBody
  import opened Runner
  import opened Locality

  // A run that has recorded nothing yet.
  ghost predicate Blank(st: State) {
    st.results == map[] && st.traces == [] && st.events == []
  }

  function TracedNodes(traces: seq<Trace>): seq<Id> {
    if |traces| == 0 then [] else TracedNodes(traces[..|traces| - 1]) + [traces[|traces| - 1].node]
  }

  // A start and a finish for every executed trace.
  function PairedEvents(traces: seq<Trace>): seq<Event> {
    if |traces| == 0 then []
    else
      var t := traces[|traces| - 1];
      PairedEvents(traces[..|traces| - 1]) + if t.status.Skipped? then [] else [Started(t.node), Finished(t)]
  }

  // All nodes switched off by the conditions that answered.
  ghost function SwitchedOff(plan: Plan, traces: seq<Trace>): set<Id> {
    if |traces| == 0 then {}
    else
      var t := traces[|traces| - 1];
      SwitchedOff(plan, traces[..|traces| - 1])
        + if t.status.Succeeded? && t.node in plan.nodes then SkipDelta(plan.net, plan.nodes[t.node], t.output) else {}
  }

  // The stored result of a node against its trace.
  ghost predicate ResultFits(env: Env, n: Node, skip: set<Id>, t: Trace, v: Json) {
    match t.status
    case Skipped => FateOf(n, skip).Inert? && v == FateOf(n, skip).marker
    case Succeeded =>
      var items := if IsLoop(t.output) then LoopItems(env, t.output) else None;
      if items.Some? then exists rs :: |rs| == |items.value| && v == LoopOutput(rs) else v == t.output
    case Errored => n.failMode == "continue" ==> v == t.output
  }

  // One trace: status and remark as the final skip set has it, attempts within the retry
  // budget, and the result of the node to match.
  ghost predicate TraceOk(plan: Plan, skip: set<Id>, results: Context, t: Trace) {
    && t.node in plan.nodes && t.node in results
    && var n := plan.nodes[t.node];
       && t.kind == n.kind && t.title == n.title
       && (t.status.Skipped? <==> FateOf(n, skip).Inert?)
       && (t.status.Skipped? ==> t.attempts == 0 && t.output == Null && t.error == FateOf(n, skip).remark)
       && (!t.status.Skipped? ==> Runs(plan.env, n) && 1 <= t.attempts <= LastAttempt(plan.env, n) + 1)
       && ResultFits(plan.env, n, skip, t, results[t.node])
  }

  // What holds of a state whose run has traced exactly `xs`.
  ghost predicate Books(plan: Plan, skip0: set<Id>, xs: seq<Id>, st: State) {
    && TracedNodes(st.traces) == xs
    && st.results.Keys == Elements(xs)
    && st.skip == skip0 + SwitchedOff(plan, st.traces)
    && (forall t :: t in st.traces ==> TraceOk(plan, st.skip, st.results, t))
  }

  lemma TracedSnoc(traces: seq<Trace>, t: Trace)
    ensures TracedNodes(traces + [t]) == TracedNodes(traces) + [t.node]
    ensures PairedEvents(traces + [t]) == PairedEvents(traces) +
        if t.status.Skipped? then [] else [Started(t.node), Finished(t)]
  {
    assert (traces + [t])[..|traces|] == traces;
  }

  lemma SwitchedSnoc(plan: Plan, traces: seq<Trace>, t: Trace)
    requires t.node in plan.nodes
    ensures SwitchedOff(plan, traces + [t]) ==
            SwitchedOff(plan, traces)
            + if t.status.Succeeded? then SkipDelta(plan.net, plan.nodes[t.node], t.output) else {}
  {
    assert (traces + [t])[..|traces|] == traces;
  }

  lemma {:induction false} TracedMember(traces: seq<Trace>, t: Trace)
    requires t in traces
    ensures t.node in TracedNodes(traces)
  {
    if t == traces[|traces| - 1] {
    } else {
      TracedMember(traces[..|traces| - 1], t);
    }
  }

  // A condition cannot switch off itself or a node scheduled before it.
  lemma DeltaIsLater(plan: Plan, order: seq<Id>, k: nat, v: Json, x: Id)
    requires Scheduled(plan.net, order) && k < |order| && order[k] in plan.nodes && plan.nodes[order[k]].id == order[k]
    requires x in SkipDelta(plan.net, plan.nodes[order[k]], v)
    ensures x !in order[..k + 1]
  {
    var c := order[k];
    SkipDeltaDownstream(plan.net, plan.nodes[c], v, x);
    if x in order {
      UpstreamIsEarlier(plan.net, order, c, x);
      IndexUnique(order, k);
    }
  }

  lemma {:induction false} SwitchedBy(plan: Plan, traces: seq<Trace>, x: Id) returns (t: Trace)
    requires x in SwitchedOff(plan, traces)
    ensures t in traces && t.status.Succeeded? && t.node in plan.nodes
    ensures x in SkipDelta(plan.net, plan.nodes[t.node], t.output)
  {
    t := traces[|traces| - 1];
    if x in SwitchedOff(plan, traces[..|traces| - 1]) {
      t := SwitchedBy(plan, traces[..|traces| - 1], x);
    }
  }

  lemma OrderInNet(net: Net)
    requires Distinct(net.ids)
    ensures forall x :: x in Order(net) ==> x in net.ids
  {
    OrderScheduled(net);
    forall x | x in Order(net)
      ensures x in net.ids
    {
      assert ScheduledIff(net, Order(net), x);
    }
  }

  lemma ScheduledIsNoAncestorOfItself(net: Net, n: Id)
    requires Distinct(net.ids) && n in Order(net)
    ensures !Reaches(net, n, n)
  {
    OrderScheduled(net);
    if Reaches(net, n, n) {
      UpstreamIsEarlier(net, Order(net), n, n);
    }
  }

  lemma {:induction false} TracedNodeHasTrace(traces: seq<Trace>, x: Id) returns (t: Trace)
    requires x in TracedNodes(traces)
    ensures t in traces && t.node == x
  {
    t := traces[|traces| - 1];
    if t.node != x {
      t := TracedNodeHasTrace(traces[..|traces| - 1], x);
    }
  }

  lemma TraceOkGrows(plan: Plan, skip: set<Id>, results: Context, t: Trace, delta: set<Id>, x: Id, v: Json)
    requires WellFormed(plan) && TraceOk(plan, skip, results, t) && t.node != x && t.node !in delta
    ensures TraceOk(plan, skip + delta, results[x := v], t)
  {
    assert FateOf(plan.nodes[t.node], skip + delta) == FateOf(plan.nodes[t.node], skip);
  }

  ghost function Record(st: State, x: Id, t: Trace, v: Json, delta: set<Id>): State {
    st.(results := st.results[x := v], traces := st.traces + [t], skip := st.skip + delta)
  }

  // One more trace, with a skip set that grows only by nodes still to come.
  lemma BooksGrow(plan: Plan, skip0: set<Id>, xs: seq<Id>, st: State, x: Id, t: Trace, v: Json, delta: set<Id>)
    requires WellFormed(plan) && Books(plan, skip0, xs, st) && x !in xs && x in plan.nodes && t.node == x
    requires forall y :: y in xs ==> y !in delta
    requires delta == if t.status.Succeeded? then SkipDelta(plan.net, plan.nodes[x], t.output) else {}
    requires TraceOk(plan, st.skip + delta, st.results[x := v], t)
    ensures Books(plan, skip0, xs + [x], Record(st, x, t, v, delta))
  {
    var st' := Record(st, x, t, v, delta);
    TracedSnoc(st.traces, t);
    SwitchedSnoc(plan, st.traces, t);
    forall u | u in st'.traces
      ensures TraceOk(plan, st'.skip, st'.results, u)
    {
      if u != t {
        TracedMember(st.traces, u);
        TraceOkGrows(plan, st.skip, st.results, u, delta, x, v);
      }
    }
  }

  // What the books need to know of a finished node.
  lemma ExecFacts(plan: Plan, n: Node, ctx: Context)
    requires Runs(plan.env, n)
    ensures var e := Exec(plan, n, ctx);
            && e.trace.node == n.id && e.trace.kind == n.kind && e.trace.title == n.title
            && e.trace.input == ExecInput(plan.net.edges, n.id, ctx)
            && !e.trace.status.Skipped? && 1 <= e.trace.attempts <= LastAttempt(plan.env, n) + 1
            && e.delta == (if e.trace.status.Succeeded? then SkipDelta(plan.net, n, e.trace.output) else {})
            && (e.trace.status.Succeeded? ==>
                  e.out == e.trace.output && e.signal == if IsLoop(e.out) then Expand(e.out) else Plain)
            && (e.trace.status.Errored? ==> !IsLoop(e.trace.output))
            && (e.trace.status.Errored? ==>
                  if n.failMode == "continue" then e.signal.Plain? && e.out == e.trace.output
                  else e.signal.Abort? && e.signal.attempts == e.trace.attempts)
  {
    RetryPolicy(plan.env, n, ExecInput(plan.net.edges, n.id, ctx), ctx, 0);
  }

  lemma ExpandedShape(plan: Plan, n: Id, result: Json, ctx: Context)
    requires LoopItems(plan.env, result).Some?
    ensures var items := LoopItems(plan.env, result).value;
            exists rs :: |rs| == |items| && Expanded(plan, n, result, ctx) == Some(LoopOutput(rs))
  {
    var items := LoopItems(plan.env, result).value;
    LoopResultsLength(plan, n, ctx, items);
    assert Expanded(plan, n, result, ctx) == Some(LoopOutput(LoopResults(plan, n, ctx, items)));
  }

  // The result that gets stored fits the trace that gets stored.
  lemma AppliedResultFits(plan: Plan, st: State, n: Node, ctx: Context)
    requires Runs(plan.env, n) && FateOf(n, st.skip).Active?
    ensures var e := Exec(plan, n, ctx);
            && e.Executed?
            && var r := Apply(plan, st, n.id, e);
               ResultFits(plan.env, n, r.st.skip, e.trace, r.st.results[n.id])
  {
    ExecFacts(plan, n, ctx);
    var e := Exec(plan, n, ctx);
    if e.signal.Expand? && LoopItems(plan.env, e.out).Some? {
      ExpandedShape(plan, n.id, e.signal.result, st.context[n.id := e.out]);
    }
  }

  // What a stopped run says about the node that stopped it.
  ghost predicate BlamesLast(plan: Plan, f: Failure, t: Trace) {
    match f
    case NodeFailed(node, kind, attempts, _) =>
      && node == t.node && kind == t.kind && attempts == t.attempts && t.status.Errored?
      && node in plan.nodes && plan.nodes[node].failMode != "continue"
    case NotIterable(node) =>
      node == t.node && t.status.Succeeded? && IsLoop(t.output) && LoopItems(plan.env, t.output).None?
    case Crashed(_, _, _) => false
  }

  // What applying a finished run adds to the books, whatever it asks for.
  lemma AppliedIsRecord(plan: Plan, st: State, x: Id, e: Executed)
    requires e.Executed? && e.trace.node == x
    ensures var r := Apply(plan, st, x, e);
            && x in r.st.results
            && var rec := Record(st, x, e.trace, r.st.results[x], e.delta);
               r.st.results == rec.results && r.st.traces == rec.traces && r.st.skip == rec.skip
  {
  }

  lemma AppliedTraceOk(plan: Plan, st: State, n: Node, ctx: Context)
    requires Runs(plan.env, n) && n.id in plan.nodes && plan.nodes[n.id] == n
    requires n.id !in SkipDelta(plan.net, n, Exec(plan, n, ctx).trace.output)
    requires FateOf(n, st.skip).Active?
    ensures var e := Exec(plan, n, ctx);
            TraceOk(plan, st.skip + e.delta, Apply(plan, st, n.id, e).st.results, e.trace)
  {
    ExecFacts(plan, n, ctx);
    AppliedResultFits(plan, st, n, ctx);
    AppliedIsRecord(plan, st, n.id, Exec(plan, n, ctx));
  }

  lemma AppliedBlames(plan: Plan, st: State, n: Node, ctx: Context)
    requires Runs(plan.env, n) && n.id in plan.nodes && plan.nodes[n.id] == n
    ensures var e := Exec(plan, n, ctx);
            var r := Apply(plan, st, n.id, e);
            r.st.events == st.events + [Finished(e.trace)] && (r.Stopped? ==> BlamesLast(plan, r.failure, e.trace))
  {
    ExecFacts(plan, n, ctx);
  }

  // A trace after which the run went on.
  ghost predicate WentOn(plan: Plan, t: Trace) {
    && (t.status.Errored? ==> t.node in plan.nodes && plan.nodes[t.node].failMode == "continue" && !IsLoop(t.output))
    && (t.status.Succeeded? && IsLoop(t.output) ==> LoopItems(plan.env, t.output).Some?)
  }

  // Neither `x` itself nor any node of `xs` lies downstream of `x`.
  ghost predicate Ahead(net: Net, xs: seq<Id>, x: Id) {
    x !in xs && !Reaches(net, x, x) && forall y :: y in xs ==> !Reaches(net, x, y)
  }

  // Applying a finished run to balanced books.
  lemma ApplyKeepsBooks(plan: Plan, skip0: set<Id>, xs: seq<Id>, st: State, x: Id, ctx: Context)
    requires WellFormed(plan) && x in plan.nodes && Ahead(plan.net, xs, x)
    requires Books(plan, skip0, xs, st) && FateOf(plan.nodes[x], st.skip).Active? && Runs(plan.env, plan.nodes[x])
    ensures var e := Exec(plan, plan.nodes[x], ctx);
            && !e.trace.status.Skipped? && e.trace.node == x
            && var r := Apply(plan, st, x, e);
               && Books(plan, skip0, xs + [x], r.st) && r.st.traces == st.traces + [e.trace]
               && (r.Running? ==> WentOn(plan, e.trace))
  {
    var n := plan.nodes[x];
    var e := Exec(plan, n, ctx);
    ExecFacts(plan, n, ctx);
    forall y | y == x || y in xs
      ensures y !in SkipDelta(plan.net, n, e.trace.output)
    {
      if y in SkipDelta(plan.net, n, e.trace.output) {
        SkipDeltaDownstream(plan.net, n, e.trace.output, y);
      }
    }
    AppliedTraceOk(plan, st, n, ctx);
    AppliedIsRecord(plan, st, x, e);
    BooksGrow(plan, skip0, xs, st, x, e.trace, Apply(plan, st, x, e).st.results[x], e.delta);
  }

  lemma PassOverKeepsBooks(plan: Plan, skip0: set<Id>, xs: seq<Id>, st: State, x: Id, inp: Json)
    requires WellFormed(plan) && x in plan.nodes && x !in xs
    requires Books(plan, skip0, xs, st) && FateOf(plan.nodes[x], st.skip).Inert?
    ensures Books(plan, skip0, xs + [x], PassOver(st, plan.nodes[x], FateOf(plan.nodes[x], st.skip), inp))
  {
    var n := plan.nodes[x];
    var fate := FateOf(n, st.skip);
    var t := BlankTrace(n, inp).(error := fate.remark);
    assert st.skip + {} == st.skip;
    BooksGrow(plan, skip0, xs, st, x, t, fate.marker, {});
  }

  // The walk comes to a node before anything downstream of it.
  lemma OrderIsAhead(plan: Plan, order: seq<Id>, k: nat)
    requires Scheduled(plan.net, order) && k < |order|
    ensures Ahead(plan.net, order[..k], order[k])
  {
    IndexUnique(order, k);
    forall y | y in order[..k + 1]
      ensures !Reaches(plan.net, order[k], y)
    {
      if Reaches(plan.net, order[k], y) {
        UpstreamIsEarlier(plan.net, order, order[k], y);
      }
    }
  }

  // The books of a run that is under way.
  ghost predicate OpenBooks(plan: Plan, skip0: set<Id>, xs: seq<Id>, st: State) {
    Books(plan, skip0, xs, st) && forall t :: t in st.traces ==> WentOn(plan, t)
  }

  // The books after `k` nodes; a stopped run keeps those of the node that stopped it.
  ghost predicate BalancedUpTo(plan: Plan, skip0: set<Id>, order: seq<Id>, k: nat, run: Run)
    requires k <= |order|
  {
    match run
    case Running(st) => OpenBooks(plan, skip0, order[..k], st) && st.events == PairedEvents(st.traces)
    case Stopped(st, f) => exists j :: 0 <= j < k && StoppedAt(plan, skip0, order, j, st, f)
  }

  // The run ended at the j-th node: by a failure after its trace, or by a crash it could not trace.
  ghost predicate StoppedAt(plan: Plan, skip0: set<Id>, order: seq<Id>, j: nat, st: State, f: Failure)
    requires j < |order|
  {
    && f.node == order[j] && order[j] in plan.nodes && FateOf(plan.nodes[order[j]], st.skip).Active?
    && if f.Crashed? then
         && Books(plan, skip0, order[..j], st) && st.events == PairedEvents(st.traces) + [Started(order[j])]
         && !Runs(plan.env, plan.nodes[order[j]]) && f == CrashOf(plan, order[j])
       else
         && Books(plan, skip0, order[..j + 1], st) && st.events == PairedEvents(st.traces)
         && |st.traces| > 0 && BlamesLast(plan, f, st.traces[|st.traces| - 1])
  }

  lemma StepKeepsBooks(plan: Plan, skip0: set<Id>, order: seq<Id>, k: nat, st: State)
    requires WellFormed(plan) && Scheduled(plan.net, order) && k < |order| && order[k] in plan.nodes
    requires OpenBooks(plan, skip0, order[..k], st) && st.events == PairedEvents(st.traces)
    ensures BalancedUpTo(plan, skip0, order, k + 1, SeqStep(plan, st, order[k]))
  {
    var x := order[k];
    OrderIsAhead(plan, order, k);
    assert order[..k + 1] == order[..k] + [x];
    if FateOf(plan.nodes[x], st.skip).Inert? {
      var n, inp := plan.nodes[x], SeqInput(plan, x, st.context);
      PassOverKeepsBooks(plan, skip0, order[..k], st, x, inp);
      TracedSnoc(st.traces, BlankTrace(n, inp).(error := FateOf(n, st.skip).remark));
    } else {
      ActiveStepKeepsBooks(plan, skip0, order, k, st);
    }
  }

  lemma ActiveStepKeepsBooks(plan: Plan, skip0: set<Id>, order: seq<Id>, k: nat, st: State)
    requires WellFormed(plan) && k < |order| && order[k] in plan.nodes && Ahead(plan.net, order[..k], order[k])
    requires OpenBooks(plan, skip0, order[..k], st) && st.events == PairedEvents(st.traces)
    requires FateOf(plan.nodes[order[k]], st.skip).Active?
    ensures BalancedUpTo(plan, skip0, order, k + 1, SeqStep(plan, st, order[k]))
  {
    var x := order[k];
    var n := plan.nodes[x];
    if Runs(plan.env, n) {
      RunStepKeepsBooks(plan, skip0, order, k, st);
    } else {
      var r := SeqStep(plan, st, x);
      assert StoppedAt(plan, skip0, order, k, r.st, r.failure);
    }
  }

  lemma RunStepKeepsBooks(plan: Plan, skip0: set<Id>, order: seq<Id>, k: nat, st: State)
    requires WellFormed(plan) && k < |order| && order[k] in plan.nodes && Ahead(plan.net, order[..k], order[k])
    requires OpenBooks(plan, skip0, order[..k], st) && st.events == PairedEvents(st.traces)
    requires FateOf(plan.nodes[order[k]], st.skip).Active? && Runs(plan.env, plan.nodes[order[k]])
    ensures BalancedUpTo(plan, skip0, order, k + 1, SeqStep(plan, st, order[k]))
  {
    var x := order[k];
    var begun := Begin(st, x, SeqInput(plan, x, st.context));
    var e := Exec(plan, plan.nodes[x], begun.context);
    var r := Apply(plan, begun.(context := e.ctx), x, e);
    assert SeqStep(plan, st, x) == r;
    ApplyKeepsBooks(plan, skip0, order[..k], begun.(context := e.ctx), x, begun.context);
    assert order[..k + 1] == order[..k] + [x];
    StepTold(plan, st, x);
    if r.Stopped? {
      StopBlames(plan, st, x);
      assert StoppedAt(plan, skip0, order, k, r.st, r.failure);
    }
  }

  // A node that runs has its start and its finish told.
  lemma StepTold(plan: Plan, st: State, x: Id)
    requires x in plan.nodes && plan.nodes[x].id == x && Runs(plan.env, plan.nodes[x])
    requires FateOf(plan.nodes[x], st.skip).Active? && st.events == PairedEvents(st.traces)
    ensures SeqStep(plan, st, x).st.events == PairedEvents(SeqStep(plan, st, x).st.traces)
  {
    var n, begun := plan.nodes[x], Begin(st, x, SeqInput(plan, x, st.context));
    var e := Exec(plan, n, begun.context);
    ExecFacts(plan, n, begun.context);
    AppliedIsRecord(plan, begun.(context := e.ctx), x, e);
    AppliedBlames(plan, begun.(context := e.ctx), n, begun.context);
    TracedSnoc(st.traces, e.trace);
    assert st.events + [Started(x)] + [Finished(e.trace)] == st.events + [Started(x), Finished(e.trace)];
  }

  // If it stops the run, the run blames it, and it is not switched off.
  lemma StopBlames(plan: Plan, st: State, x: Id)
    requires WellFormed(plan) && x in plan.nodes && !Reaches(plan.net, x, x)
    requires FateOf(plan.nodes[x], st.skip).Active? && Runs(plan.env, plan.nodes[x])
    requires SeqStep(plan, st, x).Stopped?
    ensures var r := SeqStep(plan, st, x);
            && FateOf(plan.nodes[x], r.st.skip).Active? && |r.st.traces| > 0
            && BlamesLast(plan, r.failure, r.st.traces[|r.st.traces| - 1]) && r.failure.node == x
  {
    var n, begun := plan.nodes[x], Begin(st, x, SeqInput(plan, x, st.context));
    var e := Exec(plan, n, begun.context);
    ExecFacts(plan, n, begun.context);
    AppliedIsRecord(plan, begun.(context := e.ctx), x, e);
    AppliedBlames(plan, begun.(context := e.ctx), n, begun.context);
    StaysActive(plan, begun, x, begun.context);
  }

  // A node does not switch itself off.
  lemma StaysActive(plan: Plan, st: State, x: Id, ctx: Context)
    requires WellFormed(plan) && x in plan.nodes && !Reaches(plan.net, x, x) && FateOf(plan.nodes[x], st.skip).Active?
    ensures var e := Exec(plan, plan.nodes[x], ctx);
            e.Executed? ==> FateOf(plan.nodes[x], st.skip + e.delta).Active?
  {
    var e := Exec(plan, plan.nodes[x], ctx);
    if e.Executed? && x in e.delta {
      ExecDeltaDownstream(plan, plan.nodes[x], ctx, x);
    }
  }

  lemma {:induction false} RunKeepsBooks(plan: Plan, order: seq<Id>, k: nat, st: State)
    requires WellFormed(plan) && Scheduled(plan.net, order) && Blank(st) && k <= |order|
    ensures BalancedUpTo(plan, st.skip, order, k, SeqRun(plan, Running(st), order[..k]))
  {
    if k == 0 {
      BlankKeepsBooks(plan, st);
    } else {
      var r, x := SeqRun(plan, Running(st), order[..k - 1]), order[k - 1];
      RunKeepsBooks(plan, order, k - 1, st);
      assert order[..k] == order[..k - 1] + [x];
      SeqRunSnoc(plan, Running(st), order[..k - 1], x);
      ScheduledInPlan(plan, order, k - 1);
      if r.Running? {
        StepKeepsBooks(plan, st.skip, order, k - 1, r.st);
      } else {
        StoppedKeepsBooks(plan, st.skip, order, k - 1, r);
      }
    }
  }

  lemma ScheduledInPlan(plan: Plan, order: seq<Id>, k: nat)
    requires WellFormed(plan) && Scheduled(plan.net, order) && k < |order|
    ensures order[k] in plan.nodes
  {
    assert ScheduledIff(plan.net, order, order[k]);
  }

  lemma BlankKeepsBooks(plan: Plan, st: State)
    requires Blank(st)
    ensures OpenBooks(plan, st.skip, [], st) && st.events == PairedEvents(st.traces)
  {
    assert st.skip + {} == st.skip;
  }

  lemma StoppedKeepsBooks(plan: Plan, skip0: set<Id>, order: seq<Id>, k: nat, r: Run)
    requires k < |order| && r.Stopped? && BalancedUpTo(plan, skip0, order, k, r)
    ensures BalancedUpTo(plan, skip0, order, k + 1, r)
  {
    var j :| 0 <= j < k && StoppedAt(plan, skip0, order, j, r.st, r.failure);
  }

  // Every sequential run, from any blank state and over any graph: a completed run has one
  // trace and one result per scheduled node, in order; a stopped run has them up to the
  // node it blames; and the skip set is the initial one plus what the conditions that
  // answered switched off, which alone decides who was executed.
  lemma {:induction false} SequentialRunBalances(plan: Plan, st: State)
    requires WellFormed(plan) && Blank(st)
    ensures BalancedUpTo(plan, st.skip, Order(plan.net), |Order(plan.net)|, RunInOrder(plan, st))
  {
    var order := Order(plan.net);
    OrderScheduled(plan.net);
    RunKeepsBooks(plan, order, |order|, st);
    assert order[..|order|] == order;
  }

  // The state of a sequential run, completed or not, has the books of the nodes it traced.
  lemma BooksOfRun(plan: Plan, st: State) returns (xs: seq<Id>)
    requires WellFormed(plan) && Blank(st)
    ensures Books(plan, st.skip, xs, RunInOrder(plan, st).st) && forall x :: x in xs ==> x in Order(plan.net)
    ensures RunInOrder(plan, st).Running? ==>
        xs == Order(plan.net) && OpenBooks(plan, st.skip, xs, RunInOrder(plan, st).st)
  {
    var order := Order(plan.net);
    var run := SeqRun(plan, Running(st), order);
    SequentialRunBalances(plan, st);
    if run.Running? {
      assert order[..|order|] == order;
      xs := order;
    } else {
      var j :| 0 <= j < |order| && StoppedAt(plan, st.skip, order, j, run.st, run.failure);
      xs := if run.failure.Crashed? then order[..j] else order[..j + 1];
    }
  }
}
