/** The parallel runner refines the sequential one. For handlers that read no output of their
    own level and write no context key unless they run alone, running level by level gives the
    results, the context, the skip set and the executed traces of running node by node, and
    aborts blame the same node. */
module Refinement {
  import opened Nets
  import opened Kahn
  import opened Levels
  import opened LevelTheorems
  import opened Values
  import opened NodeExec
  import opened LoopBody
  import opened Runner
  import opened Locality

  // ----- what is compared -----

  // Traces of nodes that ran, in order.
  function ExecutedTraces(traces: seq<Trace>): seq<Trace> {
    if |traces| == 0 then []
    else
      var t := traces[|traces| - 1];
      ExecutedTraces(traces[..|traces| - 1]) + if t.status.Skipped? then [] else [t]
  }

  // Traces of nodes passed over, less the input, which the parallel runner does not record.
  function PassedOver(traces: seq<Trace>): set<Trace> {
    if |traces| == 0 then {}
    else
      var t := traces[|traces| - 1];
      PassedOver(traces[..|traces| - 1]) + if t.status.Skipped? then {t.(input := Null)} else {}
  }

  // What the callback hears about finished nodes.
  function FinishedTraces(events: seq<Event>): seq<Trace> {
    if |events| == 0 then []
    else
      var e := events[|events| - 1];
      FinishedTraces(events[..|events| - 1]) + if e.Finished? then [e.trace] else []
  }

  ghost predicate SameState(s: State, p: State) {
    && s.context == p.context && s.results == p.results && s.skip == p.skip
    && ExecutedTraces(s.traces) == ExecutedTraces(p.traces)
    && PassedOver(s.traces) == PassedOver(p.traces)
    && FinishedTraces(s.events) == FinishedTraces(p.events)
  }

  // A crash inside a worker leaves at most one extra trace behind in the parallel run.
  ghost predicate SameStop(s: State, fs: Failure, p: State, fp: Failure) {
    && fs.node == fp.node
    && (fs.Crashed? ==>
          || ExecutedTraces(p.traces) == ExecutedTraces(s.traces)
          || ExecutedTraces(p.traces) == ExecutedTraces(s.traces) + [CrashTrace(fs.node, fs.text)])
    && (!fs.Crashed? ==>
          && fs == fp && s.skip == p.skip
          && ExecutedTraces(s.traces) == ExecutedTraces(p.traces)
          && FinishedTraces(s.events) == FinishedTraces(p.events))
  }

  ghost predicate SameOutcome(seqRun: Run, parRun: Run) {
    match seqRun
    case Running(s) => parRun.Running? && SameState(s, parRun.st)
    case Stopped(s, fs) => parRun.Stopped? && SameStop(s, fs, parRun.st, parRun.failure)
  }

  // ----- what parallel mode relies on -----

  // Handlers read only what earlier levels wrote.
  ghost predicate ReadsEarlier(plan: Plan, level: seq<Id>) {
    forall x :: x in level && x in plan.nodes ==> Ignores(plan.env, plan.nodes[x], Elements(level))
  }

  ghost predicate NeverLoops(env: Env, n: Node) {
    forall k, inp, c :: var o := env.run(n, k, inp, c); o.Ok? ==> !IsLoop(o.value)
  }

  // The body of the i-th node sees no node that the level applies after it.
  ghost predicate LoopIsolated(plan: Plan, level: seq<Id>, i: nat)
    requires i < |level|
  {
    forall b :: b in BodySet(plan.net, level[i]) ==> Unseen(plan, b, Elements(level[i + 1..]))
  }

  ghost predicate LoopOk(plan: Plan, level: seq<Id>, i: nat)
    requires i < |level|
  {
    level[i] in plan.nodes && !NeverLoops(plan.env, plan.nodes[level[i]]) ==> LoopIsolated(plan, level, i)
  }

  ghost predicate LevelSafe(plan: Plan, level: seq<Id>) {
    ReadsEarlier(plan, level) && forall i :: 0 <= i < |level| ==> LoopOk(plan, level, i)
  }

  ghost predicate LevelsSafe(plan: Plan) {
    forall k :: 0 <= k < |LevelsOf(plan.net)| ==> LevelSafe(plan, LevelsOf(plan.net)[k])
  }

  // No node of the level that will run writes the context.
  ghost predicate Quiet(plan: Plan, skip: set<Id>, level: seq<Id>) {
    forall x :: x in level && x in plan.nodes && FateOf(plan.nodes[x], skip).Active? ==>
      WritesOnly(plan.env, plan.nodes[x], {})
  }

  ghost predicate WritersAloneIn(plan: Plan, skip: set<Id>, level: seq<Id>) {
    |ActiveOf(plan, skip, level)| == 1 || Quiet(plan, skip, level)
  }

  // A node that may write the context is the only one of its level to run.
  ghost predicate WritersAlone(plan: Plan, skip: set<Id>) {
    forall k :: 0 <= k < |LevelsOf(plan.net)| ==> WritersAloneIn(plan, skip, LevelsOf(plan.net)[k])
  }

  // What the proof needs of one level.
  ghost predicate LevelOk(plan: Plan, level: seq<Id>) {
    && Distinct(level)
    && (forall x :: x in level ==> x in plan.net.ids)
    && (forall a, b :: a in level && b in level ==> !Reaches(plan.net, a, b))
    && LevelSafe(plan, level)
  }

  // ----- one level, node by node -----

  function ActiveOf(plan: Plan, skip: set<Id>, level: seq<Id>): seq<Id> {
    if |level| == 0 then []
    else
      var x := level[|level| - 1];
      ActiveOf(plan, skip, level[..|level| - 1])
        + if x in plan.nodes && FateOf(plan.nodes[x], skip).Active? then [x] else []
  }

  function InertResults(plan: Plan, skip: set<Id>, xs: seq<Id>): Context {
    map x | x in xs && x in plan.nodes && FateOf(plan.nodes[x], skip).Inert? :: FateOf(plan.nodes[x], skip).marker
  }

  // The trace the filter pass records for a node it passes over.
  function InertTrace(plan: Plan, skip: set<Id>, x: Id): Trace
    requires x in plan.nodes && FateOf(plan.nodes[x], skip).Inert?
  {
    BlankTrace(plan.nodes[x], Null).(error := FateOf(plan.nodes[x], skip).remark)
  }

  function InertTraces(plan: Plan, skip: set<Id>, xs: seq<Id>): set<Trace> {
    set x | x in xs && x in plan.nodes && FateOf(plan.nodes[x], skip).Inert? :: InertTrace(plan, skip, x)
  }

  lemma ExecutedSnoc(traces: seq<Trace>, t: Trace)
    ensures ExecutedTraces(traces + [t]) == ExecutedTraces(traces) + if t.status.Skipped? then [] else [t]
    ensures PassedOver(traces + [t]) == PassedOver(traces) + if t.status.Skipped? then {t.(input := Null)} else {}
  {
    assert (traces + [t])[..|traces|] == traces;
  }

  lemma FinishedSnoc(events: seq<Event>, e: Event)
    ensures FinishedTraces(events + [e]) == FinishedTraces(events) + if e.Finished? then [e.trace] else []
  {
    assert (events + [e])[..|events|] == events;
  }

  // The nodes of `xs` that will run: the keys the filter pass may seed.
  function ActiveSet(plan: Plan, skip: set<Id>, xs: seq<Id>): set<Id> {
    set x | x in xs && x in plan.nodes && FateOf(plan.nodes[x], skip).Active?
  }

  // The filter pass seeds only nodes that will run and adds no executed trace.
  ghost predicate FilterMeaning(plan: Plan, st: State, level: seq<Id>, f: Filtered) {
    && f.active == ActiveOf(plan, st.skip, level)
    && f.st.context - ActiveSet(plan, st.skip, level) == st.context - ActiveSet(plan, st.skip, level)
    && f.st.results == st.results + InertResults(plan, st.skip, level)
    && f.st.skip == st.skip && f.st.events == st.events
    && ExecutedTraces(f.st.traces) == ExecutedTraces(st.traces)
    && PassedOver(f.st.traces) == PassedOver(st.traces) + InertTraces(plan, st.skip, level)
  }

  lemma InertHead(plan: Plan, skip: set<Id>, x: Id, rest: seq<Id>, r: Context)
    requires x in plan.nodes
    ensures var fate := FateOf(plan.nodes[x], skip);
            r + InertResults(plan, skip, [x] + rest) ==
              (if fate.Inert? then r[x := fate.marker] else r) + InertResults(plan, skip, rest)
  {
  }

  lemma InertTracesHead(plan: Plan, skip: set<Id>, x: Id, rest: seq<Id>)
    requires x in plan.nodes
    ensures InertTraces(plan, skip, [x] + rest) ==
            (if FateOf(plan.nodes[x], skip).Inert? then {InertTrace(plan, skip, x)} else {}) +
                InertTraces(plan, skip, rest)
    ensures InertTraces(plan, skip, rest + [x]) == InertTraces(plan, skip, [x] + rest)
  {
    assert forall y :: y in [x] + rest <==> y == x || y in rest;
    assert forall y :: y in rest + [x] <==> y == x || y in rest;
  }

  lemma InertSnoc(plan: Plan, skip: set<Id>, xs: seq<Id>, x: Id)
    requires x in plan.nodes
    ensures var fate := FateOf(plan.nodes[x], skip);
            InertResults(plan, skip, xs + [x]) ==
              if fate.Inert? then InertResults(plan, skip, xs)[x := fate.marker] else InertResults(plan, skip, xs)
  {
  }

  lemma PassedTraces(plan: Plan, st: State, rest: seq<Id>, x: Id, f: Filtered)
    requires x in plan.nodes && FateOf(plan.nodes[x], st.skip).Inert?
    requires ExecutedTraces(f.st.traces) == ExecutedTraces(st.traces)
    requires PassedOver(f.st.traces) == PassedOver(st.traces) + InertTraces(plan, st.skip, rest)
    ensures var traces := f.st.traces + [InertTrace(plan, st.skip, x)];
            && ExecutedTraces(traces) == ExecutedTraces(st.traces)
            && PassedOver(traces) == PassedOver(st.traces) + InertTraces(plan, st.skip, rest + [x])
  {
    InertTracesHead(plan, st.skip, x, rest);
    ExecutedSnoc(f.st.traces, InertTrace(plan, st.skip, x));
  }

  lemma PassedResults(plan: Plan, skip: set<Id>, rest: seq<Id>, x: Id, results: Context, before: Context)
    requires x in plan.nodes && FateOf(plan.nodes[x], skip).Inert? && results == before + InertResults(plan, skip, rest)
    ensures results[x := FateOf(plan.nodes[x], skip).marker] == before + InertResults(plan, skip, rest + [x])
  {
    InertSnoc(plan, skip, rest, x);
  }

  lemma FilterPassed(plan: Plan, st: State, rest: seq<Id>, x: Id, f: Filtered)
    requires FilterMeaning(plan, st, rest, f) && x in plan.nodes && FateOf(plan.nodes[x], st.skip).Inert?
    requires plan.nodes[x].id == x
    ensures var g := f.(st := PassOver(f.st, plan.nodes[x], FateOf(plan.nodes[x], st.skip), Null));
            FilterMeaning(plan, st, rest + [x], g)
  {
    ActiveSnoc(plan, st.skip, rest, x);
    PassedResults(plan, st.skip, rest, x, f.st.results, st.results);
    PassedTraces(plan, st, rest, x, f);
    assert ActiveSet(plan, st.skip, rest + [x]) == ActiveSet(plan, st.skip, rest);
  }

  lemma FilterKept(plan: Plan, st: State, rest: seq<Id>, x: Id, f: Filtered, ctx: Context)
    requires FilterMeaning(plan, st, rest, f) && x in plan.nodes && FateOf(plan.nodes[x], st.skip).Active?
    requires ctx - {x} == f.st.context - {x}
    ensures FilterMeaning(plan, st, rest + [x], Filtered(f.st.(context := ctx), f.active + [x]))
  {
    assert (rest + [x])[..|rest|] == rest;
    InertSnoc(plan, st.skip, rest, x);
    InertTracesHead(plan, st.skip, x, rest);
    var more := ActiveSet(plan, st.skip, rest + [x]);
    assert x in rest + [x];
    AgreeWider(f.st.context, st.context, ActiveSet(plan, st.skip, rest), more);
    AgreeWider(ctx, f.st.context, {x}, more);
  }

  lemma {:induction false} FilterIs(plan: Plan, st: State, level: seq<Id>)
    requires WellFormed(plan) && forall x :: x in level ==> x in plan.nodes
    ensures FilterMeaning(plan, st, level, Filter(plan, st, level))
  {
    if |level| == 0 {
    } else {
      var rest, x := level[..|level| - 1], level[|level| - 1];
      FilterIs(plan, st, rest);
      FilterNext(plan, st, rest, x);
      assert level == rest + [x];
    }
  }

  lemma FilterNext(plan: Plan, st: State, rest: seq<Id>, x: Id)
    requires WellFormed(plan) && x in plan.nodes && FilterMeaning(plan, st, rest, Filter(plan, st, rest))
    ensures FilterMeaning(plan, st, rest + [x], Filter(plan, st, rest + [x]))
  {
    assert (rest + [x])[..|rest|] == rest;
    var f := Filter(plan, st, rest);
    if FateOf(plan.nodes[x], st.skip).Inert? {
      FilterPassed(plan, st, rest, x, f);
    } else {
      FilterKept(plan, st, rest, x, f, Filter(plan, st, rest + [x]).st.context);
    }
  }

  // Half-way through a level: `s` has gone through the first `i` nodes one by one, `p` has
  // filtered the whole level and applied what the first `i` nodes gave.
  ghost predicate MidContext(
    plan: Plan, level: seq<Id>, i: nat, source: Source, skip: set<Id>, cs: Context, cp: Context)
    requires i <= |level|
  {
    && cs - ActiveSet(plan, skip, level[i..]) == cp - ActiveSet(plan, skip, level[i..])
    && (source.Pool? ==> cs - Elements(level) == source.snapshot - Elements(level))
  }

  ghost predicate MidBooks(plan: Plan, level: seq<Id>, i: nat, skip: set<Id>, s: State, p: State)
    requires i <= |level|
  {
    && p.results == s.results + InertResults(plan, skip, level[i..])
    && s.skip == p.skip
    && (forall x :: x in level ==> (x in s.skip <==> x in skip))
    && ExecutedTraces(s.traces) == ExecutedTraces(p.traces)
    && PassedOver(p.traces) == PassedOver(s.traces) + InertTraces(plan, skip, level[i..])
    && FinishedTraces(s.events) == FinishedTraces(p.events)
  }

  ghost predicate Mid(plan: Plan, level: seq<Id>, i: nat, source: Source, skip: set<Id>, s: State, p: State)
    requires i <= |level|
  {
    MidContext(plan, level, i, source, skip, s.context, p.context) && MidBooks(plan, level, i, skip, s, p)
  }

  // Both runs are in step after `i` nodes, or have stopped together.
  ghost predicate MidRuns(plan: Plan, level: seq<Id>, i: nat, source: Source, skip: set<Id>, rs: Run, rp: Run)
    requires i <= |level|
  {
    match rs
    case Running(s) => rp.Running? && Mid(plan, level, i, source, skip, s, rp.st)
    case Stopped(s, fs) => rp.Stopped? && SameStop(s, fs, rp.st, rp.failure)
  }

  // A node that is passed over: the filter has dealt with it already.
  lemma MidPassed(plan: Plan, level: seq<Id>, i: nat, source: Source, skip: set<Id>, s: State, p: State)
    requires WellFormed(plan) && i < |level| && Mid(plan, level, i, source, skip, s, p)
    requires level[i] in plan.nodes && FateOf(plan.nodes[level[i]], skip).Inert?
    ensures var r := SeqStep(plan, s, level[i]);
            r.Running? && Mid(plan, level, i + 1, source, skip, r.st, p)
  {
    var x, rest := level[i], level[i + 1..];
    assert x in level && level[i..] == [x] + rest;
    var n := plan.nodes[x];
    assert FateOf(n, s.skip) == FateOf(n, skip);
    assert ActiveSet(plan, skip, [x] + rest) == ActiveSet(plan, skip, rest);
    PassedBooks(plan, level, i, skip, s, p, SeqInput(plan, x, s.context));
  }

  lemma PassedBooks(plan: Plan, level: seq<Id>, i: nat, skip: set<Id>, s: State, p: State, inp: Json)
    requires WellFormed(plan) && i < |level| && MidBooks(plan, level, i, skip, s, p)
    requires level[i] in plan.nodes && FateOf(plan.nodes[level[i]], skip).Inert?
    ensures var n := plan.nodes[level[i]]; MidBooks(plan, level, i + 1, skip, PassOver(s, n, FateOf(n, skip), inp), p)
  {
    var x, rest := level[i], level[i + 1..];
    assert level[i..] == [x] + rest;
    InertHead(plan, skip, x, rest, s.results);
    InertTracesHead(plan, skip, x, rest);
    ExecutedSnoc(s.traces, BlankTrace(plan.nodes[x], inp).(error := FateOf(plan.nodes[x], skip).remark));
  }

  lemma AgreeAfterWrite(c1: Context, c2: Context, apart: set<Id>, x: Id, v: Json)
    requires c1 - (apart + {x}) == c2 - (apart + {x})
    ensures c1[x := v] - apart == c2[x := v] - apart
  {
    var d1, d2 := c1[x := v] - apart, c2[x := v] - apart;
    forall y | y !in apart
      ensures y in d1 <==> y in d2
      ensures y in d1 ==> d1[y] == d2[y]
    {
      if y != x {
        AgreeAt(c1, c2, apart + {x}, y);
      }
    }
    assert d1.Keys == d2.Keys;
  }

  // Nothing of the level feeds a node of the level.
  lemma LevelHidden(plan: Plan, level: seq<Id>, x: Id)
    requires WellFormed(plan) && LevelOk(plan, level) && x in level
    ensures Elements(level) <= Hidden(plan.net, x) && Elements(level) !! Inputs(plan.net, x)
  {
    InputsVisible(plan.net, x);
  }

  // A condition never switches off a node of its own level.
  lemma DeltaMissesLevel(plan: Plan, k: nat, x: Id, ctx: Context)
    requires WellFormed(plan) && k < |LevelsOf(plan.net)| && x in LevelsOf(plan.net)[k] && x in plan.nodes
    ensures var e := Exec(plan, plan.nodes[x], ctx);
            e.Executed? ==> forall y :: y in LevelsOf(plan.net)[k] ==> y !in e.delta
  {
    var e := Exec(plan, plan.nodes[x], ctx);
    forall y | e.Executed? && y in LevelsOf(plan.net)[k] && y in e.delta
      ensures false
    {
      ExecDeltaDownstream(plan, plan.nodes[x], ctx, y);
      LevelIsIndependent(plan.net, k, x, y);
    }
  }

  // A loop result only comes from a node whose body is out of sight of what is still to come.
  lemma LoopOutOfSight(plan: Plan, level: seq<Id>, i: nat, ctx: Context, apart: set<Id>)
    requires WellFormed(plan) && LevelOk(plan, level) && i < |level| && level[i] in plan.nodes
    requires apart <= Elements(level[i + 1..])
    requires Exec(plan, plan.nodes[level[i]], ctx).Executed? && Exec(plan, plan.nodes[level[i]], ctx).signal.Expand?
    ensures OutOfSight(plan, level[i], apart)
  {
    var x := level[i];
    var n := plan.nodes[x];
    if NeverLoops(plan.env, n) {
      AttemptsAnswer(plan.env, n, ExecInput(plan.net.edges, x, ctx), ctx, 0);
      assert false;
    }
    assert LoopOk(plan, level, i);
    forall b | b in BodySet(plan.net, x)
      ensures b !in apart && Unseen(plan, b, apart)
    {
      BodyNotInLevel(plan, level, x, b);
      UnseenLess(plan, b, apart, Elements(level[i + 1..]));
    }
  }

  lemma BodyNotInLevel(plan: Plan, level: seq<Id>, x: Id, b: Id)
    requires LevelOk(plan, level) && x in level && b in BodySet(plan.net, x)
    ensures b !in level
  {
    BodyIsDownstream(plan.net, x, BodyTargets(Links(plan.net, x)), b);
  }

  lemma UnseenLess(plan: Plan, b: Id, some: set<Id>, all: set<Id>)
    requires some <= all && Unseen(plan, b, all)
    ensures Unseen(plan, b, some)
  {
    if b in plan.nodes {
      var env, n := plan.env, plan.nodes[b];
      forall inp, c
        ensures BodyRunIgnores(env, n, some, inp, c)
      {
        assert BodyRunIgnores(env, n, all, inp, c) && BodyRunIgnores(env, n, all, inp, c - some);
        assert c - some - all == c - all;
      }
    }
  }

  // The outcome that ends the attempts is one the handler gave.
  lemma {:induction false} AttemptsAnswer(env: Env, n: Node, inp: Json, ctx: Context, k: nat)
    requires k <= LastAttempt(env, n) && NeverLoops(env, n)
    ensures var o := Attempts(env, n, inp, ctx, k).value.outcome; o.Ok? ==> !IsLoop(o.value)
    decreases LastAttempt(env, n) - k
  {
    var o := env.run(n, k, inp, ctx);
    if k < LastAttempt(env, n) {
      AttemptsAnswer(env, n, inp, ctx + o.writes, k + 1);
    } else {
      assert Attempts(env, n, inp, ctx + o.writes, k + 1).None?;
    }
  }

  lemma {:induction false} BodyIsDownstream(net: Net, n: Id, targets: seq<Id>, b: Id)
    requires forall t :: t in targets ==> t in BodyTargets(Links(net, n))
    requires b in BodyOf(net, targets)
    ensures Reaches(net, n, b)
  {
    var t := targets[|targets| - 1];
    BodyTargetsInNet(net, n);
    ArcReaches(net, n, t);
    if b in TargetsOf(Links(net, t)) {
      var l :| l in Links(net, t) && l.target == b;
      LinkIsArc(net, t, l);
      ArcReaches(net, t, b);
      ReachesTransitive(net, n, t, b);
    } else if b != t {
      BodyIsDownstream(net, n, targets[..|targets| - 1], b);
    }
  }

  lemma ActiveHead(plan: Plan, level: seq<Id>, i: nat, skip: set<Id>)
    requires Distinct(level) && i < |level|
    requires level[i] in plan.nodes && FateOf(plan.nodes[level[i]], skip).Active?
    ensures ActiveSet(plan, skip, level[i..]) == ActiveSet(plan, skip, level[i + 1..]) + {level[i]}
    ensures ActiveSet(plan, skip, level[i + 1..]) <= Elements(level[i + 1..])
    ensures ActiveSet(plan, skip, level[i..]) <= Elements(level)
    ensures InertTraces(plan, skip, level[i..]) == InertTraces(plan, skip, level[i + 1..])
  {
    assert level[i..] == [level[i]] + level[i + 1..];
    InertTracesHead(plan, skip, level[i], level[i + 1..]);
  }

  // The same executed trace recorded on both sides.
  lemma RecordsInStep(s: State, p: State, t: Trace, rest: set<Trace>)
    requires ExecutedTraces(s.traces) == ExecutedTraces(p.traces) && PassedOver(p.traces) == PassedOver(s.traces) + rest
    requires FinishedTraces(s.events) == FinishedTraces(p.events) && !t.status.Skipped?
    ensures ExecutedTraces(s.traces + [t]) == ExecutedTraces(p.traces + [t])
    ensures PassedOver(p.traces + [t]) == PassedOver(s.traces + [t]) + rest
    ensures FinishedTraces(s.events + [Finished(t)]) == FinishedTraces(p.events + [Finished(t)])
  {
    ExecutedSnoc(s.traces, t);
    ExecutedSnoc(p.traces, t);
    FinishedSnoc(s.events, Finished(t));
    FinishedSnoc(p.events, Finished(t));
  }

  // What a node stored on both sides.
  lemma MidKeptContext(
    plan: Plan, level: seq<Id>, i: nat, source: Source, skip: set<Id>, cs: Context, cp: Context, out: Json)
    requires LevelOk(plan, level) && i < |level| && MidContext(plan, level, i, source, skip, cs, cp)
    requires level[i] in plan.nodes && FateOf(plan.nodes[level[i]], skip).Active?
    ensures MidContext(plan, level, i + 1, source, skip, cs[level[i] := out], cp[level[i] := out])
  {
    var x, rest := level[i], level[i + 1..];
    ActiveHead(plan, level, i, skip);
    AgreeAfterWrite(cs, cp, ActiveSet(plan, skip, rest), x, out);
    UnseenWrite(cs, Elements(level), x, out);
  }

  function Recorded(st: State, t: Trace, delta: set<Id>): State {
    st.(skip := st.skip + delta, traces := st.traces + [t], events := st.events + [Finished(t)])
  }

  lemma MidResults(plan: Plan, x: Id, rest: seq<Id>, skip: set<Id>, rs: Context, rp: Context, out: Json)
    requires x in plan.nodes && FateOf(plan.nodes[x], skip).Active?
    requires rp == rs + InertResults(plan, skip, [x] + rest)
    ensures rp[x := out] == rs[x := out] + InertResults(plan, skip, rest)
  {
    InertHead(plan, skip, x, rest, rs);
    assert x !in InertResults(plan, skip, rest);
  }

  lemma MidKeptBooks(
    plan: Plan, level: seq<Id>, i: nat, skip: set<Id>, s: State, p: State, t: Trace, delta: set<Id>, out: Json)
    requires i < |level| && MidBooks(plan, level, i, skip, s, p)
    requires level[i] in plan.nodes && FateOf(plan.nodes[level[i]], skip).Active?
    requires !t.status.Skipped? && forall y :: y in level ==> y !in delta
    ensures MidBooks(plan, level, i + 1, skip, Keep(Recorded(s, t, delta), level[i], out),
        Keep(Recorded(p, t, delta), level[i], out))
  {
    var x, rest := level[i], level[i + 1..];
    assert level[i..] == [x] + rest;
    InertTracesHead(plan, skip, x, rest);
    RecordsInStep(s, p, t, InertTraces(plan, skip, rest));
    MidResults(plan, x, rest, skip, s.results, p.results, out);
  }

  // Applying the same finished run to both states keeps them in step.
  lemma MidApply(
    plan: Plan, level: seq<Id>, i: nat, source: Source, skip: set<Id>, s: State, p: State, es: Executed, ep: Executed)
    requires WellFormed(plan) && LevelOk(plan, level) && i < |level|
    requires MidBooks(plan, level, i, skip, s, p) && MidContext(plan, level, i, source, skip, s.context, p.context)
    requires level[i] in plan.nodes && FateOf(plan.nodes[level[i]], skip).Active?
    requires es.Executed? && SameRun(es, ep) && !es.trace.status.Skipped?
    requires forall y :: y in level ==> y !in es.delta
    requires es.signal.Expand? ==> OutOfSight(plan, level[i], ActiveSet(plan, skip, level[i + 1..]))
    ensures MidRuns(plan, level, i + 1, source, skip, Apply(plan, s, level[i], es), Apply(plan, p, level[i], ep))
  {
    var x := level[i];
    match es.signal {
      case Abort(_, _) => StopsInStep(plan, level, i, skip, s, p, es.trace);
      case Plain => MidKeep(plan, level, i, source, skip, s, p, es.trace, es.delta, es.out);
      case Expand(result) =>
        MidExpanded(plan, level, i, source, skip, s.context, p.context, result, es.out);
        var out := Expanded(plan, x, result, s.context[x := es.out]);
        match out {
          case Some(v) => MidKeep(plan, level, i, source, skip, s, p, es.trace, es.delta, v);
          case None => StopsInStep(plan, level, i, skip, s, p, es.trace);
        }
    }
  }

  lemma StopsInStep(plan: Plan, level: seq<Id>, i: nat, skip: set<Id>, s: State, p: State, t: Trace)
    requires i < |level| && MidBooks(plan, level, i, skip, s, p) && !t.status.Skipped?
    ensures ExecutedTraces(s.traces + [t]) == ExecutedTraces(p.traces + [t])
    ensures FinishedTraces(s.events + [Finished(t)]) == FinishedTraces(p.events + [Finished(t)])
  {
    RecordsInStep(s, p, t, InertTraces(plan, skip, level[i..]));
  }

  lemma MidKeep(
    plan: Plan, level: seq<Id>, i: nat, source: Source, skip: set<Id>, s: State, p: State, t: Trace,
    delta: set<Id>, out: Json)
    requires LevelOk(plan, level) && i < |level|
    requires MidBooks(plan, level, i, skip, s, p) && MidContext(plan, level, i, source, skip, s.context, p.context)
    requires level[i] in plan.nodes && FateOf(plan.nodes[level[i]], skip).Active?
    requires !t.status.Skipped? && forall y :: y in level ==> y !in delta
    ensures Mid(plan, level, i + 1, source, skip, Keep(Recorded(s, t, delta), level[i], out),
        Keep(Recorded(p, t, delta), level[i], out))
  {
    MidKeptContext(plan, level, i, source, skip, s.context, p.context, out);
    MidKeptBooks(plan, level, i, skip, s, p, t, delta, out);
  }

  lemma MidExpanded(
    plan: Plan, level: seq<Id>, i: nat, source: Source, skip: set<Id>, cs: Context, cp: Context, result: Json,
    out: Json)
    requires WellFormed(plan) && LevelOk(plan, level) && i < |level| && MidContext(plan, level, i, source, skip, cs, cp)
    requires level[i] in plan.nodes && FateOf(plan.nodes[level[i]], skip).Active?
    requires OutOfSight(plan, level[i], ActiveSet(plan, skip, level[i + 1..]))
    ensures Expanded(plan, level[i], result, cs[level[i] := out]) ==
        Expanded(plan, level[i], result, cp[level[i] := out])
  {
    var x, apart := level[i], ActiveSet(plan, skip, level[i + 1..]);
    ActiveHead(plan, level, i, skip);
    AgreeAfterWrite(cs, cp, apart, x, out);
    ExpandedLocal(plan, x, result, cs[x := out], cp[x := out], apart);
  }

  // A node about to run is about to run on both sides with contexts that look alike to it.
  lemma MidBegun(plan: Plan, level: seq<Id>, i: nat, source: Source, skip: set<Id>, s: State, p: State, inp: Json)
    requires Distinct(level) && i < |level| && Mid(plan, level, i, source, skip, s, p)
    requires level[i] in plan.nodes && FateOf(plan.nodes[level[i]], skip).Active?
    ensures Mid(plan, level, i, source, skip, Begin(s, level[i], inp), p)
  {
    FinishedSnoc(s.events, Started(level[i]));
    ActiveHead(plan, level, i, skip);
    UnseenWrite(s.context, ActiveSet(plan, skip, level[i..]), level[i], inp);
    UnseenWrite(s.context, Elements(level), level[i], inp);
  }

  lemma UnseenWrite(c: Context, apart: set<Id>, x: Id, v: Json)
    requires x in apart
    ensures c[x := v] - apart == c - apart
  {
  }

  // The context the parallel run of a node starts from.
  ghost function ContextOf(source: Source, p: State): Context {
    match source
    case Live => p.context
    case Pool(snapshot) => snapshot
  }

  // The context a parallel answer leaves the shared state with.
  ghost function ContextAfter(source: Source, p: State, e: Executed): Context
    requires e.Executed?
  {
    match source
    case Live => e.ctx
    case Pool(_) => p.context
  }

  // Both runs of the node agree, and so do the contexts it is applied to.
  lemma MidExec(plan: Plan, level: seq<Id>, i: nat, source: Source, skip: set<Id>, s: State, p: State)
    requires WellFormed(plan) && LevelOk(plan, level) && i < |level| && Mid(plan, level, i, source, skip, s, p)
    requires level[i] in plan.nodes && FateOf(plan.nodes[level[i]], skip).Active?
    requires source.Pool? ==> WritesOnly(plan.env, plan.nodes[level[i]], {})
    ensures var n := plan.nodes[level[i]];
            var es, ep := Exec(plan, n, s.context), Exec(plan, n, ContextOf(source, p));
            && SameRun(es, ep)
            && (es.Executed? ==> MidContext(plan, level, i, source, skip, es.ctx, ContextAfter(source, p, ep)))
  {
    var n, all := plan.nodes[level[i]], Elements(level);
    assert level[i] in level;
    LevelHidden(plan, level, level[i]);
    ActiveHead(plan, level, i, skip);
    match source {
      case Live => ExecLocal(plan, n, s.context, p.context, ActiveSet(plan, skip, level[i..]), all);
      case Pool(snapshot) =>
        ExecLocal(plan, n, s.context, snapshot, all, all);
        ExecWrites(plan, n, s.context, {});
        assert forall c: Context :: c - {} == c;
    }
  }

  // A crash in the sequential walk is a crash on the fast path and an abort out of the pool.
  lemma MidCrash(plan: Plan, x: Id, source: Source, s: State, p: State)
    requires x in plan.nodes && !Runs(plan.env, plan.nodes[x])
    requires ExecutedTraces(s.traces) == ExecutedTraces(p.traces)
    ensures var rs, rp := RunLive(plan, s, x), Answer(plan, p, x, source);
            rs.Stopped? && rp.Stopped? && SameStop(rs.st, rs.failure, rp.st, rp.failure)
  {
    ExecutedSnoc(p.traces, CrashTrace(x, plan.env.runtime.crashText(plan.nodes[x])));
  }

  // A node that runs: both runners see the same input and the same handler answers.
  lemma MidActive(plan: Plan, level: seq<Id>, i: nat, source: Source, skip: set<Id>, s: State, p: State)
    requires WellFormed(plan) && LevelOk(plan, level) && i < |level| && Mid(plan, level, i, source, skip, s, p)
    requires level[i] in plan.nodes && FateOf(plan.nodes[level[i]], skip).Active?
    requires source.Pool? ==> WritesOnly(plan.env, plan.nodes[level[i]], {})
    ensures MidRuns(plan, level, i + 1, source, skip, RunLive(plan, s, level[i]), Answer(plan, p, level[i], source))
  {
    var x := level[i];
    if !Runs(plan.env, plan.nodes[x]) {
      MidCrash(plan, x, source, s, p);
    } else {
      MidExec(plan, level, i, source, skip, s, p);
      var es, ep := Exec(plan, plan.nodes[x], s.context), Exec(plan, plan.nodes[x], ContextOf(source, p));
      ActiveOutcome(plan, level, i, skip, s.context);
      MidApply(plan, level, i, source, skip, s.(context := es.ctx), p.(context := ContextAfter(source, p, ep)), es, ep);
    }
  }

  lemma ActiveOutcome(plan: Plan, level: seq<Id>, i: nat, skip: set<Id>, ctx: Context)
    requires WellFormed(plan) && LevelOk(plan, level) && i < |level|
    requires level[i] in plan.nodes && FateOf(plan.nodes[level[i]], skip).Active?
    ensures var e := Exec(plan, plan.nodes[level[i]], ctx);
            e.Executed? ==>
              && !e.trace.status.Skipped? && (forall y :: y in level ==> y !in e.delta)
              && (e.signal.Expand? ==> OutOfSight(plan, level[i], ActiveSet(plan, skip, level[i + 1..])))
  {
    var e := Exec(plan, plan.nodes[level[i]], ctx);
    assert level[i] in level;
    forall y | e.Executed? && y in level && y in e.delta
      ensures false
    {
      ExecDeltaDownstream(plan, plan.nodes[level[i]], ctx, y);
    }
    if e.Executed? && e.signal.Expand? {
      ActiveHead(plan, level, i, skip);
      LoopOutOfSight(plan, level, i, ctx, ActiveSet(plan, skip, level[i + 1..]));
    }
  }

  // ----- one whole level -----

  lemma ActiveSnoc(plan: Plan, skip: set<Id>, xs: seq<Id>, x: Id)
    requires x in plan.nodes
    ensures ActiveOf(plan, skip, xs + [x]) ==
            if FateOf(plan.nodes[x], skip).Active? then ActiveOf(plan, skip, xs) + [x] else ActiveOf(plan, skip, xs)
  {
    assert (xs + [x])[..|xs|] == xs;
  }

  lemma {:induction false} ActiveMembers(plan: Plan, skip: set<Id>, xs: seq<Id>)
    ensures forall y :: y in ActiveOf(plan, skip, xs) ==> y in plan.nodes && y in xs
  {
    if |xs| == 0 {
    } else {
      ActiveMembers(plan, skip, xs[..|xs| - 1]);
    }
  }

  // One node of the level on both sides.
  lemma MidRunsStep(plan: Plan, level: seq<Id>, i: nat, source: Source, skip: set<Id>, rs: Run, rp: Run)
    requires WellFormed(plan) && LevelOk(plan, level) && i < |level| && level[i] in plan.nodes
    requires source.Pool? ==> Quiet(plan, skip, level)
    requires MidRuns(plan, level, i, source, skip, rs, rp)
    ensures var active := FateOf(plan.nodes[level[i]], skip).Active?;
            MidRuns(plan, level, i + 1, source, skip, SeqRun(plan, rs, [level[i]]),
                    if active then AnswerNext(plan, rp, level[i], source) else rp)
  {
    var x := level[i];
    assert x in level;
    SeqRunOne(plan, rs, x);
    if rs.Running? {
      assert FateOf(plan.nodes[x], rs.st.skip) == FateOf(plan.nodes[x], skip);
      if FateOf(plan.nodes[x], skip).Inert? {
        MidPassed(plan, level, i, source, skip, rs.st, rp.st);
      } else {
        var inp := SeqInput(plan, x, rs.st.context);
        MidBegun(plan, level, i, source, skip, rs.st, rp.st, inp);
        MidActive(plan, level, i, source, skip, Begin(rs.st, x, inp), rp.st);
      }
    }
  }

  lemma {:induction false} LevelInStep(plan: Plan, level: seq<Id>, i: nat, s0: State, p0: State, source: Source)
    requires WellFormed(plan) && LevelOk(plan, level) && i <= |level|
    requires source.Pool? ==> Quiet(plan, s0.skip, level)
    requires Mid(plan, level, 0, source, s0.skip, s0, p0)
    ensures forall x :: x in ActiveOf(plan, s0.skip, level[..i]) ==> x in plan.nodes
    ensures MidRuns(plan, level, i, source, s0.skip, SeqRun(plan, Running(s0), level[..i]),
                    AnswerAll(plan, Running(p0), ActiveOf(plan, s0.skip, level[..i]), source))
  {
    ActiveMembers(plan, s0.skip, level[..i]);
    if i == 0 {
    } else {
      var x, before := level[i - 1], level[..i - 1];
      assert x in level && level[..i] == before + [x];
      LevelInStep(plan, level, i - 1, s0, p0, source);
      ActiveSnoc(plan, s0.skip, before, x);
      SeqRunConcat(plan, Running(s0), before, [x]);
      var active := ActiveOf(plan, s0.skip, before);
      if FateOf(plan.nodes[x], s0.skip).Active? {
        AnswerSnoc(plan, Running(p0), active, x, source);
      }
      MidRunsStep(plan, level, i - 1, source, s0.skip,
                  SeqRun(plan, Running(s0), before), AnswerAll(plan, Running(p0), active, source));
    }
  }

  lemma {:induction false} StartEventsFinishNothing(events: seq<Event>, active: seq<Id>)
    ensures FinishedTraces(events + StartEvents(active)) == FinishedTraces(events)
  {
    if |active| == 0 {
      assert events + [] == events;
    } else {
      var front := StartEvents(active[..|active| - 1]);
      StartEventsFinishNothing(events, active[..|active| - 1]);
      assert events + (front + [Started(active[|active| - 1])]) == (events + front) + [Started(active[|active| - 1])];
      FinishedSnoc(events + front, Started(active[|active| - 1]));
    }
  }

  lemma MidStart(plan: Plan, level: seq<Id>, s: State, p: State, f: Filtered)
    requires SameState(s, p) && FilterMeaning(plan, p, level, f)
    ensures Mid(plan, level, 0, SourceOf(f), s.skip, s, AllBegun(f))
  {
    assert level[0..] == level;
    StartEventsFinishNothing(f.st.events, f.active);
    AgreeWider(f.st.context, s.context, ActiveSet(plan, s.skip, level), Elements(level));
  }

  lemma MidEnd(plan: Plan, level: seq<Id>, source: Source, skip: set<Id>, rs: Run, rp: Run)
    requires MidRuns(plan, level, |level|, source, skip, rs, rp)
    ensures SameOutcome(rs, rp)
  {
    if rs.Running? {
      assert level[|level|..] == [];
      assert ActiveSet(plan, skip, []) == {} && InertTraces(plan, skip, []) == {};
      assert InertResults(plan, skip, []) == map[];
      assert rs.st.context - {} == rs.st.context && rp.st.context - {} == rp.st.context;
    }
  }

  // One level: filter pass, fast path or pool, and application in level order.
  lemma LevelRefines(plan: Plan, level: seq<Id>, s: State, p: State)
    requires WellFormed(plan) && LevelOk(plan, level) && WritersAloneIn(plan, s.skip, level) && SameState(s, p)
    ensures SameOutcome(SeqRun(plan, Running(s), level), ParLevel(plan, p, level))
  {
    var f := Filter(plan, p, level);
    FilterIs(plan, p, level);
    FilterActive(plan, p, level);
    var source, p0 := SourceOf(f), AllBegun(f);
    MidStart(plan, level, s, p, f);
    LevelInStep(plan, level, |level|, s, p0, source);
    assert level[..|level|] == level;
    MidEnd(plan, level, source, s.skip, SeqRun(plan, Running(s), level),
        AnswerAll(plan, Running(p0), f.active, source));
    if |f.active| == 0 {
      assert f.st.events + [] == f.st.events;
    }
  }

  // ----- whole runs -----

  lemma {:induction false} FlattenPrefix(levels: seq<seq<Id>>, k: nat)
    requires k < |levels|
    ensures Flatten(levels[..k + 1]) == Flatten(levels[..k]) + levels[k]
    ensures Flatten(levels[..k + 1]) <= Flatten(levels)
    decreases |levels| - k
  {
    assert levels[..k + 1][..k] == levels[..k];
    if k + 1 < |levels| {
      FlattenPrefix(levels, k + 1);
    } else {
      assert levels[..k + 1] == levels;
    }
  }

  lemma LevelsAreOk(plan: Plan, k: nat)
    requires WellFormed(plan) && LevelsSafe(plan) && k < |LevelsOf(plan.net)|
    ensures LevelOk(plan, LevelsOf(plan.net)[k])
  {
    var net := plan.net;
    var level := LevelsOf(net)[k];
    LevelIsDistinct(net, k);
    forall a, b | a in level && b in level
      ensures !Reaches(net, a, b)
    {
      LevelIsIndependent(net, k, a, b);
    }
  }

  // A level is a duplicate-free slice of the order.
  lemma LevelIsDistinct(net: Net, k: nat)
    requires Distinct(net.ids) && k < |LevelsOf(net)|
    ensures var level := LevelsOf(net)[k]; Distinct(level) && forall x :: x in level ==> x in net.ids && x in Order(net)
  {
    var level := LevelsOf(net)[k];
    LevelsFlattenToOrder(net);
    FlattenPrefix(LevelsOf(net), k);
    OrderScheduled(net);
    var before := |Flatten(LevelsOf(net)[..k])|;
    assert forall i :: 0 <= i < |level| ==> Order(net)[before + i] == level[i];
    forall x | x in level
      ensures x in net.ids && x in Order(net)
    {
      assert ScheduledIff(net, Order(net), x);
    }
  }

  // Where the sequential walk is when it comes to the k-th level.
  ghost function AtLevel(plan: Plan, st: State, k: nat): Run
    requires k <= |LevelsOf(plan.net)|
  {
    SeqRun(plan, Running(st), Flatten(LevelsOf(plan.net)[..k]))
  }

  // Writers are alone among the nodes that will run at the k-th level.
  ghost predicate AloneAt(plan: Plan, st: State, k: nat)
    requires k < |LevelsOf(plan.net)|
  {
    AtLevel(plan, st, k).Running? ==> WritersAloneIn(plan, AtLevel(plan, st, k).st.skip, LevelsOf(plan.net)[k])
  }

  lemma AtNextLevel(plan: Plan, st: State, k: nat)
    requires k < |LevelsOf(plan.net)|
    ensures AtLevel(plan, st, k + 1) == SeqRun(plan, AtLevel(plan, st, k), LevelsOf(plan.net)[k])
  {
    FlattenPrefix(LevelsOf(plan.net), k);
    SeqRunConcat(plan, Running(st), Flatten(LevelsOf(plan.net)[..k]), LevelsOf(plan.net)[k]);
  }

  lemma {:induction false} LevelsInStep(plan: Plan, st: State, k: nat)
    requires WellFormed(plan) && LevelsSafe(plan) && k <= |LevelsOf(plan.net)|
    requires forall j :: 0 <= j < k ==> AloneAt(plan, st, j)
    ensures SameOutcome(AtLevel(plan, st, k), ParRun(plan, Running(st), LevelsOf(plan.net)[..k]))
  {
    if k == 0 {
    } else {
      var levels := LevelsOf(plan.net);
      LevelsInStep(plan, st, k - 1);
      assert levels[..k][..k - 1] == levels[..k - 1] && AloneAt(plan, st, k - 1);
      AtNextLevel(plan, st, k - 1);
      var rs, rp := AtLevel(plan, st, k - 1), ParRun(plan, Running(st), levels[..k - 1]);
      if rs.Running? {
        LevelsAreOk(plan, k - 1);
        LevelRefines(plan, levels[k - 1], rs.st, rp.st);
      } else {
        SeqRunStopped(plan, rs, levels[k - 1]);
      }
    }
  }

  lemma RunsInStep(plan: Plan, st: State)
    requires WellFormed(plan) && LevelsSafe(plan)
    requires forall k :: 0 <= k < |LevelsOf(plan.net)| ==> AloneAt(plan, st, k)
    ensures SameOutcome(RunInOrder(plan, st), RunByLevels(plan, st))
  {
    var levels := LevelsOf(plan.net);
    LevelsInStep(plan, st, |levels|);
    assert levels[..|levels|] == levels;
    LevelsFlattenToOrder(plan.net);
  }

  // The more is skipped, the fewer nodes of a level run.
  lemma {:induction false} FewerActive(plan: Plan, less: set<Id>, more: set<Id>, level: seq<Id>)
    requires less <= more
    ensures |ActiveOf(plan, more, level)| <= |ActiveOf(plan, less, level)|
  {
    if |level| == 0 {
    } else {
      FewerActive(plan, less, more, level[..|level| - 1]);
    }
  }

  lemma {:induction false} NobodyActive(plan: Plan, skip: set<Id>, level: seq<Id>, x: Id)
    requires |ActiveOf(plan, skip, level)| == 0 && x in level && x in plan.nodes
    ensures FateOf(plan.nodes[x], skip).Inert?
  {
    if x != level[|level| - 1] {
      NobodyActive(plan, skip, level[..|level| - 1], x);
    }
  }

  lemma AloneWhenSkippingMore(plan: Plan, less: set<Id>, more: set<Id>, level: seq<Id>)
    requires less <= more && WritersAloneIn(plan, less, level)
    ensures WritersAloneIn(plan, more, level)
  {
    FewerActive(plan, less, more, level);
    if |ActiveOf(plan, more, level)| == 0 {
      forall x | x in level && x in plan.nodes
        ensures FateOf(plan.nodes[x], more).Inert?
      {
        NobodyActive(plan, more, level, x);
      }
    }
  }

  lemma {:induction false} SkipGrows(plan: Plan, run: Run, order: seq<Id>)
    ensures run.st.skip <= SeqRun(plan, run, order).st.skip
  {
    if |order| == 0 {
    } else {
      SkipGrows(plan, run, order[..|order| - 1]);
    }
  }

  // The main theorem: on every graph, from every starting state, the parallel run has the
  // outcome of the sequential one.
  lemma {:induction false} ParallelRefinesSequential(plan: Plan, st: State)
    requires WellFormed(plan) && LevelsSafe(plan) && WritersAlone(plan, st.skip)
    ensures SameOutcome(RunInOrder(plan, st), RunByLevels(plan, st))
  {
    forall k | 0 <= k < |LevelsOf(plan.net)|
      ensures AloneAt(plan, st, k)
    {
      SkipGrows(plan, Running(st), Flatten(LevelsOf(plan.net)[..k]));
      AloneWhenSkippingMore(plan, st.skip, AtLevel(plan, st, k).st.skip, LevelsOf(plan.net)[k]);
    }
    RunsInStep(plan, st);
  }
}
