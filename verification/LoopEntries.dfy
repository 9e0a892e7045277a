/** What a run, in either mode, leaves for a loop: the expansion of its result on what leads to
    the loop, if its body looks at nothing else. */
module LoopEntries {
  import opened Nets
  import opened Kahn
  import opened Levels
  import opened Values
  import opened NodeExec
  import opened LoopBody
  import opened Runner
  import opened Locality
  import opened Refinement
  import opened RunLaws
  import opened ParallelLaws
  import opened DataFlow

  // All but what leads to the loop `x`, the loop itself and its body.
  ghost function Outside(net: Net, x: Id, vars: set<Id>): set<Id> {
    Hidden(net, x) + vars - BodySet(net, x) - {x}
  }

  ghost predicate BodyAbsent(net: Net, x: Id, ctx: Context) {
    forall b :: b in BodySet(net, x) ==> b !in ctx
  }

  // The expansion of a loop's result on what leads to the loop.
  ghost function EntryOf(plan: Plan, ctx: Context, t: Trace, vars: set<Id>): Option<Json> {
    Expanded(plan, t.node, t.output, (ctx - (Hidden(plan.net, t.node) + vars))[t.node := t.output])
  }

  // A loop that answered, and whose body sees what leads to it, itself and the loop only.
  ghost predicate SelfContained(plan: Plan, t: Trace, vars: set<Id>) {
    && t.status.Succeeded? && IsLoop(t.output) && WentOn(plan, t)
    && OutOfSight(plan, t.node, Outside(plan.net, t.node, vars))
  }

  lemma BodyIsHidden(net: Net, x: Id, b: Id)
    requires !Reaches(net, x, x) && b in BodySet(net, x)
    ensures b in Hidden(net, x) && b != x && Reaches(net, x, b)
  {
    BodyIsDownstream(net, x, BodyTargets(Links(net, x)), b);
    ReachesInNet(net, x, b);
    if Reaches(net, b, x) {
      ReachesTransitive(net, x, b, x);
    }
  }

  // Expanding in any context that agrees on what leads to the loop.
  lemma ExpandsOnUpstream(plan: Plan, ctx: Context, base: Context, t: Trace, vars: set<Id>)
    requires WellFormed(plan) && SelfContained(plan, t, vars) && !Reaches(plan.net, t.node, t.node)
    requires BodyAbsent(plan.net, t.node, ctx)
    requires ctx - (Hidden(plan.net, t.node) + vars) == base - (Hidden(plan.net, t.node) + vars)
    ensures Expanded(plan, t.node, t.output, ctx[t.node := t.output]) == EntryOf(plan, base, t, vars)
  {
    var x, unseen, apart := t.node, Hidden(plan.net, t.node) + vars, Outside(plan.net, t.node, vars);
    var c1, c2 := ctx[x := t.output], (base - unseen)[x := t.output];
    forall y | y !in apart
      ensures SameAt(c1, c2, y)
    {
      if y in BodySet(plan.net, x) {
        BodyIsHidden(plan.net, x, y);
      } else if y != x {
        AgreeAt(ctx, base, unseen, y);
      }
    }
    assert c1 - apart == c2 - apart;
    ExpandedLocal(plan, x, t.output, c1, c2, apart);
  }

  // Applying a loop's run to a context that agrees with what its level or the walk found.
  lemma AppliedEntry(plan: Plan, st: State, t: Trace, e: Executed, base: Context, vars: set<Id>)
    requires WellFormed(plan) && SelfContained(plan, t, vars) && !Reaches(plan.net, t.node, t.node)
    requires e.Executed? && e.trace == t && e.out == t.output && e.signal == Expand(e.out)
    requires BodyAbsent(plan.net, t.node, st.context)
    requires st.context - (Hidden(plan.net, t.node) + vars) == base - (Hidden(plan.net, t.node) + vars)
    ensures var after := Apply(plan, st, t.node, e).st.context;
            t.node in after && Some(after[t.node]) == EntryOf(plan, base, t, vars)
  {
    ExpandsOnUpstream(plan, st.context, base, t, vars);
  }

  lemma BodyAvoids(plan: Plan, x: Id, vars: set<Id>)
    requires WellFormed(plan) && WritesVariables(plan, vars) && !Reaches(plan.net, x, x)
    ensures BodySet(plan.net, x) !! vars + {x}
  {
    forall b | b in BodySet(plan.net, x)
      ensures b !in vars + {x}
    {
      BodyIsHidden(plan.net, x, b);
    }
  }

  lemma BodyStaysAbsent(plan: Plan, x: Id, before: Context, after: Context, written: set<Id>)
    requires after - written == before - written
    requires BodyAbsent(plan.net, x, before) && BodySet(plan.net, x) !! written
    ensures BodyAbsent(plan.net, x, after)
  {
    forall b | b in BodySet(plan.net, x)
      ensures b !in after
    {
      AgreeAt(after, before, written, b);
    }
  }

  // A context from which a loop may be expanded as from `base`.
  ghost predicate Fit(plan: Plan, x: Id, ctx: Context, base: Context, vars: set<Id>) {
    && !Reaches(plan.net, x, x) && BodyAbsent(plan.net, x, ctx)
    && ctx - (Hidden(plan.net, x) + vars) == base - (Hidden(plan.net, x) + vars)
  }

  // Writing what is nothing to the loop, nor its body, changes nothing about that.
  lemma StaysFit(plan: Plan, x: Id, before: Context, after: Context, base: Context, written: set<Id>, vars: set<Id>)
    requires Fit(plan, x, before, base, vars) && after - written == before - written
    requires written <= Hidden(plan.net, x) + vars && BodySet(plan.net, x) !! written
    ensures Fit(plan, x, after, base, vars)
  {
    BodyStaysAbsent(plan, x, before, after, written);
    AgreeWider(after, before, written, Hidden(plan.net, x) + vars);
  }

  ghost predicate HasEntry(plan: Plan, after: Context, t: Trace, base: Context, vars: set<Id>) {
    t.node in after && Some(after[t.node]) == EntryOf(plan, base, t, vars)
  }

  lemma LiveEntry(plan: Plan, st: State, t: Trace, base: Context, vars: set<Id>)
    requires WellFormed(plan) && WritesVariables(plan, vars) && SelfContained(plan, t, vars) && t.node in plan.nodes
    requires t == PoolResult(plan, t.node, st.context).trace && Fit(plan, t.node, st.context, base, vars)
    ensures RunLive(plan, st, t.node).Running? && HasEntry(plan, RunLive(plan, st, t.node).st.context, t, base, vars)
  {
    var n, e := plan.nodes[t.node], Exec(plan, plan.nodes[t.node], st.context);
    assert Runs(plan.env, n);
    ExecFacts(plan, n, st.context);
    ExecWrites(plan, n, st.context, vars);
    BodyAvoids(plan, t.node, vars);
    StaysFit(plan, t.node, st.context, e.ctx, base, vars, vars);
    AppliedEntry(plan, st.(context := e.ctx), t, e, base, vars);
  }

  // ----- sequential -----

  lemma StepEntry(plan: Plan, st: State, t: Trace, vars: set<Id>)
    requires WellFormed(plan) && WritesVariables(plan, vars) && SelfContained(plan, t, vars)
    requires t.node in plan.nodes && FateOf(plan.nodes[t.node], st.skip).Active?
    requires t == PoolResult(plan, t.node, st.context[t.node := SeqInput(plan, t.node, st.context)]).trace
    requires Fit(plan, t.node, st.context, st.context, vars)
    ensures var r := SeqStep(plan, st, t.node);
            r.Running? && HasEntry(plan, r.st.context, t, st.context, vars)
  {
    var x, c := t.node, st.context;
    var begun := Begin(st, x, SeqInput(plan, x, c));
    assert begun.context - {x} == c - {x};
    BodyAvoids(plan, x, vars);
    StaysFit(plan, x, c, begun.context, c, {x}, vars);
    LiveEntry(plan, begun, t, c, vars);
  }

  // The context before the k-th step holds nothing for a body that is still to come.
  lemma WalkBodyAbsent(plan: Plan, st: State, k: nat, vars: set<Id>)
    requires WellFormed(plan) && WritesVariables(plan, vars) && k < |Order(plan.net)|
    requires BodyAbsent(plan.net, Order(plan.net)[k], st.context)
    ensures BodyAbsent(plan.net, Order(plan.net)[k], SeqRun(plan, Running(st), Order(plan.net)[..k]).st.context)
  {
    var order := Order(plan.net);
    OrderScheduled(plan.net);
    OrderIsAhead(plan, order, k);
    forall b | b in BodySet(plan.net, order[k])
      ensures b !in SeqRun(plan, Running(st), order[..k]).st.context
    {
      BodyIsHidden(plan.net, order[k], b);
      WalkMisses(plan, Running(st), order[..k], b, vars);
    }
  }

  lemma WalkEntry(plan: Plan, st: State, t: Trace, vars: set<Id>)
    requires WellFormed(plan) && WritesVariables(plan, vars) && st.traces == [] && SelfContained(plan, t, vars)
    requires t in RunInOrder(plan, st).st.traces && BodyAbsent(plan.net, t.node, st.context)
    ensures HasEntry(plan, RunInOrder(plan, st).st.context, t, RunInOrder(plan, st).st.context, vars)
  {
    var order := Order(plan.net);
    var k := TraceOrigin(plan, st, order, t);
    var x, r, rest := order[k], SeqRun(plan, Running(st), order[..k]), order[k + 1..];
    OrderScheduled(plan.net);
    OrderIsAhead(plan, order, k);
    WalkBodyAbsent(plan, st, k, vars);
    StepEntry(plan, r.st, t, vars);
    var s := SeqStep(plan, r.st, x);
    IndexUnique(order, k);
    WalkMisses(plan, s, rest, x, vars);
    WalkStep(plan, st, k);
    ViewFromBefore(plan, st, k, vars);
  }

  lemma WalkStep(plan: Plan, st: State, k: nat)
    requires k < |Order(plan.net)| && SeqRun(plan, Running(st), Order(plan.net)[..k]).Running?
    ensures var order := Order(plan.net);
            RunInOrder(plan, st) ==
              SeqRun(plan, SeqStep(plan, SeqRun(plan, Running(st), order[..k]).st, order[k]), order[k + 1..])
  {
    var order := Order(plan.net);
    SeqRunSplit(plan, Running(st), order, k + 1);
    assert order[..k + 1] == order[..k] + [order[k]];
    SeqRunSnoc(plan, Running(st), order[..k], order[k]);
  }

  // ----- parallel -----

  // The node's own answer in the pool.
  lemma PoolOwnEntry(plan: Plan, st: State, snapshot: Context, t: Trace, base: Context, vars: set<Id>)
    requires WellFormed(plan) && WritesVariables(plan, vars) && SelfContained(plan, t, vars) && t.node in plan.nodes
    requires t == PoolResult(plan, t.node, snapshot).trace && Fit(plan, t.node, st.context, base, vars)
    ensures HasEntry(plan, Answer(plan, st, t.node, Pool(snapshot)).st.context, t, base, vars)
  {
    var n := plan.nodes[t.node];
    assert Runs(plan.env, n);
    ExecFacts(plan, n, snapshot);
    AppliedEntry(plan, st, t, Exec(plan, n, snapshot), base, vars);
  }

  // The answers before it leave what leads to a loop, and its body, alone.
  lemma PoolStaysFit(plan: Plan, st: State, front: seq<Id>, snapshot: Context, x: Id, base: Context, vars: set<Id>)
    requires WellFormed(plan) && WritesVariables(plan, vars) && (forall y :: y in front ==> y in plan.nodes)
    requires Elements(front) <= Hidden(plan.net, x) && BodySet(plan.net, x) !! Elements(front)
    requires Fit(plan, x, st.context, base, vars)
    ensures Fit(plan, x, AnswerAll(plan, Running(st), front, Pool(snapshot)).st.context, base, vars)
  {
    var written := Elements(front) + vars;
    BodyAvoids(plan, x, vars);
    AnswersFrame(plan, st, front, Pool(snapshot), written, vars);
    StaysFit(plan, x, st.context, AnswerAll(plan, Running(st), front, Pool(snapshot)).st.context, base, written, vars);
  }

  // The answers after it leave its entry alone.
  lemma OtherAnswer(plan: Plan, st: State, y: Id, snapshot: Context, t: Trace, base: Context, vars: set<Id>)
    requires WellFormed(plan) && WritesVariables(plan, vars) && t.node in plan.nodes && y in plan.nodes && y != t.node
    requires HasEntry(plan, st.context, t, base, vars)
    ensures HasEntry(plan, Answer(plan, st, y, Pool(snapshot)).st.context, t, base, vars)
  {
    AnswerFrame(plan, st, y, Pool(snapshot), {y} + vars, vars);
    assert t.node in plan.net.ids;
    AgreeAt(Answer(plan, st, y, Pool(snapshot)).st.context, st.context, {y} + vars, t.node);
  }

  // The trace of a node is not among those of others.
  lemma NotYetAnswered(plan: Plan, st: State, front: seq<Id>, snapshot: Context, t: Trace)
    requires WellFormed(plan) && (forall y :: y in front ==> y in plan.nodes) && t.node !in front && t !in st.traces
    ensures t !in AnswerAll(plan, Running(st), front, Pool(snapshot)).st.traces
  {
    if t in AnswerAll(plan, Running(st), front, Pool(snapshot)).st.traces {
      var z := PoolTrace(plan, Running(st), front, snapshot, t);
      PoolTraceNode(plan, z, snapshot);
    }
  }

  lemma AnsweredBefore(plan: Plan, st: State, y: Id, snapshot: Context, t: Trace)
    requires WellFormed(plan) && y in plan.nodes && t.node != y
    requires t in Answer(plan, st, y, Pool(snapshot)).st.traces
    ensures t in st.traces
  {
    PoolTraceNode(plan, y, snapshot);
  }

  // What the pool's answers must leave alone.
  ghost predicate Beside(plan: Plan, active: seq<Id>, x: Id) {
    && (forall y :: y in active ==> y in plan.nodes)
    && Elements(active) <= Hidden(plan.net, x) && BodySet(plan.net, x) !! Elements(active)
  }

  lemma {:induction false} PoolEntry(
    plan: Plan, st: State, active: seq<Id>, snapshot: Context, t: Trace, base: Context, vars: set<Id>)
    requires WellFormed(plan) && WritesVariables(plan, vars) && SelfContained(plan, t, vars)
    requires Distinct(active) && t.node in active && Beside(plan, active, t.node)
    requires t == PoolResult(plan, t.node, snapshot).trace && Fit(plan, t.node, st.context, base, vars)
    requires t !in st.traces && t in AnswerAll(plan, Running(st), active, Pool(snapshot)).st.traces
    ensures HasEntry(plan, AnswerAll(plan, Running(st), active, Pool(snapshot)).st.context, t, base, vars)
  {
    var front, y := active[..|active| - 1], active[|active| - 1];
    assert y in active && forall x :: x in front ==> x in active;
    assert Beside(plan, front, t.node);
    var r := AnswerAll(plan, Running(st), front, Pool(snapshot));
    if y == t.node {
      NotYetAnswered(plan, st, front, snapshot, t);
      PoolStaysFit(plan, st, front, snapshot, t.node, base, vars);
      PoolOwnEntry(plan, r.st, snapshot, t, base, vars);
    } else {
      if r.Running? {
        AnsweredBefore(plan, r.st, y, snapshot, t);
      }
      PoolEntry(plan, st, front, snapshot, t, base, vars);
      if r.Running? {
        OtherAnswer(plan, r.st, y, snapshot, t, base, vars);
      }
    }
  }

  // In its level, on the fast path or in the pool.
  lemma LevelEntry(plan: Plan, st: State, k: nat, t: Trace, vars: set<Id>)
    requires WellFormed(plan) && WritesVariables(plan, vars) && SelfContained(plan, t, vars)
    requires k < |LevelsOf(plan.net)| && t.node in LevelsOf(plan.net)[k] && t.node in plan.nodes
    requires FateOf(plan.nodes[t.node], st.skip).Active? && t !in st.traces
    requires var f := Filter(plan, st, LevelsOf(plan.net)[k]);
             t == PoolResult(plan, t.node, f.st.context).trace && BodyAbsent(plan.net, t.node, f.st.context)
    requires t in ParLevel(plan, st, LevelsOf(plan.net)[k]).st.traces
    ensures HasEntry(plan, ParLevel(plan, st, LevelsOf(plan.net)[k]).st.context, t,
                     Filter(plan, st, LevelsOf(plan.net)[k]).st.context, vars)
  {
    var level := LevelsOf(plan.net)[k];
    var f, c := Filter(plan, st, level), Filter(plan, st, level).st.context;
    ActiveBeside(plan, st, k, t.node);
    assert Fit(plan, t.node, c, c, vars);
    if SourceOf(f).Live? {
      AnswerOnly(plan, AllBegun(f), f.active, Live);
      LiveEntry(plan, AllBegun(f), t, c, vars);
    } else {
      if t in f.st.traces {
        FilterTraces(plan, st, level, t);
      }
      PoolEntry(plan, AllBegun(f), f.active, c, t, c, vars);
    }
  }

  lemma ActiveBeside(plan: Plan, st: State, k: nat, x: Id)
    requires WellFormed(plan) && k < |LevelsOf(plan.net)| && x in LevelsOf(plan.net)[k] && x in plan.nodes
    requires FateOf(plan.nodes[x], st.skip).Active?
    ensures var active := Filter(plan, st, LevelsOf(plan.net)[k]).active;
            Distinct(active) && x in active && Beside(plan, active, x) && !Reaches(plan.net, x, x)
  {
    var level := LevelsOf(plan.net)[k];
    LevelIsDistinct(plan.net, k);
    NotUpstream(plan.net, k, k, x, x);
    FilterIs(plan, st, level);
    ActiveIff(plan, st.skip, level);
    PartsDistinct(plan, st.skip, level);
    LowerIsHidden(plan.net, k, k, x);
    BodyNotAbreast(plan, k, x);
    forall y | y in Filter(plan, st, level).active
      ensures y in Elements(level)
    {
    }
  }

  lemma BodyNotAbreast(plan: Plan, k: nat, x: Id)
    requires WellFormed(plan) && k < |LevelsOf(plan.net)| && x in LevelsOf(plan.net)[k]
    ensures BodySet(plan.net, x) !! Elements(LevelsOf(plan.net)[k])
  {
    NotUpstream(plan.net, k, k, x, x);
    forall b | b in BodySet(plan.net, x)
      ensures b !in LevelsOf(plan.net)[k]
    {
      BodyIsHidden(plan.net, x, b);
      if b in LevelsOf(plan.net)[k] {
        NotUpstream(plan.net, k, k, b, x);
      }
    }
  }

  // Up to its level nothing is written for a body that is still to come.
  lemma LevelsMissBelow(plan: Plan, st: State, k: nat, x: Id, b: Id, vars: set<Id>)
    requires WellFormed(plan) && HandlersWriteOnly(plan, vars) && b !in vars
    requires k < |LevelsOf(plan.net)| && x in LevelsOf(plan.net)[k] && Reaches(plan.net, x, b)
    ensures SameAt(Filter(plan, ParAt(plan, st, k).st, LevelsOf(plan.net)[k]).st.context, st.context, b)
  {
    var levels, apart := LevelsOf(plan.net), Elements(plan.net.ids) - {b} + vars;
    forall j | 0 <= j <= k
      ensures Covered(plan, ParAt(plan, st, j).st.skip, levels[j], apart)
    {
      LevelIsDistinct(plan.net, j);
      if b in levels[j] {
        NotUpstream(plan.net, j, k, b, x);
      }
    }
    assert ParAt(plan, st, 0) == Running(st);
    LevelsFrame(plan, st, 0, k, apart, vars);
    LevelIsDistinct(plan.net, k);
    FilterFrame(plan, ParAt(plan, st, k).st, levels[k], apart);
    AgreeAt(Filter(plan, ParAt(plan, st, k).st, levels[k]).st.context, st.context, apart, b);
  }

  // The levels after its own leave a node's entry alone.
  lemma LevelsMissAbove(plan: Plan, st: State, k: nat, x: Id, vars: set<Id>)
    requires WellFormed(plan) && HandlersWriteOnly(plan, vars) && x !in vars
    requires k < |LevelsOf(plan.net)| && x in LevelsOf(plan.net)[k]
    ensures SameAt(RunByLevels(plan, st).st.context, ParAt(plan, st, k + 1).st.context, x)
  {
    var levels, apart := LevelsOf(plan.net), Elements(plan.net.ids) - {x} + vars;
    forall j | k + 1 <= j < |levels|
      ensures Covered(plan, ParAt(plan, st, j).st.skip, levels[j], apart)
    {
      LevelIsDistinct(plan.net, j);
      if x in levels[j] {
        LevelIsUnique(plan.net, j, k, x);
      }
    }
    LevelsFrame(plan, st, k + 1, |levels|, apart, vars);
    ParEnds(plan, st);
    AgreeAt(RunByLevels(plan, st).st.context, ParAt(plan, st, k + 1).st.context, apart, x);
  }

  lemma LevelsEntry(plan: Plan, st: State, t: Trace, vars: set<Id>)
    requires WellFormed(plan) && WritesVariables(plan, vars) && Blank(st) && SelfContained(plan, t, vars)
    requires t in RunByLevels(plan, st).st.traces && BodyAbsent(plan.net, t.node, st.context)
    ensures HasEntry(plan, RunByLevels(plan, st).st.context, t, RunByLevels(plan, st).st.context, vars)
  {
    var levels, x := LevelsOf(plan.net), t.node;
    ParEnds(plan, st);
    var k := ParTraceOrigin(plan, st, |levels|, t);
    var before := ParAt(plan, st, k).st;
    NotUpstream(plan.net, k, k, x, x);
    forall b | b in BodySet(plan.net, x)
      ensures b !in Filter(plan, before, levels[k]).st.context
    {
      BodyIsHidden(plan.net, x, b);
      LevelsMissBelow(plan, st, k, x, b, vars);
    }
    if t in before.traces {
      LevelOfTrace(plan, st, k, t);
      var j :| 0 <= j < k && x in levels[j];
      LevelIsUnique(plan.net, j, k, x);
    }
    ParNext(plan, st, k);
    LevelEntry(plan, before, k, t, vars);
    LevelsMissAbove(plan, st, k, x, vars);
    ParViewFromBefore(plan, st, k, x, vars);
  }

  // ----- both modes -----

  // For a loop whose body sees what leads to it, itself and the loop only, a run leaves the
  // expansion of its result on what it leaves for the nodes that lead to it.
  lemma LoopEntry(plan: Plan, st: State, parallel: bool, t: Trace, vars: set<Id>)
    requires WellFormed(plan) && WritesVariables(plan, vars) && Blank(st) && SelfContained(plan, t, vars)
    requires t in RunIn(plan, st, parallel).st.traces && BodyAbsent(plan.net, t.node, st.context)
    ensures var c := RunIn(plan, st, parallel).st.context;
            t.node in c && Some(c[t.node]) == EntryOf(plan, c, t, vars)
  {
    if parallel {
      LevelsEntry(plan, st, t, vars);
    } else {
      WalkEntry(plan, st, t, vars);
    }
  }
}
