/** What becomes of a context key that a handler writes. Nodes that share a level run against
    snapshots, so such a write is lost in parallel mode and kept in sequential mode; the modes
    agree exactly when every node that writes is the only one of its level to run. */
module Writers {
  import opened Nets
  import opened Kahn
  import opened Levels
  import opened LevelTheorems
  import opened Values
  import opened NodeExec
  import opened Runner
  import opened Locality
  import opened Refinement
  import opened RunLaws
  import opened ParallelLaws
  import opened DataFlow

  ghost predicate NeverWrites(env: Env, n: Node, key: Id) {
    forall k, inp, c :: key !in env.run(n, k, inp, c).writes
  }

  ghost predicate AlwaysWrites(env: Env, n: Node, key: Id) {
    forall k, inp, c :: key in env.run(n, k, inp, c).writes
  }

  // `x` always writes `key`, which no other node writes and which is no node's id.
  ghost predicate Marks(plan: Plan, x: Id, key: Id) {
    && x in plan.nodes && key !in plan.net.ids && AlwaysWrites(plan.env, plan.nodes[x], key)
    && forall i :: i in plan.nodes && i != x ==> NeverWrites(plan.env, plan.nodes[i], key)
  }

  // ----- one node -----

  lemma {:induction false} AttemptsKeys(env: Env, n: Node, inp: Json, c: Context, k: nat, key: Id)
    requires k <= LastAttempt(env, n)
    ensures var after := Attempts(env, n, inp, c, k).value.ctx;
            && c.Keys <= after.Keys
            && (NeverWrites(env, n, key) ==> (key in after <==> key in c))
            && (AlwaysWrites(env, n, key) ==> key in after)
    decreases LastAttempt(env, n) - k
  {
    var o := env.run(n, k, inp, c);
    if k == LastAttempt(env, n) {
      assert Attempts(env, n, inp, c + o.writes, k + 1).None?;
    } else {
      AttemptsKeys(env, n, inp, c + o.writes, k + 1, key);
    }
  }

  lemma ExecKeys(plan: Plan, n: Node, c: Context, key: Id)
    requires Runs(plan.env, n)
    ensures var e := Exec(plan, n, c);
            && c.Keys <= e.ctx.Keys
            && (NeverWrites(plan.env, n, key) ==> (key in e.ctx <==> key in c))
            && (AlwaysWrites(plan.env, n, key) ==> key in e.ctx)
  {
    AttemptsKeys(plan.env, n, ExecInput(plan.net.edges, n.id, c), c, 0, key);
  }

  // Applying a finished run adds the entry of its node and no other.
  lemma ApplyKeys(plan: Plan, st: State, x: Id, e: Executed)
    requires e.Executed?
    ensures Apply(plan, st, x, e).st.context.Keys == st.context.Keys + {x}
  {
  }

  // ----- sequential mode keeps a write -----

  lemma StepKeys(plan: Plan, st: State, x: Id, key: Id)
    requires WellFormed(plan) && x in plan.nodes && x != key
    ensures var after := SeqStep(plan, st, x).st;
            && st.context.Keys <= after.context.Keys
            && ((NeverWrites(plan.env, plan.nodes[x], key) || FateOf(plan.nodes[x], st.skip).Inert?) ==>
                  (key in after.context <==> key in st.context))
            && (AlwaysWrites(plan.env, plan.nodes[x], key) && Runs(plan.env, plan.nodes[x])
                && FateOf(plan.nodes[x], st.skip).Active? ==>
                  key in after.context)
  {
    var n := plan.nodes[x];
    var begun := Begin(st, x, SeqInput(plan, x, st.context));
    if FateOf(n, st.skip).Active? && Runs(plan.env, n) {
      ExecKeys(plan, n, begun.context, key);
      var e := Exec(plan, n, begun.context);
      ApplyKeys(plan, begun.(context := e.ctx), x, e);
    }
  }

  lemma {:induction false} RunKeys(plan: Plan, run: Run, order: seq<Id>, key: Id)
    requires WellFormed(plan) && key in run.st.context && key !in plan.net.ids
    ensures key in SeqRun(plan, run, order).st.context
  {
    if |order| == 0 {
    } else {
      var rest, x := order[..|order| - 1], order[|order| - 1];
      RunKeys(plan, run, rest, key);
      var r := SeqRun(plan, run, rest);
      if r.Running? && x in plan.nodes {
        StepKeys(plan, r.st, x, key);
      }
    }
  }

  // What an executed node wrote is in the context from then on.
  lemma WriteStays(plan: Plan, st: State, order: seq<Id>, i: nat, t: Trace, k: nat, key: Id)
    requires WellFormed(plan) && Origin(plan, st, order, i, t) && i < k <= |order|
    requires key !in plan.net.ids && AlwaysWrites(plan.env, plan.nodes[t.node], key)
    ensures key in SeqRun(plan, Running(st), order[..k]).st.context
  {
    assert order[..i + 1][..i] == order[..i];
    StepKeys(plan, SeqRun(plan, Running(st), order[..i]).st, t.node, key);
    assert order[..k] == order[..i + 1] + order[i + 1..k];
    SeqRunConcat(plan, Running(st), order[..i + 1], order[i + 1..k]);
    RunKeys(plan, SeqRun(plan, Running(st), order[..i + 1]), order[i + 1..k], key);
  }

  // ----- parallel mode loses it -----

  lemma AnswerKeys(plan: Plan, st: State, x: Id, source: Source, key: Id)
    requires x in plan.nodes && x != key && (source.Pool? || NeverWrites(plan.env, plan.nodes[x], key))
    ensures key in Answer(plan, st, x, source).st.context <==> key in st.context
  {
    var n := plan.nodes[x];
    match source {
      case Pool(snapshot) => ApplyKeys(plan, st, x, PoolResult(plan, x, snapshot));
      case Live =>
        if Runs(plan.env, n) {
          ExecKeys(plan, n, st.context, key);
          var e := Exec(plan, n, st.context);
          ApplyKeys(plan, st.(context := e.ctx), x, e);
        }
    }
  }

  lemma {:induction false} AnswerAllKeys(plan: Plan, run: Run, active: seq<Id>, source: Source, key: Id)
    requires forall x :: x in active ==> x in plan.nodes && x != key
    requires source.Pool? || forall x :: x in active ==> NeverWrites(plan.env, plan.nodes[x], key)
    ensures key in AnswerAll(plan, run, active, source).st.context <==> key in run.st.context
  {
    if |active| == 0 {
    } else {
      var front, x := active[..|active| - 1], active[|active| - 1];
      assert x in active && forall y :: y in front ==> y in active;
      AnswerAllKeys(plan, run, front, source, key);
      var r := AnswerAll(plan, run, front, source);
      if r.Running? {
        AnswerKeys(plan, r.st, x, source, key);
      }
    }
  }

  // At its level the node is not the only one to run.
  ghost predicate NotAlone(plan: Plan, skip: set<Id>, level: seq<Id>, x: Id) {
    x in ActiveOf(plan, skip, level) ==> |ActiveOf(plan, skip, level)| != 1
  }

  lemma LevelLoses(plan: Plan, st: State, level: seq<Id>, x: Id, key: Id)
    requires WellFormed(plan) && Marks(plan, x, key) && key !in st.context && NotAlone(plan, st.skip, level, x)
    requires forall y :: y in level ==> y in plan.net.ids
    ensures key !in ParLevel(plan, st, level).st.context
  {
    var f := Filter(plan, st, level);
    FilterIs(plan, st, level);
    ActiveMembers(plan, st.skip, level);
    AgreeAt(f.st.context, st.context, ActiveSet(plan, st.skip, level), key);
    if |f.active| > 0 {
      assert f.active[0] in f.active;
    }
    AnswerAllKeys(plan, Running(AllBegun(f)), f.active, SourceOf(f), key);
  }

  lemma {:induction false} LevelsLose(plan: Plan, st: State, m: nat, x: Id, key: Id)
    requires WellFormed(plan) && Marks(plan, x, key) && key !in st.context && m <= |LevelsOf(plan.net)|
    requires forall k :: 0 <= k < m && ParAt(plan, st, k).Running? ==>
        NotAlone(plan, ParAt(plan, st, k).st.skip, LevelsOf(plan.net)[k], x)
    ensures key !in ParAt(plan, st, m).st.context
  {
    if m == 0 {
    } else {
      LevelsLose(plan, st, m - 1, x, key);
      ParNext(plan, st, m - 1);
      if ParAt(plan, st, m - 1).Running? {
        LevelIsDistinct(plan.net, m - 1);
        LevelLoses(plan, ParAt(plan, st, m - 1).st, LevelsOf(plan.net)[m - 1], x, key);
      }
    }
  }

  // For every plan: a node that does not run alone at its level leaves nothing of what it
  // writes behind in parallel mode, while in sequential mode it does as soon as it runs.
  lemma PooledWriteIsLost(plan: Plan, st: State, k: nat, x: Id, key: Id)
    requires WellFormed(plan) && Marks(plan, x, key) && key !in st.context && st.traces == []
    requires k < |LevelsOf(plan.net)| && x in LevelsOf(plan.net)[k]
    requires ParAt(plan, st, k).Running? ==> NotAlone(plan, ParAt(plan, st, k).st.skip, LevelsOf(plan.net)[k], x)
    ensures key !in RunByLevels(plan, st).st.context
    ensures forall t :: t in RunInOrder(plan, st).st.traces && t.node == x && !t.status.Skipped? ==>
              key in RunInOrder(plan, st).st.context
  {
    var levels := LevelsOf(plan.net);
    forall j | 0 <= j < |levels| && ParAt(plan, st, j).Running?
      ensures NotAlone(plan, ParAt(plan, st, j).st.skip, levels[j], x)
    {
      if x in levels[j] {
        LevelIsUnique(plan.net, j, k, x);
      }
      ActiveMembers(plan, ParAt(plan, st, j).st.skip, levels[j]);
    }
    LevelsLose(plan, st, |levels|, x, key);
    assert levels[..|levels|] == levels;
    forall t | t in RunInOrder(plan, st).st.traces && t.node == x && !t.status.Skipped?
      ensures key in RunInOrder(plan, st).st.context
    {
      var order := Order(plan.net);
      var i := TraceOrigin(plan, st, order, t);
      WriteStays(plan, st, order, i, t, |order|, key);
      assert order[..|order|] == order;
    }
  }

  // ----- what runs at a level is settled when the level is reached -----

  lemma {:induction false} SameActive(plan: Plan, s1: set<Id>, s2: set<Id>, level: seq<Id>)
    requires WellFormed(plan) && forall y :: y in level ==> (y in s1 <==> y in s2)
    ensures ActiveOf(plan, s1, level) == ActiveOf(plan, s2, level)
  {
    if |level| == 0 {
    } else {
      assert level[|level| - 1] in level;
      SameActive(plan, s1, s2, level[..|level| - 1]);
    }
  }

  lemma SameAlone(plan: Plan, s1: set<Id>, s2: set<Id>, level: seq<Id>)
    requires WellFormed(plan) && forall y :: y in level ==> (y in s1 <==> y in s2)
    ensures WritersAloneIn(plan, s1, level) <==> WritersAloneIn(plan, s2, level)
  {
    SameActive(plan, s1, s2, level);
    forall x | x in level && x in plan.nodes
      ensures FateOf(plan.nodes[x], s1) == FateOf(plan.nodes[x], s2)
    {
    }
  }

  // ----- the exact condition -----

  // A node either writes nothing or leaves a mark of its own.
  ghost predicate QuietOrMarks(plan: Plan, x: Id, ctx: Context)
    requires x in plan.nodes
  {
    WritesOnly(plan.env, plan.nodes[x], {}) || exists key :: key !in ctx && Marks(plan, x, key)
  }

  lemma RunEnds(plan: Plan, st: State)
    requires Distinct(plan.net.ids)
    ensures AtLevel(plan, st, |LevelsOf(plan.net)|) == RunInOrder(plan, st)
    ensures ParAt(plan, st, |LevelsOf(plan.net)|) == RunByLevels(plan, st)
  {
    var levels := LevelsOf(plan.net);
    assert levels[..|levels|] == levels;
    LevelsFlattenToOrder(plan.net);
    ParEnds(plan, st);
  }

  // Writers alone among what a completed run executed: the parallel run has its outcome.
  lemma AloneInRun(plan: Plan, st: State)
    requires WellFormed(plan) && LevelsSafe(plan) && WritersAlone(plan, RunInOrder(plan, st).st.skip)
    ensures SameOutcome(RunInOrder(plan, st), RunByLevels(plan, st))
  {
    var levels := LevelsOf(plan.net);
    RunEnds(plan, st);
    forall k | 0 <= k < |levels|
      ensures AloneAt(plan, st, k)
    {
      forall y | y in levels[k]
        ensures y in AtLevel(plan, st, k).st.skip <==> y in RunInOrder(plan, st).st.skip
      {
        WalkSkipSettled(plan, st, k, |levels|, y);
      }
      SameAlone(plan, AtLevel(plan, st, k).st.skip, RunInOrder(plan, st).st.skip, levels[k]);
    }
    RunsInStep(plan, st);
  }

  // A node of the order that the final skip set does not exclude was executed.
  lemma ActiveWasExecuted(plan: Plan, st: State, x: Id) returns (t: Trace)
    requires WellFormed(plan) && Blank(st) && RunInOrder(plan, st).Running?
    requires x in Order(plan.net) && x in plan.nodes && FateOf(plan.nodes[x], RunInOrder(plan, st).st.skip).Active?
    ensures t in RunInOrder(plan, st).st.traces && t.node == x && !t.status.Skipped?
  {
    var end := RunInOrder(plan, st).st;
    var xs := BooksOfRun(plan, st);
    t := TracedNodeHasTrace(end.traces, x);
    assert TraceOk(plan, end.skip, end.results, t);
  }

  lemma SharedLevelDiverges(plan: Plan, st: State, k: nat, x: Id, key: Id)
    requires WellFormed(plan) && Blank(st) && RunInOrder(plan, st).Running?
    requires k < |LevelsOf(plan.net)| && x in LevelsOf(plan.net)[k] && key !in st.context && Marks(plan, x, key)
    requires FateOf(plan.nodes[x], RunInOrder(plan, st).st.skip).Active?
    requires |ActiveOf(plan, RunInOrder(plan, st).st.skip, LevelsOf(plan.net)[k])| != 1
    ensures !SameOutcome(RunInOrder(plan, st), RunByLevels(plan, st))
  {
    var levels, skip := LevelsOf(plan.net), RunInOrder(plan, st).st.skip;
    if SameOutcome(RunInOrder(plan, st), RunByLevels(plan, st)) {
      RunEnds(plan, st);
      forall y | y in levels[k]
        ensures y in ParAt(plan, st, k).st.skip <==> y in skip
      {
        ParSkipSettled(plan, st, k, |levels|, y);
      }
      SameActive(plan, ParAt(plan, st, k).st.skip, skip, levels[k]);
      LevelIsDistinct(plan.net, k);
      var t := ActiveWasExecuted(plan, st, x);
      PooledWriteIsLost(plan, st, k, x, key);
      assert false;
    }
  }

  // The exact condition, for handlers whose writes can be told apart: when the sequential run
  // completes, the parallel run has the same outcome if and only if each node that wrote the
  // context was the only one of its level to run.
  lemma ModesAgreeIff(plan: Plan, st: State)
    requires WellFormed(plan) && LevelsSafe(plan) && Blank(st) && RunInOrder(plan, st).Running?
    requires forall x :: x in plan.nodes ==> QuietOrMarks(plan, x, st.context)
    ensures SameOutcome(RunInOrder(plan, st), RunByLevels(plan, st)) <==>
        WritersAlone(plan, RunInOrder(plan, st).st.skip)
  {
    var levels, skip := LevelsOf(plan.net), RunInOrder(plan, st).st.skip;
    if WritersAlone(plan, skip) {
      AloneInRun(plan, st);
    } else {
      var k :| 0 <= k < |levels| && !WritersAloneIn(plan, skip, levels[k]);
      var x, key := WriterInCompany(plan, skip, levels[k], st.context);
      SharedLevelDiverges(plan, st, k, x, key);
    }
  }

  lemma WriterInCompany(plan: Plan, skip: set<Id>, level: seq<Id>, ctx: Context) returns (x: Id, key: Id)
    requires !WritersAloneIn(plan, skip, level) && forall y :: y in plan.nodes ==> QuietOrMarks(plan, y, ctx)
    ensures x in level && x in plan.nodes && FateOf(plan.nodes[x], skip).Active? && key !in ctx && Marks(plan, x, key)
  {
    x :| x in level && x in plan.nodes
         && FateOf(plan.nodes[x], skip).Active? && !WritesOnly(plan.env, plan.nodes[x], {});
    assert QuietOrMarks(plan, x, ctx);
    key :| key !in ctx && Marks(plan, x, key);
  }

  ghost predicate ConditionFree(plan: Plan) {
    forall i :: i in plan.nodes ==> plan.nodes[i].kind != "action.condition"
  }

  lemma {:induction false} NothingSwitchedOff(plan: Plan, traces: seq<Trace>)
    requires ConditionFree(plan)
    ensures SwitchedOff(plan, traces) == {}
  {
    if |traces| == 0 {
    } else {
      NothingSwitchedOff(plan, traces[..|traces| - 1]);
    }
  }

  // Without conditions what will run is known before the run, and so is whether the modes agree.
  lemma ModesAgreeIffKnownBefore(plan: Plan, st: State)
    requires WellFormed(plan) && LevelsSafe(plan) && Blank(st) && RunInOrder(plan, st).Running?
    requires forall x :: x in plan.nodes ==> QuietOrMarks(plan, x, st.context)
    requires ConditionFree(plan)
    ensures SameOutcome(RunInOrder(plan, st), RunByLevels(plan, st)) <==> WritersAlone(plan, st.skip)
  {
    var xs := BooksOfRun(plan, st);
    NothingSwitchedOff(plan, RunInOrder(plan, st).st.traces);
    assert st.skip + {} == st.skip;
    ModesAgreeIff(plan, st);
  }
}
