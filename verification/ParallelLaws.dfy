/** What every parallel run keeps, whatever its handlers read and write: one trace per node
    it reached, results for exactly those, a skip set made by the conditions that answered,
    which decides who was executed, and one start and one finish event per executed node. */
module ParallelLaws {
  import opened Nets
  import opened Kahn
  import opened Levels
  import opened LevelTheorems
  import opened Values
  import opened NodeExec
  import opened Runner
  import opened Locality
  import opened Refinement
  import opened RunLaws

  // ----- levels -----

  // Where the parallel run is when it comes to the k-th level.
  ghost function ParAt(plan: Plan, st: State, k: nat): Run
    requires k <= |LevelsOf(plan.net)|
  {
    ParRun(plan, Running(st), LevelsOf(plan.net)[..k])
  }

  lemma ParNext(plan: Plan, st: State, k: nat)
    requires k < |LevelsOf(plan.net)|
    ensures var r := ParAt(plan, st, k);
            ParAt(plan, st, k + 1) == if r.Running? then ParLevel(plan, r.st, LevelsOf(plan.net)[k]) else r
  {
    assert LevelsOf(plan.net)[..k + 1][..k] == LevelsOf(plan.net)[..k];
  }

  lemma ParEnds(plan: Plan, st: State)
    ensures ParAt(plan, st, |LevelsOf(plan.net)|) == RunByLevels(plan, st)
  {
    var levels := LevelsOf(plan.net);
    assert levels[..|levels|] == levels;
  }

  lemma LevelIsUnique(net: Net, j: nat, k: nat, x: Id)
    requires Distinct(net.ids) && j < |LevelsOf(net)| && k < |LevelsOf(net)|
    requires x in LevelsOf(net)[j] && x in LevelsOf(net)[k]
    ensures j == k
  {
    var p := PathOfLevel(net, j, x);
    var q := PathOfLevel(net, k, x);
    PathFitsLevel(net, k, p);
    PathFitsLevel(net, j, q);
  }

  // No node leads to a node of its own level or of an earlier one.
  lemma NotUpstream(net: Net, k: nat, m: nat, y: Id, z: Id)
    requires Distinct(net.ids) && k <= m < |LevelsOf(net)| && y in LevelsOf(net)[k] && z in LevelsOf(net)[m]
    ensures !Reaches(net, z, y)
  {
    if Reaches(net, z, y) {
      var j := UpstreamIsLower(net, k, z, y);
      LevelIsUnique(net, j, m, z);
    }
  }

  // ----- what a node does not switch off -----

  lemma ExecDeltaMisses(plan: Plan, z: Id, ctx: Context, y: Id)
    requires WellFormed(plan) && z in plan.nodes && !Reaches(plan.net, z, y)
    ensures var e := Exec(plan, plan.nodes[z], ctx); e.Executed? ==> y !in e.delta
  {
    var e := Exec(plan, plan.nodes[z], ctx);
    if e.Executed? && y in e.delta {
      ExecDeltaDownstream(plan, plan.nodes[z], ctx, y);
    }
  }

  lemma {:induction false} WalkSettled(plan: Plan, run: Run, order: seq<Id>, y: Id)
    requires WellFormed(plan) && forall z :: z in order ==> !Reaches(plan.net, z, y)
    ensures y in SeqRun(plan, run, order).st.skip <==> y in run.st.skip
  {
    if |order| == 0 {
    } else {
      var rest, z := order[..|order| - 1], order[|order| - 1];
      WalkSettled(plan, run, rest, y);
      var r := SeqRun(plan, run, rest);
      if r.Running? && z in plan.nodes {
        ExecDeltaMisses(plan, z, Begin(r.st, z, SeqInput(plan, z, r.st.context)).context, y);
      }
    }
  }

  lemma AnswerSettled(plan: Plan, st: State, z: Id, source: Source, y: Id)
    requires WellFormed(plan) && z in plan.nodes && !Reaches(plan.net, z, y)
    ensures y in Answer(plan, st, z, source).st.skip <==> y in st.skip
  {
    ExecDeltaMisses(plan, z, ContextOf(source, st), y);
  }

  lemma {:induction false} AnswersSettled(plan: Plan, run: Run, active: seq<Id>, source: Source, y: Id)
    requires WellFormed(plan) && forall z :: z in active ==> z in plan.nodes && !Reaches(plan.net, z, y)
    ensures y in AnswerAll(plan, run, active, source).st.skip <==> y in run.st.skip
  {
    if |active| == 0 {
    } else {
      var front, z := active[..|active| - 1], active[|active| - 1];
      assert z in active && forall u :: u in front ==> u in active;
      AnswersSettled(plan, run, front, source, y);
      var r := AnswerAll(plan, run, front, source);
      if r.Running? {
        AnswerSettled(plan, r.st, z, source, y);
      }
    }
  }

  lemma LevelSettled(plan: Plan, st: State, level: seq<Id>, y: Id)
    requires WellFormed(plan) && forall z :: z in level ==> z in plan.net.ids && !Reaches(plan.net, z, y)
    ensures y in ParLevel(plan, st, level).st.skip <==> y in st.skip
  {
    var f := Filter(plan, st, level);
    FilterIs(plan, st, level);
    FilterActive(plan, st, level);
    AnswersSettled(plan, Running(AllBegun(f)), f.active, SourceOf(f), y);
  }

  // Nothing in the m-th level leads to a node of a level that is not later.
  ghost predicate Clear(plan: Plan, m: nat, y: Id)
    requires m < |LevelsOf(plan.net)|
  {
    forall z :: z in LevelsOf(plan.net)[m] ==> z in plan.net.ids && !Reaches(plan.net, z, y)
  }

  lemma LaterIsClear(plan: Plan, k: nat, m: nat, y: Id)
    requires WellFormed(plan) && k <= m < |LevelsOf(plan.net)| && y in LevelsOf(plan.net)[k]
    ensures Clear(plan, m, y)
  {
    LevelIsDistinct(plan.net, m);
    forall z | z in LevelsOf(plan.net)[m]
      ensures !Reaches(plan.net, z, y)
    {
      NotUpstream(plan.net, k, m, y, z);
    }
  }

  lemma {:induction false} WalkSkipSettled(plan: Plan, st: State, k: nat, m: nat, y: Id)
    requires WellFormed(plan) && k <= m <= |LevelsOf(plan.net)| && k < |LevelsOf(plan.net)|
    requires y in LevelsOf(plan.net)[k]
    ensures y in AtLevel(plan, st, m).st.skip <==> y in AtLevel(plan, st, k).st.skip
    decreases m - k
  {
    if m == k {
    } else {
      WalkSkipSettled(plan, st, k, m - 1, y);
      LaterIsClear(plan, k, m - 1, y);
      NextWalkSettled(plan, st, m - 1, y);
    }
  }

  lemma NextWalkSettled(plan: Plan, st: State, m: nat, y: Id)
    requires WellFormed(plan) && m < |LevelsOf(plan.net)| && Clear(plan, m, y)
    ensures y in AtLevel(plan, st, m + 1).st.skip <==> y in AtLevel(plan, st, m).st.skip
  {
    AtNextLevel(plan, st, m);
    WalkSettled(plan, AtLevel(plan, st, m), LevelsOf(plan.net)[m], y);
  }

  lemma {:induction false} ParSkipSettled(plan: Plan, st: State, k: nat, m: nat, y: Id)
    requires WellFormed(plan) && k <= m <= |LevelsOf(plan.net)| && k < |LevelsOf(plan.net)|
    requires y in LevelsOf(plan.net)[k]
    ensures y in ParAt(plan, st, m).st.skip <==> y in ParAt(plan, st, k).st.skip
    decreases m - k
  {
    if m == k {
    } else {
      ParSkipSettled(plan, st, k, m - 1, y);
      LaterIsClear(plan, k, m - 1, y);
      NextLevelSettled(plan, st, m - 1, y);
    }
  }

  lemma NextLevelSettled(plan: Plan, st: State, m: nat, y: Id)
    requires WellFormed(plan) && m < |LevelsOf(plan.net)| && Clear(plan, m, y)
    ensures y in ParAt(plan, st, m + 1).st.skip <==> y in ParAt(plan, st, m).st.skip
  {
    ParNext(plan, st, m);
    var r := ParAt(plan, st, m);
    if r.Running? {
      LevelSettled(plan, r.st, LevelsOf(plan.net)[m], y);
    }
  }

  // ----- the skip set only grows -----

  lemma {:induction false} AnswersSkip(plan: Plan, run: Run, active: seq<Id>, source: Source)
    requires forall x :: x in active ==> x in plan.nodes
    ensures run.st.skip <= AnswerAll(plan, run, active, source).st.skip
  {
    if |active| == 0 {
    } else {
      var front := active[..|active| - 1];
      assert forall y :: y in front ==> y in active;
      AnswersSkip(plan, run, front, source);
      var r := AnswerAll(plan, run, front, source);
      if r.Running? {
        AnswerSkip(plan, r.st, active[|active| - 1], source);
      }
    }
  }

  lemma AnswerSkip(plan: Plan, st: State, x: Id, source: Source)
    requires x in plan.nodes
    ensures st.skip <= Answer(plan, st, x, source).st.skip
  {
  }

  lemma {:induction false} ParSkipGrows(plan: Plan, st: State, k: nat, m: nat)
    requires k <= m <= |LevelsOf(plan.net)|
    ensures ParAt(plan, st, k).st.skip <= ParAt(plan, st, m).st.skip
    decreases m - k
  {
    if m == k {
    } else {
      ParSkipGrows(plan, st, k, m - 1);
      ParNext(plan, st, m - 1);
      var r := ParAt(plan, st, m - 1);
      if r.Running? {
        LevelSkip(plan, r.st, LevelsOf(plan.net)[m - 1]);
      }
    }
  }

  lemma LevelSkip(plan: Plan, st: State, level: seq<Id>)
    ensures st.skip <= ParLevel(plan, st, level).st.skip
  {
    var f := Filter(plan, st, level);
    FilterSkip(plan, st, level);
    FilterActive(plan, st, level);
    AnswersSkip(plan, Running(AllBegun(f)), f.active, SourceOf(f));
  }

  // ----- the books of one level -----

  // The nodes of a level that are passed over.
  function InertOf(plan: Plan, skip: set<Id>, level: seq<Id>): seq<Id> {
    if |level| == 0 then []
    else
      var x := level[|level| - 1];
      InertOf(plan, skip, level[..|level| - 1])
        + if x in plan.nodes && FateOf(plan.nodes[x], skip).Inert? then [x] else []
  }

  lemma {:induction false} InertMembers(plan: Plan, skip: set<Id>, level: seq<Id>)
    ensures forall y :: y in InertOf(plan, skip, level) <==>
              y in level && y in plan.nodes && FateOf(plan.nodes[y], skip).Inert?
  {
    if |level| == 0 {
    } else {
      InertMembers(plan, skip, level[..|level| - 1]);
    }
  }

  lemma {:induction false} ActiveIff(plan: Plan, skip: set<Id>, level: seq<Id>)
    ensures forall y :: y in ActiveOf(plan, skip, level) <==>
              y in level && y in plan.nodes && FateOf(plan.nodes[y], skip).Active?
  {
    if |level| == 0 {
    } else {
      ActiveIff(plan, skip, level[..|level| - 1]);
    }
  }

  lemma {:induction false} PartsDistinct(plan: Plan, skip: set<Id>, level: seq<Id>)
    requires Distinct(level)
    ensures Distinct(InertOf(plan, skip, level)) && Distinct(ActiveOf(plan, skip, level))
  {
    if |level| == 0 {
    } else {
      var front, x := level[..|level| - 1], level[|level| - 1];
      PartsDistinct(plan, skip, front);
      InertMembers(plan, skip, front);
      ActiveIff(plan, skip, front);
      assert x !in front;
      DistinctAppend(InertOf(plan, skip, front), [x]);
      DistinctAppend(ActiveOf(plan, skip, front), [x]);
    }
  }

  // The filter pass books what it passes over.
  lemma {:induction false} FilterKeepsBooks(plan: Plan, skip0: set<Id>, xs: seq<Id>, st: State, level: seq<Id>)
    requires WellFormed(plan) && OpenBooks(plan, skip0, xs, st) && Distinct(level)
    requires forall x :: x in level ==> x in plan.nodes && x !in xs
    ensures OpenBooks(plan, skip0, xs + InertOf(plan, st.skip, level), Filter(plan, st, level).st)
  {
    if |level| == 0 {
      assert xs + [] == xs;
    } else {
      var front, x := level[..|level| - 1], level[|level| - 1];
      FilterKeepsBooks(plan, skip0, xs, st, front);
      FilterSkip(plan, st, front);
      InertMembers(plan, st.skip, front);
      assert x !in front;
      if FateOf(plan.nodes[x], st.skip).Inert? {
        var before := xs + InertOf(plan, st.skip, front);
        PassOverKeepsBooks(plan, skip0, before, Filter(plan, st, front).st, x, Null);
        Assoc(xs, InertOf(plan, st.skip, front), [x]);
      } else {
        assert InertOf(plan, st.skip, level) == InertOf(plan, st.skip, front) + [] == InertOf(plan, st.skip, front);
      }
    }
  }

  // A worker crashed, and the pool's trace of it is the last one; all before is in order.
  ghost predicate PoolCrashed(plan: Plan, skip0: set<Id>, st: State, f: Failure) {
    && f.node in plan.nodes && |st.traces| > 0 && f.node in st.results
    && var text := plan.env.runtime.crashText(plan.nodes[f.node]);
       var before := st.(traces := st.traces[..|st.traces| - 1], results := st.results - {f.node});
       && f == NodeFailed(f.node, "", 1, text) && st.traces[|st.traces| - 1] == CrashTrace(f.node, text)
       && Books(plan, skip0, TracedNodes(before.traces), before)
  }

  // How a parallel run that has stopped came to stop.
  ghost predicate ParStopped(plan: Plan, skip0: set<Id>, st: State, f: Failure) {
    && f.node in plan.nodes && FateOf(plan.nodes[f.node], st.skip).Active?
    && if f.Crashed? then
         && !Runs(plan.env, plan.nodes[f.node]) && f == CrashOf(plan, f.node)
         && f.node !in TracedNodes(st.traces) && Books(plan, skip0, TracedNodes(st.traces), st)
       else if !Runs(plan.env, plan.nodes[f.node]) then PoolCrashed(plan, skip0, st, f)
       else
         && Books(plan, skip0, TracedNodes(st.traces), st)
         && |st.traces| > 0 && BlamesLast(plan, f, st.traces[|st.traces| - 1])
  }

  // A worker that crashes stops the run with a trace of its own.
  lemma CrashKeepsBooks(plan: Plan, skip0: set<Id>, xs: seq<Id>, st: State, x: Id, c: Context)
    requires WellFormed(plan) && Books(plan, skip0, xs, st) && x in plan.nodes && x !in xs
    requires !Runs(plan.env, plan.nodes[x]) && FateOf(plan.nodes[x], st.skip).Active?
    ensures var r := Answer(plan, st, x, Pool(c));
            && r.Stopped? && r.failure.node == x && ParStopped(plan, skip0, r.st, r.failure)
            && TracedNodes(r.st.traces) == xs + [x]
  {
    var r := Answer(plan, st, x, Pool(c));
    var t := CrashTrace(x, plan.env.runtime.crashText(plan.nodes[x]));
    assert r.st.traces == st.traces + [t] && r.st.traces[..|st.traces|] == st.traces;
    TracedSnoc(st.traces, t);
    assert r.st.results - {x} == st.results;
    assert st.skip + {} == st.skip;
  }

  // One answer, from the shared context or from the pool.
  lemma AnswerKeepsBooks(plan: Plan, skip0: set<Id>, xs: seq<Id>, st: State, x: Id, source: Source)
    requires WellFormed(plan) && OpenBooks(plan, skip0, xs, st) && x in plan.nodes && Ahead(plan.net, xs, x)
    requires FateOf(plan.nodes[x], st.skip).Active?
    ensures var r := Answer(plan, st, x, source);
            if r.Running? then OpenBooks(plan, skip0, xs + [x], r.st)
            else r.failure.node == x && ParStopped(plan, skip0, r.st, r.failure)
                 && TracedNodes(r.st.traces) == if r.failure.Crashed? then xs else xs + [x]
  {
    var n, c := plan.nodes[x], ContextOf(source, st);
    if Runs(plan.env, n) {
      var base := if source.Live? then st.(context := Exec(plan, n, c).ctx) else st;
      ApplyKeepsBooks(plan, skip0, xs, base, x, c);
      AppliedBlames(plan, base, n, c);
      StaysActive(plan, base, x, c);
    } else if source.Pool? {
      CrashKeepsBooks(plan, skip0, xs, st, x, source.snapshot);
    }
  }

  // Nodes that can be answered one after another: nothing of `xs` or of `active` lies
  // downstream of a node of `active`.
  ghost predicate Abreast(plan: Plan, xs: seq<Id>, active: seq<Id>) {
    && Distinct(active)
    && (forall x :: x in active ==> x in plan.nodes && x !in xs)
    && (forall x, y :: x in active && (y in xs || y in active) ==> !Reaches(plan.net, x, y))
  }

  lemma AbreastFront(plan: Plan, xs: seq<Id>, active: seq<Id>)
    requires Abreast(plan, xs, active) && |active| > 0
    ensures var front, x := active[..|active| - 1], active[|active| - 1];
            Abreast(plan, xs, front) && x in plan.nodes && Ahead(plan.net, xs + front, x)
  {
    var front, x := active[..|active| - 1], active[|active| - 1];
    assert forall y :: y in front ==> y in active;
    assert x in active && x !in front;
  }

  // A run stopped with the first `j` nodes of `active` traced: by the last of them, or by the
  // next one if that crashed on the fast path.
  ghost predicate StoppedAfter(xs: seq<Id>, active: seq<Id>, j: nat, r: Run) {
    && r.Stopped? && j <= |active| && TracedNodes(r.st.traces) == xs + active[..j]
    && if r.failure.Crashed? then j < |active| && r.failure.node == active[j]
       else j > 0 && r.failure.node == active[j - 1]
  }

  // After the answers of `active`: its books, or those of the node that stopped the run.
  ghost predicate Answered(plan: Plan, skip0: set<Id>, xs: seq<Id>, active: seq<Id>, r: Run) {
    if r.Running? then OpenBooks(plan, skip0, xs + active, r.st)
    else ParStopped(plan, skip0, r.st, r.failure) && exists j: nat :: StoppedAfter(xs, active, j, r)
  }

  lemma {:induction false} AnswersKeepBooks(
    plan: Plan, skip0: set<Id>, xs: seq<Id>, st: State, active: seq<Id>, source: Source)
    requires WellFormed(plan) && OpenBooks(plan, skip0, xs, st) && Abreast(plan, xs, active)
    requires forall x :: x in active ==> FateOf(plan.nodes[x], st.skip).Active?
    ensures Answered(plan, skip0, xs, active, AnswerAll(plan, Running(st), active, source))
  {
    if |active| == 0 {
      assert xs + [] == xs;
    } else {
      var front, x := active[..|active| - 1], active[|active| - 1];
      AbreastFront(plan, xs, active);
      assert x in active && forall y :: y in front ==> y in active;
      AnswersKeepBooks(plan, skip0, xs, st, front, source);
      AnswersSettled(plan, Running(st), front, source, x);
      var r := AnswerAll(plan, Running(st), front, source);
      if r.Running? {
        AnswerLast(plan, skip0, xs, r.st, active, source);
      } else {
        AnsweredFront(plan, skip0, xs, active, r);
      }
    }
  }

  lemma AnsweredFront(plan: Plan, skip0: set<Id>, xs: seq<Id>, active: seq<Id>, r: Run)
    requires |active| > 0 && Answered(plan, skip0, xs, active[..|active| - 1], r) && r.Stopped?
    ensures Answered(plan, skip0, xs, active, r)
  {
    var front := active[..|active| - 1];
    var j: nat :| StoppedAfter(xs, front, j, r);
    assert front[..j] == active[..j];
    assert StoppedAfter(xs, active, j, r);
  }

  lemma AnswerLast(plan: Plan, skip0: set<Id>, xs: seq<Id>, st: State, active: seq<Id>, source: Source)
    requires WellFormed(plan) && Abreast(plan, xs, active) && |active| > 0
    requires active[|active| - 1] in plan.nodes && FateOf(plan.nodes[active[|active| - 1]], st.skip).Active?
    requires OpenBooks(plan, skip0, xs + active[..|active| - 1], st)
    ensures Answered(plan, skip0, xs, active, Answer(plan, st, active[|active| - 1], source))
  {
    var front, x := active[..|active| - 1], active[|active| - 1];
    AbreastFront(plan, xs, active);
    AnswerKeepsBooks(plan, skip0, xs + front, st, x, source);
    Assoc(xs, front, [x]);
    assert front + [x] == active == active[..|active|];
    assert active[..|front|] == front;
    var r := Answer(plan, st, x, source);
    if r.Stopped? {
      assert StoppedAfter(xs, active, if r.failure.Crashed? then |front| else |active|, r);
    }
  }

  // ----- one level -----

  // The nodes of the levels before the k-th.
  ghost predicate Above(net: Net, k: nat, xs: seq<Id>)
    requires k <= |LevelsOf(net)|
  {
    Distinct(xs) && Elements(xs) == Elements(Flatten(LevelsOf(net)[..k]))
  }

  lemma AboveIsNotBelow(net: Net, k: nat, xs: seq<Id>, x: Id, y: Id)
    requires Distinct(net.ids) && k < |LevelsOf(net)| && Above(net, k, xs)
    requires x in LevelsOf(net)[k] && (y in xs || y in LevelsOf(net)[k])
    ensures !Reaches(net, x, y) && x !in xs
  {
    var levels := LevelsOf(net);
    forall z | z in xs
      ensures exists j :: 0 <= j < k && z in levels[j]
    {
      assert z in Elements(xs);
      FlattenMember(levels[..k], z);
      var j :| 0 <= j < k && z in levels[..k][j];
      assert z in levels[j];
    }
    if x in xs {
      var j :| 0 <= j < k && x in levels[j];
      LevelIsUnique(net, j, k, x);
    }
    if y in levels[k] {
      NotUpstream(net, k, k, y, x);
    } else {
      var j :| 0 <= j < k && y in levels[j];
      NotUpstream(net, j, k, y, x);
    }
  }

  lemma LevelIsAbreast(plan: Plan, k: nat, xs: seq<Id>, skip: set<Id>)
    requires WellFormed(plan) && k < |LevelsOf(plan.net)| && Above(plan.net, k, xs)
    ensures var level := LevelsOf(plan.net)[k];
            && Distinct(level) && (forall x :: x in level ==> x in plan.nodes && x !in xs)
            && Abreast(plan, xs + InertOf(plan, skip, level), ActiveOf(plan, skip, level))
  {
    var level := LevelsOf(plan.net)[k];
    LevelIsDistinct(plan.net, k);
    PartsDistinct(plan, skip, level);
    InertMembers(plan, skip, level);
    ActiveIff(plan, skip, level);
    forall x, y | x in level && (y in xs || y in level)
      ensures !Reaches(plan.net, x, y) && x !in xs
    {
      AboveIsNotBelow(plan.net, k, xs, x, y);
    }
    forall x | x in level
      ensures x in plan.nodes && x !in xs
    {
      AboveIsNotBelow(plan.net, k, xs, x, x);
    }
  }

  lemma AboveNext(plan: Plan, k: nat, xs: seq<Id>, skip: set<Id>)
    requires WellFormed(plan) && k < |LevelsOf(plan.net)| && Above(plan.net, k, xs)
    ensures var level := LevelsOf(plan.net)[k];
            Above(plan.net, k + 1, xs + InertOf(plan, skip, level) + ActiveOf(plan, skip, level))
  {
    var level := LevelsOf(plan.net)[k];
    var inert, active := InertOf(plan, skip, level), ActiveOf(plan, skip, level);
    LevelIsAbreast(plan, k, xs, skip);
    PartsAreLevel(plan, skip, level);
    PartsDistinct(plan, skip, level);
    DistinctAppend(xs, inert);
    DistinctAppend(xs + inert, active);
    FlattenPrefix(LevelsOf(plan.net), k);
    ElementsConcat(xs, inert);
    ElementsConcat(xs + inert, active);
    ElementsConcat(Flatten(LevelsOf(plan.net)[..k]), level);
  }

  lemma PartsAreLevel(plan: Plan, skip: set<Id>, level: seq<Id>)
    requires forall x :: x in level ==> x in plan.nodes
    ensures var inert, active := InertOf(plan, skip, level), ActiveOf(plan, skip, level);
            && Elements(inert) + Elements(active) == Elements(level)
            && (forall x :: x in inert ==> x in level) && (forall x :: x in active ==> x in level && x !in inert)
  {
    InertMembers(plan, skip, level);
    ActiveIff(plan, skip, level);
  }

  // The traces of one level: what is passed over first, then what runs, in level order.
  lemma LevelKeepsBooks(plan: Plan, skip0: set<Id>, xs: seq<Id>, st: State, k: nat)
    requires WellFormed(plan) && k < |LevelsOf(plan.net)| && Above(plan.net, k, xs) && OpenBooks(plan, skip0, xs, st)
    ensures var level := LevelsOf(plan.net)[k];
            Answered(plan, skip0, xs + InertOf(plan, st.skip, level), ActiveOf(plan, st.skip, level),
                ParLevel(plan, st, level))
  {
    var level := LevelsOf(plan.net)[k];
    var f := Filter(plan, st, level);
    LevelIsAbreast(plan, k, xs, st.skip);
    FilterKeepsBooks(plan, skip0, xs, st, level);
    FilterIs(plan, st, level);
    FilterActive(plan, st, level);
    ActiveIff(plan, st.skip, level);
    var inert := xs + InertOf(plan, st.skip, level);
    AnswersKeepBooks(plan, skip0, inert, AllBegun(f), f.active, SourceOf(f));
    assert inert + [] == inert;
  }

  // ----- whole runs -----

  // The books after `k` levels, or those of the run that stopped there.
  ghost predicate ParBalancedUpTo(plan: Plan, skip0: set<Id>, k: nat, r: Run)
    requires k <= |LevelsOf(plan.net)|
  {
    var xs := TracedNodes(r.st.traces);
    if r.Running? then Above(plan.net, k, xs) && OpenBooks(plan, skip0, xs, r.st)
    else
      && Distinct(xs) && Elements(xs) <= Elements(Flatten(LevelsOf(plan.net)[..k]))
      && ParStopped(plan, skip0, r.st, r.failure)
  }

  lemma {:induction false} LevelsKeepBooks(plan: Plan, st: State, k: nat)
    requires WellFormed(plan) && Blank(st) && k <= |LevelsOf(plan.net)|
    ensures ParBalancedUpTo(plan, st.skip, k, ParAt(plan, st, k))
  {
    if k == 0 {
      BlankBalances(plan, st);
    } else {
      LevelsKeepBooks(plan, st, k - 1);
      ParNext(plan, st, k - 1);
      NextBalances(plan, st.skip, k - 1, ParAt(plan, st, k - 1));
    }
  }

  lemma NextBalances(plan: Plan, skip0: set<Id>, k: nat, r: Run)
    requires WellFormed(plan) && k < |LevelsOf(plan.net)| && ParBalancedUpTo(plan, skip0, k, r)
    ensures var next := if r.Running? then ParLevel(plan, r.st, LevelsOf(plan.net)[k]) else r;
            ParBalancedUpTo(plan, skip0, k + 1, next)
  {
    if r.Running? {
      NextLevelKeepsBooks(plan, skip0, r.st, k);
    } else {
      StoppedBalances(plan, skip0, k, r);
    }
  }

  lemma BlankBalances(plan: Plan, st: State)
    requires Blank(st)
    ensures ParBalancedUpTo(plan, st.skip, 0, Running(st))
  {
    assert st.skip + {} == st.skip;
  }

  lemma StoppedBalances(plan: Plan, skip0: set<Id>, k: nat, r: Run)
    requires k < |LevelsOf(plan.net)| && r.Stopped? && ParBalancedUpTo(plan, skip0, k, r)
    ensures ParBalancedUpTo(plan, skip0, k + 1, r)
  {
    FlattenPrefix(LevelsOf(plan.net), k);
  }

  lemma NextLevelKeepsBooks(plan: Plan, skip0: set<Id>, st: State, k: nat)
    requires WellFormed(plan) && k < |LevelsOf(plan.net)| && ParBalancedUpTo(plan, skip0, k, Running(st))
    ensures ParBalancedUpTo(plan, skip0, k + 1, ParLevel(plan, st, LevelsOf(plan.net)[k]))
  {
    var level, xs := LevelsOf(plan.net)[k], TracedNodes(st.traces);
    LevelKeepsBooks(plan, skip0, xs, st, k);
    AboveNext(plan, k, xs, st.skip);
    var inert, active := xs + InertOf(plan, st.skip, level), ActiveOf(plan, st.skip, level);
    AnsweredBalances(plan, skip0, k + 1, inert, active, ParLevel(plan, st, level));
  }

  lemma AnsweredBalances(plan: Plan, skip0: set<Id>, k: nat, xs: seq<Id>, active: seq<Id>, r: Run)
    requires k <= |LevelsOf(plan.net)| && Above(plan.net, k, xs + active) && Answered(plan, skip0, xs, active, r)
    ensures ParBalancedUpTo(plan, skip0, k, r)
  {
    if r.Stopped? {
      var j: nat :| StoppedAfter(xs, active, j, r);
      FrontIsPart(xs, active, j);
    }
  }

  lemma FrontIsPart<T>(xs: seq<T>, active: seq<T>, j: nat)
    requires Distinct(xs + active) && j <= |active|
    ensures Distinct(xs + active[..j]) && Elements(xs + active[..j]) <= Elements(xs + active)
  {
    var front, all := xs + active[..j], xs + active;
    assert all[..|front|] == front;
    assert forall i :: 0 <= i < |front| ==> all[i] == front[i];
  }

  // ----- what the callback hears -----

  function StartedNodes(events: seq<Event>): seq<Id> {
    if |events| == 0 then []
    else
      var e := events[|events| - 1];
      StartedNodes(events[..|events| - 1]) + if e.Started? then [e.node] else []
  }

  function ExecutedNodes(traces: seq<Trace>): seq<Id> {
    TracedNodes(ExecutedTraces(traces))
  }

  lemma StartedSnoc(events: seq<Event>, e: Event)
    ensures StartedNodes(events + [e]) == StartedNodes(events) + if e.Started? then [e.node] else []
  {
    assert (events + [e])[..|events|] == events;
  }

  lemma ExecutedNodesSnoc(traces: seq<Trace>, t: Trace)
    ensures ExecutedNodes(traces + [t]) == ExecutedNodes(traces) + if t.status.Skipped? then [] else [t.node]
  {
    ExecutedSnoc(traces, t);
    TracedSnoc(ExecutedTraces(traces), t);
    assert ExecutedTraces(traces) + [] == ExecutedTraces(traces);
  }

  // Every executed trace was reported, in order, after its node's start; `ahead` have been
  // started and not finished.
  ghost predicate Told(st: State, ahead: seq<Id>) {
    && FinishedTraces(st.events) == ExecutedTraces(st.traces)
    && StartedNodes(st.events) == ExecutedNodes(st.traces) + ahead
  }

  lemma {:induction false} FilterTells(plan: Plan, st: State, level: seq<Id>)
    requires WellFormed(plan) && (forall x :: x in level ==> x in plan.nodes) && Told(st, [])
    ensures var f := Filter(plan, st, level); Told(AllBegun(f), f.active)
  {
    var f := Filter(plan, st, level);
    FilterIs(plan, st, level);
    StartEventsFinishNothing(f.st.events, f.active);
    StartsAll(f.st.events, f.active);
    assert ExecutedNodes(st.traces) + [] == ExecutedNodes(st.traces);
  }

  lemma {:induction false} StartsAll(events: seq<Event>, active: seq<Id>)
    ensures StartedNodes(events + StartEvents(active)) == StartedNodes(events) + active
  {
    if |active| == 0 {
      assert events + [] == events;
    } else {
      var front, x := active[..|active| - 1], active[|active| - 1];
      StartsAll(events, front);
      Assoc(events, StartEvents(front), [Started(x)]);
      StartedSnoc(events + StartEvents(front), Started(x));
      Assoc(StartedNodes(events), front, [x]);
    }
  }

  // One answer: the node's finish is told, unless it crashed.
  lemma AnswerTells(plan: Plan, st: State, x: Id, source: Source, rest: seq<Id>)
    requires WellFormed(plan) && x in plan.nodes && Told(st, [x] + rest)
    ensures var r := Answer(plan, st, x, source);
            if r.Stopped? && r.failure.Crashed? then Told(r.st, [x] + rest) else Told(r.st, rest)
  {
    var n, c := plan.nodes[x], ContextOf(source, st);
    var r := Answer(plan, st, x, source);
    if !(r.Stopped? && r.failure.Crashed?) {
      if Runs(plan.env, n) {
        ExecFacts(plan, n, c);
      }
      var t := PoolResult(plan, x, c).trace;
      assert r.st.traces == st.traces + [t] && r.st.events == st.events + [Finished(t)];
      FinishTold(st, r.st, t, rest);
    }
  }

  lemma FinishTold(st: State, after: State, t: Trace, rest: seq<Id>)
    requires Told(st, [t.node] + rest) && !t.status.Skipped?
    requires after.traces == st.traces + [t] && after.events == st.events + [Finished(t)]
    ensures Told(after, rest)
  {
    ExecutedSnoc(st.traces, t);
    ExecutedNodesSnoc(st.traces, t);
    FinishedSnoc(st.events, Finished(t));
    StartedSnoc(st.events, Finished(t));
    Assoc(ExecutedNodes(st.traces), [t.node], rest);
  }

  // As many nodes of `active` are told to be finished as there are traces since `before`.
  ghost predicate ToldSince(before: nat, active: seq<Id>, rest: seq<Id>, r: Run) {
    var j := |r.st.traces| - before;
    0 <= j <= |active| && Told(r.st, active[j..] + rest) && (r.Running? ==> j == |active|)
  }

  lemma {:induction false} AnswersTell(plan: Plan, st: State, active: seq<Id>, rest: seq<Id>, source: Source)
    requires WellFormed(plan) && (forall x :: x in active ==> x in plan.nodes) && Told(st, active + rest)
    ensures ToldSince(|st.traces|, active, rest, AnswerAll(plan, Running(st), active, source))
    decreases |active|
  {
    if |active| == 0 {
      assert active[0..] + rest == active + rest;
    } else {
      var front, x := active[..|active| - 1], active[|active| - 1];
      assert x in active && forall y :: y in front ==> y in active;
      assert active == front + [x] && active + rest == front + ([x] + rest);
      AnswersTell(plan, st, front, [x] + rest, source);
      AnswerSnoc(plan, Running(st), front, x, source);
      NextTells(plan, |st.traces|, AnswerAll(plan, Running(st), front, source), front, x, source, rest);
    }
  }

  lemma NextTells(plan: Plan, before: nat, r: Run, front: seq<Id>, x: Id, source: Source, rest: seq<Id>)
    requires WellFormed(plan) && x in plan.nodes && ToldSince(before, front, [x] + rest, r)
    ensures ToldSince(before, front + [x], rest, AnswerNext(plan, r, x, source))
  {
    var j := |r.st.traces| - before;
    assert (front + [x])[j..] + rest == front[j..] + ([x] + rest);
    if r.Running? {
      assert front[j..] + ([x] + rest) == [x] + rest && (front + [x])[j + 1..] + rest == rest;
      AnswerTells(plan, r.st, x, source, rest);
      AnswerCounts(plan, r.st, x, source);
    }
  }

  lemma AnswerCounts(plan: Plan, st: State, x: Id, source: Source)
    requires x in plan.nodes
    ensures var r := Answer(plan, st, x, source);
            |r.st.traces| == |st.traces| + if r.Stopped? && r.failure.Crashed? then 0 else 1
  {
  }

  lemma {:induction false} TracedLength(traces: seq<Trace>)
    ensures |TracedNodes(traces)| == |traces|
  {
    if |traces| == 0 {
    } else {
      TracedLength(traces[..|traces| - 1]);
    }
  }

  // A run stopped in a level: the traces of the level are those of the nodes it passed over and
  // then of its first `j` active ones, and the others have been started and not finished.
  ghost predicate StoppedInLevel(plan: Plan, st: State, level: seq<Id>, j: nat, r: Run) {
    var active := ActiveOf(plan, st.skip, level);
    && StoppedAfter(TracedNodes(st.traces) + InertOf(plan, st.skip, level), active, j, r)
    && Told(r.st, active[j..])
  }

  lemma LevelTells(plan: Plan, skip0: set<Id>, st: State, k: nat)
    requires WellFormed(plan) && k < |LevelsOf(plan.net)| && Told(st, [])
    requires Above(plan.net, k, TracedNodes(st.traces)) && OpenBooks(plan, skip0, TracedNodes(st.traces), st)
    ensures var level := LevelsOf(plan.net)[k];
            var r := ParLevel(plan, st, level);
            if r.Running? then Told(r.st, []) else exists j: nat :: StoppedInLevel(plan, st, level, j, r)
  {
    var level, xs := LevelsOf(plan.net)[k], TracedNodes(st.traces);
    var r, f, active := ParLevel(plan, st, level), Filter(plan, st, level), ActiveOf(plan, st.skip, level);
    LevelKeepsBooks(plan, skip0, xs, st, k);
    LevelIsAbreast(plan, k, xs, st.skip);
    FilterKeepsBooks(plan, skip0, xs, st, level);
    FilterIs(plan, st, level);
    FilterTells(plan, st, level);
    FilterActive(plan, st, level);
    assert f.active + [] == f.active && f.st.events + [] == f.st.events;
    AnswersTell(plan, AllBegun(f), f.active, [], SourceOf(f));
    if r.Running? {
      assert f.active[|f.active|..] + [] == [];
    } else {
      var j: nat :| StoppedAfter(xs + InertOf(plan, st.skip, level), active, j, r);
      StopTold(f.st.traces, active, j, r);
      assert StoppedInLevel(plan, st, level, j, r);
    }
  }

  lemma StopTold(before: seq<Trace>, active: seq<Id>, j: nat, r: Run)
    requires StoppedAfter(TracedNodes(before), active, j, r) && ToldSince(|before|, active, [], r)
    ensures Told(r.st, active[j..])
  {
    TracedLength(r.st.traces);
    TracedLength(before);
    assert active[j..] + [] == active[j..];
  }

  // A run stopped in the m-th level, with all earlier levels traced.
  ghost predicate StoppedAtLevel(plan: Plan, st0: State, m: nat, j: nat, r: Run) {
    && m < |LevelsOf(plan.net)| && ParAt(plan, st0, m).Running?
    && var st := ParAt(plan, st0, m).st;
       Above(plan.net, m, TracedNodes(st.traces)) && StoppedInLevel(plan, st, LevelsOf(plan.net)[m], j, r)
  }

  ghost predicate ToldSo(plan: Plan, st0: State, r: Run) {
    if r.Running? then Told(r.st, []) else exists m: nat, j: nat :: StoppedAtLevel(plan, st0, m, j, r)
  }

  // A run that has not stopped has told everything.
  ghost predicate ToldAt(plan: Plan, st: State, k: nat)
    requires k <= |LevelsOf(plan.net)|
  {
    ParAt(plan, st, k).Running? ==> Told(ParAt(plan, st, k).st, [])
  }

  lemma {:induction false} LevelsTold(plan: Plan, st: State, k: nat)
    requires WellFormed(plan) && Blank(st) && k <= |LevelsOf(plan.net)|
    ensures ToldAt(plan, st, k)
  {
    if k == 0 {
      NothingTold(plan, st);
    } else {
      LevelsTold(plan, st, k - 1);
      NextTold(plan, st, k - 1);
    }
  }

  lemma NothingTold(plan: Plan, st: State)
    requires Blank(st)
    ensures ToldAt(plan, st, 0)
  {
  }

  lemma NextTold(plan: Plan, st: State, k: nat)
    requires WellFormed(plan) && Blank(st) && k < |LevelsOf(plan.net)| && ToldAt(plan, st, k)
    ensures ToldAt(plan, st, k + 1)
  {
    ParNext(plan, st, k);
    if ParAt(plan, st, k).Running? {
      LevelsKeepBooks(plan, st, k);
      LevelTells(plan, st.skip, ParAt(plan, st, k).st, k);
    }
  }

  // The level in which a run stopped.
  lemma {:induction false} StopLevel(plan: Plan, st: State, k: nat) returns (m: nat)
    requires k <= |LevelsOf(plan.net)| && ParAt(plan, st, k).Stopped?
    ensures m < k && ParAt(plan, st, m).Running?
    ensures ParAt(plan, st, k) == ParLevel(plan, ParAt(plan, st, m).st, LevelsOf(plan.net)[m])
  {
    ParNext(plan, st, k - 1);
    m := k - 1;
    if ParAt(plan, st, k - 1).Stopped? {
      m := StopLevel(plan, st, k - 1);
    }
  }

  lemma LevelsTell(plan: Plan, st: State, k: nat)
    requires WellFormed(plan) && Blank(st) && k <= |LevelsOf(plan.net)|
    ensures ToldSo(plan, st, ParAt(plan, st, k))
  {
    if ParAt(plan, st, k).Running? {
      LevelsTold(plan, st, k);
    } else {
      var m := StopLevel(plan, st, k);
      LevelsTold(plan, st, m);
      StopTells(plan, st, m);
    }
  }

  lemma StopTells(plan: Plan, st: State, k: nat)
    requires WellFormed(plan) && Blank(st) && k < |LevelsOf(plan.net)|
    requires ParAt(plan, st, k).Running? && Told(ParAt(plan, st, k).st, [])
    requires ParLevel(plan, ParAt(plan, st, k).st, LevelsOf(plan.net)[k]).Stopped?
    ensures ToldSo(plan, st, ParLevel(plan, ParAt(plan, st, k).st, LevelsOf(plan.net)[k]))
  {
    var before := ParAt(plan, st, k).st;
    var r := ParLevel(plan, before, LevelsOf(plan.net)[k]);
    LevelsKeepBooks(plan, st, k);
    LevelTells(plan, st.skip, before, k);
    var j: nat :| StoppedInLevel(plan, before, LevelsOf(plan.net)[k], j, r);
    assert StoppedAtLevel(plan, st, k, j, r);
  }

  // The books of a parallel run from `st0`, and what the callback heard of it.
  ghost predicate ParBalanced(plan: Plan, st0: State, r: Run) {
    var xs := TracedNodes(r.st.traces);
    && Distinct(xs) && ToldSo(plan, st0, r)
    && if r.Running? then Elements(xs) == Elements(Order(plan.net)) && OpenBooks(plan, st0.skip, xs, r.st)
       else Elements(xs) <= Elements(Order(plan.net)) && ParStopped(plan, st0.skip, r.st, r.failure)
  }

  // Every parallel run, from any blank state, over any graph and for any handlers: a completed
  // run has one trace and one result per scheduled node, and told the start and the finish of
  // every executed one; a stopped run has traced all earlier levels, the nodes its level passes
  // over and a prefix of the others up to the one it blames, and has started the rest; the skip
  // set is the initial one plus what the conditions that answered switched off, and it alone
  // decides who was executed.
  lemma {:induction false} ParallelRunBalances(plan: Plan, st: State)
    requires WellFormed(plan) && Blank(st)
    ensures ParBalanced(plan, st, RunByLevels(plan, st))
  {
    var k := |LevelsOf(plan.net)|;
    LevelsKeepBooks(plan, st, k);
    LevelsTell(plan, st, k);
    ParEnds(plan, st);
    LevelsFlattenToOrder(plan.net);
    assert LevelsOf(plan.net)[..k] == LevelsOf(plan.net);
  }
}
