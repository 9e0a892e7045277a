/** What the levels of `_compute_levels` are: the order of `_topo` cut into slices, the
    slice of a node being the length of the longest path that ends at it. */
module LevelTheorems {
  import opened Nets
  import opened Kahn
  import opened Levels

  // ----- both in-degree tables agree -----

  // Finishing all of `nodes` takes their edges into `t` off its pending count.
  lemma {:induction false} PendingSteps(net: Net, done: set<Id>, nodes: seq<Id>, t: Id)
    requires Distinct(nodes) && forall n :: n in nodes ==> n !in done
    ensures Pending(net, done + Elements(nodes), t) == Pending(net, done, t) - Count(LinksOf(net, nodes), t)
  {
    if |nodes| == 0 {
      assert done + Elements(nodes) == done;
    } else {
      var n, rest := nodes[|nodes| - 1], nodes[..|nodes| - 1];
      PendingSteps(net, done, rest, t);
      assert done + Elements(nodes) == done + Elements(rest) + {n};
      PendingStep(net, |net.edges|, done + Elements(rest), n, t);
      CountConcat(LinksOf(net, rest), Links(net, n), t);
    }
  }

  lemma DegreesAgree(net: Net)
    requires Distinct(net.ids)
    ensures LevelDegrees(net) == InDegrees(net)
  {
    forall t | t in net.ids
      ensures Count(LinksOf(net, net.ids), t) == Pending(net, {}, t)
    {
      PendingSteps(net, {}, net.ids, t);
      assert {} + Elements(net.ids) == Elements(net.ids);
      forall a | Arc(net, a, t)
        ensures a in Elements(net.ids)
      {
      }
      PendingZero(net, Elements(net.ids), t);
    }
  }

  // ----- one level is one batch of the queue -----

  lemma TargetsConcat(xs: seq<Link>, ys: seq<Link>, indeg: InDeg)
    requires Targets(xs, indeg) && Targets(ys, indeg)
    ensures Targets(xs + ys, indeg)
  {
  }

  // `ys` relaxed after `xs`.
  function RelaxThen(xs: seq<Link>, ys: seq<Link>, indeg: InDeg): Relaxed
    requires Targets(xs, indeg) && Targets(ys, indeg)
  {
    var r := Relax(xs, indeg);
    var s := Relax(ys, r.indeg);
    Relaxed(s.indeg, r.ready + s.ready)
  }

  lemma RelaxThenLast(xs: seq<Link>, ys: seq<Link>, indeg: InDeg)
    requires Targets(xs, indeg) && Targets(ys, indeg) && |ys| > 0
    ensures var t := ys[|ys| - 1].target;
            var r := RelaxThen(xs, ys[..|ys| - 1], indeg);
            && t in r.indeg
            && RelaxThen(xs, ys, indeg) == Relaxed(r.indeg[t := r.indeg[t] - 1], r.ready + Last(r.indeg, t))
  {
    var r := Relax(xs, indeg);
    var s := Relax(ys[..|ys| - 1], r.indeg);
    RelaxLast(ys, r.indeg);
    Assoc(r.ready, s.ready, Last(s.indeg, ys[|ys| - 1].target));
  }

  lemma {:induction false} RelaxConcat(xs: seq<Link>, ys: seq<Link>, indeg: InDeg)
    requires Targets(xs, indeg) && Targets(ys, indeg) && Targets(xs + ys, indeg)
    ensures Relax(xs + ys, indeg) == RelaxThen(xs, ys, indeg)
  {
    if |ys| == 0 {
      assert xs + ys == xs && Relax(xs, indeg).ready + [] == Relax(xs, indeg).ready;
    } else {
      var all, front := xs + ys, ys[..|ys| - 1];
      assert all[..|all| - 1] == xs + front && all[|all| - 1] == ys[|ys| - 1];
      RelaxConcat(xs, front, indeg);
      RelaxThenLast(xs, ys, indeg);
      RelaxLast(all, indeg);
    }
  }

  lemma DrainOne(net: Net, n: Id, queue: seq<Id>, order: seq<Id>, indeg: InDeg)
    requires Covers(net, indeg) && DrainInv(net, [n] + queue, order, indeg)
    ensures Targets(Links(net, n), indeg)
    ensures var r := Relax(Links(net, n), indeg);
            && DrainInv(net, queue + r.ready, order + [n], r.indeg)
            && Drain(net, [n] + queue, order, indeg) == Drain(net, queue + r.ready, order + [n], r.indeg)
  {
    LinksTargets(net, n, indeg);
    assert ([n] + queue)[0] == n && ([n] + queue)[1..] == queue;
    DrainInvStep(net, [n] + queue, order, indeg);
  }

  // Popping all of `batch` off the front of the queue equals relaxing its links in one go.
  lemma {:induction false} DrainBatch(net: Net, batch: seq<Id>, queue: seq<Id>, order: seq<Id>, indeg: InDeg)
    requires Covers(net, indeg)
    requires DrainInv(net, batch + queue, order, indeg)
    ensures Targets(LinksOf(net, batch), indeg)
    ensures var r := Relax(LinksOf(net, batch), indeg);
            && DrainInv(net, queue + r.ready, order + batch, r.indeg)
            && Drain(net, batch + queue, order, indeg) == Drain(net, queue + r.ready, order + batch, r.indeg)
    decreases |batch|, 1
  {
    LinksOfTargets(net, batch, indeg);
    if |batch| == 0 {
      assert batch + queue == queue && queue + [] == queue && order + batch == order;
    } else {
      assert batch == batch[..|batch| - 1] + [batch[|batch| - 1]];
      DrainBatchSnoc(net, batch[..|batch| - 1], batch[|batch| - 1], queue, order, indeg);
    }
  }

  lemma {:induction false} DrainBatchSnoc(net: Net, rest: seq<Id>, n: Id, queue: seq<Id>, order: seq<Id>, indeg: InDeg)
    requires Covers(net, indeg)
    requires DrainInv(net, rest + [n] + queue, order, indeg)
    ensures Targets(LinksOf(net, rest + [n]), indeg)
    ensures var r := Relax(LinksOf(net, rest + [n]), indeg);
            && DrainInv(net, queue + r.ready, order + (rest + [n]), r.indeg)
            && Drain(net, rest + [n] + queue, order, indeg) ==
                 Drain(net, queue + r.ready, order + (rest + [n]), r.indeg)
    decreases |rest| + 1, 0
  {
    Assoc(rest, [n], queue);
    DrainBatch(net, rest, [n] + queue, order, indeg);
    var r := Relax(LinksOf(net, rest), indeg);
    Assoc([n], queue, r.ready);
    DrainOne(net, n, queue + r.ready, order + rest, r.indeg);
    RelaxSnoc(net, rest, n, indeg);
    Assoc(queue, r.ready, Relax(Links(net, n), r.indeg).ready);
    Assoc(order, rest, [n]);
  }

  lemma RelaxSnoc(net: Net, rest: seq<Id>, n: Id, indeg: InDeg)
    requires Covers(net, indeg)
    ensures Targets(LinksOf(net, rest), indeg) && Targets(LinksOf(net, rest + [n]), indeg)
    ensures var r := Relax(LinksOf(net, rest), indeg);
            && Targets(Links(net, n), r.indeg)
            && var s := Relax(Links(net, n), r.indeg);
               Relax(LinksOf(net, rest + [n]), indeg) == Relaxed(s.indeg, r.ready + s.ready)
  {
    LinksOfTargets(net, rest, indeg);
    LinksTargets(net, n, indeg);
    assert (rest + [n])[..|rest|] == rest;
    TargetsConcat(LinksOf(net, rest), Links(net, n), indeg);
    RelaxConcat(LinksOf(net, rest), Links(net, n), indeg);
  }

  lemma FlattenSnoc(levels: seq<seq<Id>>, last: seq<Id>)
    ensures Flatten(levels + [last]) == Flatten(levels) + last
  {
    assert (levels + [last])[..|levels|] == levels;
  }

  // Slices entered so far: a node's predecessors lie in earlier slices, one of them in the previous slice.
  ghost predicate SliceOk(net: Net, levels: seq<seq<Id>>, k: nat, t: Id)
    requires k < |levels|
  {
    && (forall a :: Arc(net, a, t) ==> a in Flatten(levels[..k]))
    && (k > 0 ==> exists a :: a in levels[k - 1] && Arc(net, a, t))
  }

  ghost predicate SlicesOk(net: Net, levels: seq<seq<Id>>) {
    forall k, t {:trigger SliceOk(net, levels, k, t)} :: 0 <= k < |levels| && t in levels[k] ==>
        SliceOk(net, levels, k, t)
  }

  lemma {:induction false} SlicesSnoc(net: Net, levels: seq<seq<Id>>, last: seq<Id>)
    requires SlicesOk(net, levels)
    requires forall t, a :: t in last && Arc(net, a, t) ==> a in Flatten(levels)
    requires |levels| > 0 ==> forall t :: t in last ==> exists a :: a in levels[|levels| - 1] && Arc(net, a, t)
    ensures SlicesOk(net, levels + [last])
  {
    var more := levels + [last];
    forall k, t | 0 <= k < |more| && t in more[k]
      ensures SliceOk(net, more, k, t)
    {
      assert more[..k] == levels[..k];
      if k < |levels| {
        assert SliceOk(net, levels, k, t);
      } else {
        assert levels[..k] == levels;
      }
    }
  }

  // A node that became ready has a predecessor in the batch that made it so.
  lemma ReadyHasParent(net: Net, batch: seq<Id>, indeg: InDeg, t: Id) returns (a: Id)
    requires Targets(LinksOf(net, batch), indeg)
    requires t in Relax(LinksOf(net, batch), indeg).ready
    ensures a in batch && Arc(net, a, t)
  {
    var links := LinksOf(net, batch);
    RelaxMeaning(links, indeg);
    CountPositive(links, t);
    var i :| 0 <= i < |links| && links[i].target == t;
    a := LinkOwner(net, batch, links[i]);
    LinkIsArc(net, a, links[i]);
  }

  ghost predicate SweepInv(net: Net, levels: seq<seq<Id>>, current: seq<Id>, kahn: InDeg, mine: InDeg, seen: set<Id>) {
    && Covers(net, mine) && InStep(kahn, mine, seen)
    && DrainInv(net, current, Flatten(levels), kahn)
    && SlicesOk(net, levels)
    && (|levels| > 0 ==> forall t :: t in current ==> exists a :: a in levels[|levels| - 1] && Arc(net, a, t))
  }

  // Nodes of the current batch have all their predecessors in the finished slices.
  lemma CurrentPreds(net: Net, queue: seq<Id>, order: seq<Id>, indeg: InDeg)
    requires DrainInv(net, queue, order, indeg)
    ensures forall t, a :: t in queue && Arc(net, a, t) ==> a in order
  {
    forall t, a | t in queue && Arc(net, a, t)
      ensures a in order
    {
      assert TableOk(net, queue, order, indeg, t);
      PendingZero(net, Elements(order), t);
    }
  }

  lemma {:induction false} SweepSlices(
    net: Net, levels: seq<seq<Id>>, current: seq<Id>, kahn: InDeg, mine: InDeg, seen: set<Id>)
    requires SweepInv(net, levels, current, kahn, mine, seen) && Covers(net, kahn)
    ensures var all := Sweep(net, levels, current, mine, seen);
            Flatten(all) == Drain(net, current, Flatten(levels), kahn) && SlicesOk(net, all)
    decreases |current| + |Positive(mine)|
  {
    if |current| == 0 {
    } else {
      var links := LinksOf(net, current);
      LinksOfTargets(net, current, mine);
      SpreadShrinks(links, mine, seen);
      SpreadFollowsRelax(links, kahn, mine, seen);
      var w := Spread(links, mine, seen);
      var r := Relax(links, kahn);
      assert current + [] == current && [] + r.ready == r.ready;
      DrainBatch(net, current, [], Flatten(levels), kahn);
      FlattenSnoc(levels, current);
      CurrentPreds(net, current, Flatten(levels), kahn);
      SlicesSnoc(net, levels, current);
      forall t | t in w.next
        ensures exists a :: a in current && Arc(net, a, t)
      {
        var a := ReadyHasParent(net, current, kahn, t);
      }
      SweepSlices(net, levels + [current], w.next, r.indeg, w.indeg, w.seen);
    }
  }

  lemma LevelsSlices(net: Net)
    requires Distinct(net.ids)
    ensures Flatten(LevelsOf(net)) == Order(net) && SlicesOk(net, LevelsOf(net))
  {
    DegreesAgree(net);
    DrainInvInit(net);
    var indeg := InDegrees(net);
    var roots := Roots(net.ids, indeg);
    var seen := set i | i in roots;
    RootsMeaning(net.ids, indeg);
    SweepSlices(net, [], roots, indeg, indeg, seen);
  }

  // Laid end to end, the levels are exactly the list `_topo` returns.
  lemma LevelsFlattenToOrder(net: Net)
    requires Distinct(net.ids)
    ensures Flatten(LevelsOf(net)) == Order(net)
  {
    LevelsSlices(net);
  }

  // ----- slices as levels -----

  lemma {:induction false} FlattenMember(levels: seq<seq<Id>>, t: Id)
    ensures t in Flatten(levels) <==> exists k :: 0 <= k < |levels| && t in levels[k]
  {
    if |levels| == 0 {
    } else {
      var rest := levels[..|levels| - 1];
      FlattenMember(rest, t);
      if t in Flatten(rest) {
        var k :| 0 <= k < |rest| && t in rest[k];
        assert t in levels[k];
      }
      if k :| 0 <= k < |levels| && t in levels[k] {
        if k < |rest| {
          assert t in rest[k];
        }
      }
    }
  }

  lemma PredIsLower(net: Net, k: nat, a: Id, t: Id) returns (j: nat)
    requires Distinct(net.ids) && Arc(net, a, t)
    requires k < |LevelsOf(net)| && t in LevelsOf(net)[k]
    ensures j < k && a in LevelsOf(net)[j]
  {
    var levels := LevelsOf(net);
    LevelsSlices(net);
    assert SliceOk(net, levels, k, t);
    FlattenMember(levels[..k], a);
    j :| 0 <= j < k && a in levels[..k][j];
  }

  // A path that ends in level k has at most k edges.
  lemma {:induction false} PathFitsLevel(net: Net, k: nat, p: seq<Id>)
    requires Distinct(net.ids) && IsPath(net, p)
    requires k < |LevelsOf(net)| && p[|p| - 1] in LevelsOf(net)[k]
    ensures |p| <= k + 1
    decreases |p|
  {
    if |p| == 1 {
    } else {
      assert ArcAt(net, p, |p| - 2);
      var j := PredIsLower(net, k, p[|p| - 2], p[|p| - 1]);
      SubPath(net, p, 0, |p| - 1);
      PathFitsLevel(net, j, p[0..|p| - 1]);
    }
  }

  // A node of level k ends some path of exactly k edges.
  lemma {:induction false} PathOfLevel(net: Net, k: nat, t: Id) returns (p: seq<Id>)
    requires Distinct(net.ids)
    requires k < |LevelsOf(net)| && t in LevelsOf(net)[k]
    ensures IsPath(net, p) && |p| == k + 1 && p[k] == t
  {
    var levels := LevelsOf(net);
    LevelsSlices(net);
    assert SliceOk(net, levels, k, t);
    FlattenMember(levels, t);
    OrderScheduled(net);
    assert ScheduledIff(net, Order(net), t);
    if k == 0 {
      p := [t];
    } else {
      var a :| a in levels[k - 1] && Arc(net, a, t);
      var q := PathOfLevel(net, k - 1, a);
      p := q + [t];
      forall i | 0 <= i < k
        ensures ArcAt(net, p, i)
      {
        if i < k - 1 {
          assert ArcAt(net, q, i);
        }
      }
    }
  }

  ghost predicate EndsAt(net: Net, p: seq<Id>, t: Id) {
    IsPath(net, p) && p[|p| - 1] == t
  }

  // Some path to `t` has `k` edges, and none has more.
  ghost predicate LongestPathTo(net: Net, t: Id, k: nat) {
    && (exists p :: EndsAt(net, p, t) && |p| == k + 1)
    && (forall p :: EndsAt(net, p, t) ==> |p| <= k + 1)
  }

  // The level of a node is the length of the longest path that ends at it.
  lemma {:induction false} LevelIsLongestPath(net: Net, k: nat, t: Id)
    requires Distinct(net.ids)
    requires k < |LevelsOf(net)| && t in LevelsOf(net)[k]
    ensures LongestPathTo(net, t, k)
  {
    var q := PathOfLevel(net, k, t);
    assert EndsAt(net, q, t);
    forall p | EndsAt(net, p, t)
      ensures |p| <= k + 1
    {
      PathFitsLevel(net, k, p);
    }
  }

  // Whatever leads to a node of level k sits in a strictly lower level.
  lemma {:induction false} UpstreamIsLower(net: Net, k: nat, a: Id, t: Id) returns (j: nat)
    requires Distinct(net.ids) && Reaches(net, a, t)
    requires k < |LevelsOf(net)| && t in LevelsOf(net)[k]
    ensures j < k && a in LevelsOf(net)[j]
    decreases k
  {
    var m := LastArc(net, a, t);
    j := PredIsLower(net, k, m, t);
    if m != a {
      j := UpstreamIsLower(net, j, a, m);
    }
  }

  // No node of a level can reach another node of the same level.
  lemma LevelIsIndependent(net: Net, k: nat, a: Id, t: Id)
    requires Distinct(net.ids)
    requires k < |LevelsOf(net)| && a in LevelsOf(net)[k] && t in LevelsOf(net)[k]
    ensures !Reaches(net, a, t)
  {
    if Reaches(net, a, t) {
      var p :| PathBetween(net, p, a, t);
      var q := PathOfLevel(net, k, a);
      JoinPaths(net, q, p);
      var joined := q + p[1..];
      assert joined[|joined| - 1] == t && |joined| > k + 1;
      PathFitsLevel(net, k, joined);
    }
  }
}
