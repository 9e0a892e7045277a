/** `_topo`: Kahn's algorithm over an arbitrary edge list.

    `Order` is the algorithm on values, `Topo` the loop that mutates the in-degree
    table and the queue; the theorems say what the order means for the graph. */
module Kahn {
  import opened Nets

  type InDeg = map<Id, int>

  datatype Relaxed = Relaxed(indeg: InDeg, ready: seq<Id>)

  ghost predicate Covers(net: Net, indeg: InDeg) {
    forall i :: i in net.ids ==> i in indeg
  }

  ghost predicate Targets(links: seq<Link>, indeg: InDeg) {
    forall i :: 0 <= i < |links| ==> links[i].target in indeg
  }

  lemma LinksTargets(net: Net, n: Id, indeg: InDeg)
    requires Covers(net, indeg)
    ensures Targets(Links(net, n), indeg)
  {
    forall i | 0 <= i < |Links(net, n)|
      ensures Links(net, n)[i].target in indeg
    {
      LinkIsArc(net, n, Links(net, n)[i]);
    }
  }

  // Decrement the target of every link in turn; a target that hits zero becomes ready.
  function Relax(links: seq<Link>, indeg: InDeg): (r: Relaxed)
    requires Targets(links, indeg)
    ensures r.indeg.Keys == indeg.Keys
  {
    if |links| == 0 then Relaxed(indeg, [])
    else
      var before := Relax(links[..|links| - 1], indeg);
      var t := links[|links| - 1].target;
      var left := before.indeg[t] - 1;
      Relaxed(before.indeg[t := left], before.ready + if left == 0 then [t] else [])
  }

  // What decrementing `t` once makes ready.
  function Last(indeg: InDeg, t: Id): seq<Id>
    requires t in indeg
  {
    if indeg[t] == 1 then [t] else []
  }

  lemma RelaxLast(links: seq<Link>, indeg: InDeg)
    requires Targets(links, indeg) && |links| > 0
    ensures var before := Relax(links[..|links| - 1], indeg);
            var t := links[|links| - 1].target;
            Relax(links, indeg) == Relaxed(before.indeg[t := before.indeg[t] - 1], before.ready + Last(before.indeg, t))
  {
  }

  function Positive(indeg: InDeg): set<Id> {
    set i | i in indeg && indeg[i] > 0
  }

  ghost predicate IsReady(links: seq<Link>, indeg: InDeg, t: Id) {
    t in indeg && 0 < indeg[t] <= Count(links, t)
  }

  // What relaxing does: every in-degree drops by the number of links, and the ready
  // nodes, each listed once, are those whose in-degree came down to zero.
  lemma {:induction false} RelaxMeaning(links: seq<Link>, indeg: InDeg)
    requires Targets(links, indeg)
    ensures forall t :: t in indeg ==> Relax(links, indeg).indeg[t] == indeg[t] - Count(links, t)
    ensures forall t :: t in Relax(links, indeg).ready <==> IsReady(links, indeg, t)
    ensures Distinct(Relax(links, indeg).ready)
  {
    if |links| == 0 {
    } else {
      RelaxMeaning(links[..|links| - 1], indeg);
      var before := Relax(links[..|links| - 1], indeg);
      var t := links[|links| - 1].target;
      if before.indeg[t] == 1 {
        DistinctAppend(before.ready, [t]);
      }
    }
  }

  lemma {:induction false} DistinctSize(s: seq<Id>)
    requires Distinct(s)
    ensures |set x | x in s| == |s|
  {
    if |s| == 0 {
    } else {
      var rest := s[..|s| - 1];
      DistinctSize(rest);
      assert (set x | x in s) == (set x | x in rest) + {s[|s| - 1]};
    }
  }

  lemma RelaxShrinks(links: seq<Link>, indeg: InDeg)
    requires Targets(links, indeg)
    ensures var r := Relax(links, indeg);
            |Positive(r.indeg)| + |r.ready| <= |Positive(indeg)|
  {
    var r := Relax(links, indeg);
    RelaxMeaning(links, indeg);
    DistinctSize(r.ready);
    var ready := set x | x in r.ready;
    assert ready !! Positive(r.indeg);
    var both := Positive(r.indeg) + ready;
    assert both <= Positive(indeg);
    SubsetSize(both, Positive(indeg));
  }

  lemma SubsetSize<T>(a: set<T>, b: set<T>)
    requires a <= b
    ensures |a| <= |b|
  {
    assert b == a + (b - a);
  }

  // The main loop: pop the front, append it to the order, relax its links.
  function Drain(net: Net, queue: seq<Id>, order: seq<Id>, indeg: InDeg): seq<Id>
    requires Covers(net, indeg)
    decreases |queue| + |Positive(indeg)|
  {
    if |queue| == 0 then order
    else
      LinksTargets(net, queue[0], indeg);
      RelaxShrinks(Links(net, queue[0]), indeg);
      var r := Relax(Links(net, queue[0]), indeg);
      Drain(net, queue[1..] + r.ready, order + [queue[0]], r.indeg)
  }

  // In-degree table after the edge loop of `_topo`.
  function InDegrees(net: Net): (indeg: InDeg)
    ensures Covers(net, indeg)
  {
    map i | i in net.ids :: Pending(net, {}, i)
  }

  // The nodes of `ids` without an incoming edge, in node order.
  function Roots(ids: seq<Id>, indeg: InDeg): seq<Id>
    requires forall i :: i in ids ==> i in indeg
  {
    if |ids| == 0 then []
    else
      var n := ids[|ids| - 1];
      Roots(ids[..|ids| - 1], indeg) + if indeg[n] == 0 then [n] else []
  }

  function Order(net: Net): seq<Id> {
    var indeg := InDegrees(net);
    Drain(net, Roots(net.ids, indeg), [], indeg)
  }

  function SuccMap(net: Net): map<Id, seq<Link>> {
    map i | i in net.ids :: Links(net, i)
  }

  // ----- the loops of _topo -----

  // The tables after the first `k` edges.
  ghost predicate Wired(net: Net, k: nat, indeg: InDeg, succ: map<Id, seq<Link>>)
    requires k <= |net.edges|
  {
    && indeg.Keys == Elements(net.ids) && succ.Keys == Elements(net.ids)
    && (forall i :: i in indeg ==> indeg[i] == PendingUpTo(net, k, {}, i))
    && (forall i :: i in succ ==> succ[i] == LinksUpTo(net, k, i))
  }

  method EmptyTables(net: Net) returns (indeg: InDeg, succ: map<Id, seq<Link>>)
    ensures Wired(net, 0, indeg, succ)
  {
    indeg := map i | i in net.ids :: 0;
    succ := map i | i in net.ids :: [];
  }

  // One round of the edge loop: an in-graph edge is recorded, a dangling one is not.
  method WireEdge(net: Net, k: nat, indeg0: InDeg, succ0: map<Id, seq<Link>>)
    returns (indeg: InDeg, succ: map<Id, seq<Link>>)
    requires k < |net.edges| && Wired(net, k, indeg0, succ0)
    ensures Wired(net, k + 1, indeg, succ)
  {
    var e := net.edges[k];
    indeg, succ := indeg0, succ0;
    if e.source in succ && e.target in indeg {
      succ := succ[e.source := succ[e.source] + [Link(e.target, e.handle)]];
      indeg := indeg[e.target := indeg[e.target] + 1];
    }
    forall i | i in indeg
      ensures indeg[i] == PendingUpTo(net, k + 1, {}, i)
    {
      assert indeg0[i] == PendingUpTo(net, k, {}, i);
    }
    forall i | i in succ
      ensures succ[i] == LinksUpTo(net, k + 1, i)
    {
      assert succ0[i] == LinksUpTo(net, k, i);
    }
  }

  // The edge loop: successor lists and in-degrees side by side.
  method WireEdges(net: Net) returns (indeg: InDeg, succ: map<Id, seq<Link>>)
    ensures indeg == InDegrees(net)
    ensures succ == SuccMap(net)
  {
    indeg, succ := EmptyTables(net);
    for k := 0 to |net.edges|
      invariant Wired(net, k, indeg, succ)
    {
      indeg, succ := WireEdge(net, k, indeg, succ);
    }
  }

  // The comprehension that fills the first queue.
  method FirstQueue(ids: seq<Id>, indeg: InDeg) returns (queue: seq<Id>)
    requires forall i :: i in ids ==> i in indeg
    ensures queue == Roots(ids, indeg)
  {
    queue := [];
    for k := 0 to |ids|
      invariant queue == Roots(ids[..k], indeg)
    {
      assert ids[..k + 1][..k] == ids[..k];
      if indeg[ids[k]] == 0 {
        queue := queue + [ids[k]];
      }
    }
    assert ids[..|ids|] == ids;
  }

  // The inner loop: one decrement per link, appending nodes that reach zero.
  method RelaxInto(links: seq<Link>, indeg0: InDeg, queue0: seq<Id>) returns (indeg: InDeg, queue: seq<Id>)
    requires Targets(links, indeg0)
    ensures indeg == Relax(links, indeg0).indeg
    ensures queue == queue0 + Relax(links, indeg0).ready
  {
    indeg, queue := indeg0, queue0;
    for k := 0 to |links|
      invariant Targets(links[..k], indeg0)
      invariant indeg == Relax(links[..k], indeg0).indeg
      invariant queue == queue0 + Relax(links[..k], indeg0).ready
    {
      assert links[..k + 1][..k] == links[..k];
      var t := links[k].target;
      RelaxLast(links[..k + 1], indeg0);
      Assoc(queue0, Relax(links[..k], indeg0).ready, Last(indeg, t));
      indeg := indeg[t := indeg[t] - 1];
      if indeg[t] == 0 {
        queue := queue + [t];
      }
    }
    assert links[..|links|] == links;
  }

  method Topo(net: Net) returns (order: seq<Id>, succ: map<Id, seq<Link>>)
    ensures order == Order(net)
    ensures succ == SuccMap(net)
  {
    var indeg;
    indeg, succ := WireEdges(net);
    var queue := FirstQueue(net.ids, indeg);
    RootsMeaning(net.ids, indeg);
    order := [];
    while |queue| > 0
      invariant Covers(net, indeg) && forall i :: i in queue ==> i in net.ids
      invariant Drain(net, queue, order, indeg) == Order(net)
      decreases |queue| + |Positive(indeg)|
    {
      var n := queue[0];
      LinksTargets(net, n, indeg);
      RelaxShrinks(Links(net, n), indeg);
      ReadyInNet(net, n, indeg);
      order := order + [n];
      indeg, queue := RelaxInto(succ[n], indeg, queue[1..]);
    }
  }

  lemma {:induction false} RootsMeaning(ids: seq<Id>, indeg: InDeg)
    requires forall i :: i in ids ==> i in indeg
    ensures Distinct(ids) ==> Distinct(Roots(ids, indeg))
    ensures forall n :: n in Roots(ids, indeg) <==> n in ids && indeg[n] == 0
  {
    if |ids| == 0 {
    } else {
      RootsMeaning(ids[..|ids| - 1], indeg);
    }
  }

  lemma ReadyInNet(net: Net, n: Id, indeg: InDeg)
    requires Covers(net, indeg) && Targets(Links(net, n), indeg)
    ensures forall t :: t in Relax(Links(net, n), indeg).ready ==> t in net.ids
  {
    RelaxMeaning(Links(net, n), indeg);
    forall t | t in Relax(Links(net, n), indeg).ready
      ensures t in net.ids
    {
      CountPositive(Links(net, n), t);
      var i :| 0 <= i < |Links(net, n)| && Links(net, n)[i].target == t;
      LinkIsArc(net, n, Links(net, n)[i]);
    }
  }

  // ----- the invariant of the loop -----

  // Every in-graph predecessor of s[i] comes earlier in `s`.
  ghost predicate PredsBefore(net: Net, s: seq<Id>, i: nat)
    requires i < |s|
  {
    forall a :: Arc(net, a, s[i]) ==> a in s[..i]
  }

  // The in-degree table holds the pending counts; zero means queued or done.
  ghost predicate TableOk(net: Net, queue: seq<Id>, order: seq<Id>, indeg: InDeg, t: Id) {
    && (t in net.ids && t in indeg ==> indeg[t] == Pending(net, Elements(order), t))
    && (t in order || t in queue <==> t in net.ids && Pending(net, Elements(order), t) == 0)
  }

  ghost predicate DrainInv(net: Net, queue: seq<Id>, order: seq<Id>, indeg: InDeg) {
    && indeg.Keys == Elements(net.ids) && Distinct(order + queue)
    && (forall t :: TableOk(net, queue, order, indeg, t))
    && (forall i :: 0 <= i < |order + queue| ==> PredsBefore(net, order + queue, i))
  }

  lemma DrainInvInit(net: Net)
    requires Distinct(net.ids)
    ensures DrainInv(net, Roots(net.ids, InDegrees(net)), [], InDegrees(net))
  {
    var indeg := InDegrees(net);
    var roots := Roots(net.ids, indeg);
    RootsMeaning(net.ids, indeg);
    assert [] + roots == roots && Elements<Id>([]) == {};
    assert forall t :: TableOk(net, roots, [], indeg, t);
    forall i | 0 <= i < |roots|
      ensures PredsBefore(net, roots, i)
    {
      assert roots[i] in roots;
      PendingZero(net, {}, roots[i]);
    }
  }

  lemma FrontNotInOrder(queue: seq<Id>, order: seq<Id>)
    requires Distinct(order + queue) && |queue| > 0
    ensures queue[0] !in order
  {
    forall i | 0 <= i < |order|
      ensures order[i] != queue[0]
    {
      assert (order + queue)[i] == order[i] && (order + queue)[|order|] == queue[0];
    }
  }

  // New nodes go behind everything already queued, after all their predecessors.
  lemma PredsBeforeAppend(net: Net, all: seq<Id>, done: set<Id>, ready: seq<Id>)
    requires forall i :: 0 <= i < |all| ==> PredsBefore(net, all, i)
    requires forall x :: x in done ==> x in all
    requires forall t :: t in ready ==> Pending(net, done, t) == 0
    ensures forall i :: 0 <= i < |all + ready| ==> PredsBefore(net, all + ready, i)
  {
    forall i | 0 <= i < |all + ready|
      ensures PredsBefore(net, all + ready, i)
    {
      if i < |all| {
        assert PredsBefore(net, all, i);
        assert (all + ready)[..i] == all[..i];
      } else {
        assert ready[i - |all|] in ready;
        PendingZero(net, done, ready[i - |all|]);
        assert (all + ready)[..i] == all + ready[..i - |all|];
      }
    }
  }

  // What popping `n` does to the entry of `t`: every link from `n` into `t` counts once.
  lemma PopEntry(net: Net, order: seq<Id>, n: Id, indeg: InDeg, t: Id)
    requires n !in order && t in indeg && Targets(Links(net, n), indeg)
    requires indeg[t] == Pending(net, Elements(order), t)
    ensures var r := Relax(Links(net, n), indeg);
            && r.indeg[t] == Pending(net, Elements(order + [n]), t) <= indeg[t]
            && (t in r.ready <==> indeg[t] > 0 && r.indeg[t] == 0)
  {
    RelaxMeaning(Links(net, n), indeg);
    assert Elements(order + [n]) == Elements(order) + {n};
    PendingStep(net, |net.edges|, Elements(order), n, t);
  }

  // One pop keeps the table right: `ready` is what the pop brought down to zero.
  lemma TableStep(net: Net, queue: seq<Id>, order: seq<Id>, indeg: InDeg, t: Id)
    requires |queue| > 0 && queue[0] !in order && indeg.Keys == Elements(net.ids)
    requires TableOk(net, queue, order, indeg, t)
    requires Targets(Links(net, queue[0]), indeg)
    ensures var r := Relax(Links(net, queue[0]), indeg);
            && TableOk(net, queue[1..] + r.ready, order + [queue[0]], r.indeg, t)
            && (t in r.ready ==> t !in order && t !in queue)
  {
    var n := queue[0];
    var r := Relax(Links(net, n), indeg);
    assert queue == [n] + queue[1..];
    if t in indeg {
      PopEntry(net, order, n, indeg, t);
    } else {
      ReadyKnown(Links(net, n), indeg, t);
    }
  }

  lemma ReadyKnown(links: seq<Link>, indeg: InDeg, t: Id)
    requires Targets(links, indeg) && t !in indeg
    ensures t !in Relax(links, indeg).ready
  {
    RelaxMeaning(links, indeg);
  }

  lemma TablesStep(net: Net, queue: seq<Id>, order: seq<Id>, indeg: InDeg)
    requires DrainInv(net, queue, order, indeg) && |queue| > 0
    requires Targets(Links(net, queue[0]), indeg)
    ensures var r := Relax(Links(net, queue[0]), indeg);
            forall t :: TableOk(net, queue[1..] + r.ready, order + [queue[0]], r.indeg, t)
    ensures var r := Relax(Links(net, queue[0]), indeg);
            forall t :: t in r.ready ==> t !in order + queue && Pending(net, Elements(order + [queue[0]]), t) == 0
  {
    var r := Relax(Links(net, queue[0]), indeg);
    FrontNotInOrder(queue, order);
    forall t
      ensures TableOk(net, queue[1..] + r.ready, order + [queue[0]], r.indeg, t)
      ensures t in r.ready ==> t !in order + queue && Pending(net, Elements(order + [queue[0]]), t) == 0
    {
      assert TableOk(net, queue, order, indeg, t);
      TableStep(net, queue, order, indeg, t);
      assert t in r.ready ==> t in queue[1..] + r.ready;
    }
  }

  lemma DrainInvStep(net: Net, queue: seq<Id>, order: seq<Id>, indeg: InDeg)
    requires DrainInv(net, queue, order, indeg) && |queue| > 0
    requires Targets(Links(net, queue[0]), indeg)
    ensures var r := Relax(Links(net, queue[0]), indeg);
            DrainInv(net, queue[1..] + r.ready, order + [queue[0]], r.indeg)
  {
    var n := queue[0];
    var r := Relax(Links(net, n), indeg);
    var all, order' := order + queue, order + [n];
    TablesStep(net, queue, order, indeg);
    RelaxMeaning(Links(net, n), indeg);
    assert order' + (queue[1..] + r.ready) == all + r.ready;
    DistinctAppend(all, r.ready);
    PredsBeforeAppend(net, all, Elements(order'), r.ready);
  }

  ghost predicate ScheduledIff(net: Net, order: seq<Id>, t: Id) {
    t in order <==> t in net.ids && forall a :: Arc(net, a, t) ==> a in order
  }

  // What a finished order is: a node is in it exactly when all its predecessors are.
  ghost predicate Scheduled(net: Net, order: seq<Id>) {
    && Distinct(order)
    && (forall t :: ScheduledIff(net, order, t))
    && (forall i :: 0 <= i < |order| ==> PredsBefore(net, order, i))
  }

  lemma {:induction false} DrainScheduled(net: Net, queue: seq<Id>, order: seq<Id>, indeg: InDeg)
    requires DrainInv(net, queue, order, indeg)
    ensures Scheduled(net, Drain(net, queue, order, indeg))
    decreases |queue| + |Positive(indeg)|
  {
    if |queue| == 0 {
      assert order + queue == order;
      forall t
        ensures ScheduledIff(net, order, t)
      {
        assert TableOk(net, queue, order, indeg, t);
        PendingZero(net, Elements(order), t);
      }
    } else {
      LinksTargets(net, queue[0], indeg);
      RelaxShrinks(Links(net, queue[0]), indeg);
      DrainInvStep(net, queue, order, indeg);
      var r := Relax(Links(net, queue[0]), indeg);
      DrainScheduled(net, queue[1..] + r.ready, order + [queue[0]], r.indeg);
    }
  }

  lemma OrderScheduled(net: Net)
    requires Distinct(net.ids)
    ensures Scheduled(net, Order(net))
  {
    DrainInvInit(net);
    var indeg := InDegrees(net);
    DrainScheduled(net, Roots(net.ids, indeg), [], indeg);
  }

  // ----- what the order means -----

  ghost function IndexOf(s: seq<Id>, x: Id): (i: nat)
    requires x in s
    ensures i < |s| && s[i] == x
  {
    var i :| 0 <= i < |s| && s[i] == x;
    i
  }

  lemma IndexUnique(s: seq<Id>, i: nat)
    requires Distinct(s) && i < |s|
    ensures IndexOf(s, s[i]) == i
  {
  }

  // Soundness: whatever leads to a scheduled node is scheduled strictly earlier.
  lemma {:induction false} UpstreamIsEarlier(net: Net, order: seq<Id>, a: Id, b: Id)
    requires Scheduled(net, order) && Reaches(net, a, b) && b in order
    ensures a in order && IndexOf(order, a) < IndexOf(order, b)
    decreases IndexOf(order, b)
  {
    var m := LastArc(net, a, b);
    assert PredsBefore(net, order, IndexOf(order, b));
    var i :| 0 <= i < IndexOf(order, b) && order[i] == m;
    IndexUnique(order, i);
    if m != a {
      UpstreamIsEarlier(net, order, a, m);
    }
  }

  lemma EdgesPointForward(net: Net, e: Edge)
    requires Distinct(net.ids) && e in net.edges && InNet(net, e) && e.target in Order(net)
    ensures e.source in Order(net) && IndexOf(Order(net), e.source) < IndexOf(Order(net), e.target)
  {
    OrderScheduled(net);
    assert Arc(net, e.source, e.target);
    ArcReaches(net, e.source, e.target);
    UpstreamIsEarlier(net, Order(net), e.source, e.target);
  }

  // `n` lies on a cycle or downstream of one.
  ghost predicate CycleBound(net: Net, n: Id) {
    exists c :: Reaches(net, c, c) && (c == n || Reaches(net, c, n))
  }

  lemma ScheduledIsAcyclic(net: Net, order: seq<Id>, n: Id)
    requires Scheduled(net, order) && n in order
    ensures !CycleBound(net, n)
  {
    forall c | Reaches(net, c, c) && (c == n || Reaches(net, c, n))
      ensures false
    {
      if c != n {
        UpstreamIsEarlier(net, order, c, n);
      }
      UpstreamIsEarlier(net, order, c, c);
    }
  }

  // An unscheduled node has an unscheduled predecessor, so a walk of any length ends at it.
  lemma {:induction false} UnscheduledWalk(net: Net, order: seq<Id>, n: Id, k: nat) returns (p: seq<Id>)
    requires Scheduled(net, order) && n in net.ids && n !in order
    ensures IsPath(net, p) && |p| == k + 1 && p[k] == n
    decreases k
  {
    if k == 0 {
      p := [n];
    } else {
      assert ScheduledIff(net, order, n);
      var a :| Arc(net, a, n) && a !in order;
      var q := UnscheduledWalk(net, order, a, k - 1);
      p := q + [n];
      forall i | 0 <= i < k
        ensures ArcAt(net, p, i)
      {
        if i < k - 1 {
          assert ArcAt(net, q, i);
        }
      }
    }
  }

  lemma LongWalkRepeats(net: Net, p: seq<Id>)
    requires Distinct(net.ids) && IsPath(net, p) && |p| > |net.ids|
    ensures !Distinct(p)
  {
    if Distinct(p) {
      DistinctSize(p);
      DistinctSize(net.ids);
      forall x | x in p
        ensures x in net.ids
      {
        PathNodesInNet(net, p, IndexOf(p, x));
      }
      SubsetSize(Elements(p), Elements(net.ids));
    }
  }

  // Completeness: a node left out of the order is on a cycle or behind one.
  lemma UnscheduledIsCyclic(net: Net, order: seq<Id>, n: Id)
    requires Distinct(net.ids) && Scheduled(net, order) && n in net.ids && n !in order
    ensures CycleBound(net, n)
  {
    var p := UnscheduledWalk(net, order, n, |net.ids|);
    LongWalkRepeats(net, p);
    var i, j :| 0 <= i < j < |p| && p[i] == p[j];
    var c := p[i];
    SubPath(net, p, i, j + 1);
    assert PathBetween(net, p[i..j + 1], c, c);
    assert Reaches(net, c, c);
    if j < |p| - 1 {
      SubPath(net, p, j, |p|);
      assert PathBetween(net, p[j..|p|], c, n);
    }
  }

  // The order lists, once each, exactly the nodes that no cycle reaches.
  lemma OrderIsExactlyAcyclicPart(net: Net, n: Id)
    requires Distinct(net.ids)
    ensures Distinct(Order(net))
    ensures n in Order(net) <==> n in net.ids && !CycleBound(net, n)
  {
    OrderScheduled(net);
    assert ScheduledIff(net, Order(net), n);
    if n in Order(net) {
      ScheduledIsAcyclic(net, Order(net), n);
    } else if n in net.ids {
      UnscheduledIsCyclic(net, Order(net), n);
    }
  }
}
