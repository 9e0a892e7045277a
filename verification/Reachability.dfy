/** The two worklists of the executor: forward from one handle of a condition node, and
    backward from the node a run is resumed at. Both are exact on every graph, cyclic or not. */
module Reachability {
  import opened Nets
  import opened Kahn

  // `x` lies on the branch that leaves `start` through `handle`.
  ghost predicate OnBranch(net: Net, start: Id, handle: string, x: Id) {
    exists l :: l in Links(net, start) && l.handle == Some(handle) && (l.target == x || Reaches(net, l.target, x))
  }

  ghost function Branch(net: Net, start: Id, handle: string): set<Id> {
    set x | x in net.ids && OnBranch(net, start, handle, x)
  }

  ghost function Ancestors(net: Net, n: Id): set<Id> {
    set x | x in net.ids && Reaches(net, x, n)
  }

  // Every edge out of `inside` ends in `inside` or in `fringe`.
  ghost predicate ClosedUpTo(net: Net, inside: set<Id>, fringe: seq<Id>) {
    forall v, w :: v in inside && Arc(net, v, w) ==> w in inside || w in fringe
  }

  lemma {:induction false} ClosedContainsReach(net: Net, inside: set<Id>, a: Id, x: Id)
    requires ClosedUpTo(net, inside, []) && a in inside && Reaches(net, a, x)
    ensures x in inside
  {
    var p :| PathBetween(net, p, a, x);
    for k := 0 to |p| - 1
      invariant p[k] in inside
    {
      assert ArcAt(net, p, k);
    }
  }

  lemma BranchStep(net: Net, start: Id, handle: string, v: Id, w: Id)
    requires v in Branch(net, start, handle) && Arc(net, v, w)
    ensures w in Branch(net, start, handle)
  {
    var l :| l in Links(net, start) && l.handle == Some(handle) && (l.target == v || Reaches(net, l.target, v));
    ArcReaches(net, v, w);
    if l.target != v {
      ReachesTransitive(net, l.target, v, w);
    }
    assert OnBranch(net, start, handle, w);
  }

  // `list(frontier)`: the elements of a set in whatever order the runtime picks.
  method Enumerate(s: set<Id>) returns (q: seq<Id>)
    ensures forall x :: x in q <==> x in s
  {
    q := [];
    var rest := s;
    while rest != {}
      invariant forall x :: x in s <==> x in q || x in rest
      decreases |rest|
    {
      var x :| x in rest;
      q, rest := q + [x], rest - {x};
    }
  }

  function LinksIn(succ: map<Id, seq<Link>>, n: Id): seq<Link> {
    if n in succ then succ[n] else []
  }

  lemma LinksInSucc(net: Net, n: Id)
    ensures LinksIn(SuccMap(net), n) == Links(net, n)
  {
    if n !in net.ids && |Links(net, n)| > 0 {
      LinkIsArc(net, n, Links(net, n)[0]);
    }
  }

  method PushUnvisited(links: seq<Link>, visited: set<Id>, queue0: seq<Id>) returns (queue: seq<Id>)
    ensures forall x :: x in queue <==> x in queue0 || (x !in visited && exists l :: l in links && l.target == x)
  {
    queue := queue0;
    for k := 0 to |links|
      invariant forall x :: x in queue <==>
                  x in queue0 || (x !in visited && exists l :: l in links[..k] && l.target == x)
    {
      var t := links[k].target;
      assert links[..k + 1] == links[..k] + [links[k]];
      if t !in visited {
        queue := queue + [t];
      }
    }
    assert links[..|links|] == links;
  }

  // What the worklist knows: everything it holds is on the branch, nothing escapes it.
  ghost predicate BranchInv(net: Net, start: Id, handle: string, frontier: set<Id>, visited: set<Id>, queue: seq<Id>) {
    && visited <= Branch(net, start, handle)
    && (forall x :: x in queue ==> x in Branch(net, start, handle))
    && (forall x :: x in frontier ==> x in visited || x in queue)
    && ClosedUpTo(net, visited, queue)
  }

  lemma BranchInvDone(net: Net, start: Id, handle: string, frontier: set<Id>, visited: set<Id>)
    requires BranchInv(net, start, handle, frontier, visited, [])
    requires forall l :: l in Links(net, start) && l.handle == Some(handle) ==> l.target in frontier
    ensures visited == Branch(net, start, handle)
  {
    forall x | x in Branch(net, start, handle)
      ensures x in visited
    {
      var l :| l in Links(net, start) && l.handle == Some(handle) && (l.target == x || Reaches(net, l.target, x));
      if l.target != x {
        ClosedContainsReach(net, visited, l.target, x);
      }
    }
  }

  lemma BranchInvVisit(net: Net, start: Id, handle: string, frontier: set<Id>, visited: set<Id>,
                       queue: seq<Id>, n: Id, queue': seq<Id>)
    requires BranchInv(net, start, handle, frontier, visited, queue + [n])
    requires forall x :: x in queue' <==>
               x in queue || (x !in visited + {n} && exists l :: l in Links(net, n) && l.target == x)
    ensures BranchInv(net, start, handle, frontier, visited + {n}, queue')
  {
    assert n in queue + [n];
    forall x | x in queue'
      ensures x in Branch(net, start, handle)
    {
      if x in queue {
        assert x in queue + [n];
      } else {
        var l :| l in Links(net, n) && l.target == x;
        LinkIsArc(net, n, l);
        BranchStep(net, start, handle, n, x);
      }
    }
    forall v, w | v in visited + {n} && Arc(net, v, w)
      ensures w in visited + {n} || w in queue'
    {
      if v == n {
        var l := ArcIsLink(net, n, w);
      } else {
        assert w in visited || w in queue + [n];
      }
    }
  }

  method ReachableViaHandle(net: Net, start: Id, handle: string, succ: map<Id, seq<Link>>) returns (visited: set<Id>)
    requires succ == SuccMap(net)
    ensures visited == Branch(net, start, handle)
  {
    var out := LinksIn(succ, start);
    LinksInSucc(net, start);
    var frontier := set l | l in out && l.handle == Some(handle) :: l.target;
    visited := {};
    var queue := Enumerate(frontier);
    forall x | x in queue
      ensures x in Branch(net, start, handle)
    {
      var l :| l in out && l.handle == Some(handle) && l.target == x;
      LinkIsArc(net, start, l);
    }
    while |queue| > 0
      invariant BranchInv(net, start, handle, frontier, visited, queue)
      decreases Elements(net.ids) - visited, |queue|
    {
      var n, rest := queue[|queue| - 1], queue[..|queue| - 1];
      assert queue == rest + [n];
      if n !in visited {
        assert n in Branch(net, start, handle);
        LinksInSucc(net, n);
        queue := PushUnvisited(LinksIn(succ, n), visited + {n}, rest);
        BranchInvVisit(net, start, handle, frontier, visited, rest, n, queue);
        visited := visited + {n};
      } else {
        BranchInvDrop(net, start, handle, frontier, visited, rest, n);
        queue := rest;
      }
    }
    assert queue == [];
    BranchInvDone(net, start, handle, frontier, visited);
  }

  lemma BranchInvDrop(net: Net, start: Id, handle: string, frontier: set<Id>, visited: set<Id>, queue: seq<Id>, n: Id)
    requires BranchInv(net, start, handle, frontier, visited, queue + [n]) && n in visited
    ensures BranchInv(net, start, handle, frontier, visited, queue)
  {
    forall x | x in queue
      ensures x in Branch(net, start, handle)
    {
      assert x in queue + [n];
    }
  }

  // ----- backwards from the resume point -----

  lemma {:induction false} CoClosedContainsReach(net: Net, inside: set<Id>, x: Id, b: Id)
    requires forall v, w :: Arc(net, v, w) && (w in inside || w == b) ==> v in inside
    requires Reaches(net, x, b)
    ensures x in inside
  {
    var p :| PathBetween(net, p, x, b);
    var k := |p| - 2;
    assert ArcAt(net, p, k);
    while k > 0
      invariant 0 <= k <= |p| - 2 && p[k] in inside
    {
      assert ArcAt(net, p, k - 1);
      k := k - 1;
    }
  }

  // The predecessor lists, one entry per in-graph edge.
  method BuildPred(net: Net) returns (pred: map<Id, seq<Id>>)
    ensures pred.Keys == Elements(net.ids)
    ensures forall t, a :: t in pred ==> (a in pred[t] <==> Arc(net, a, t))
  {
    pred := map i | i in net.ids :: [];
    for k := 0 to |net.edges|
      invariant pred.Keys == Elements(net.ids)
      invariant forall t, a :: t in pred ==> (a in pred[t] <==> ArcUpTo(net, k, a, t))
    {
      var e := net.edges[k];
      if e.target in pred && e.source in pred {
        pred := pred[e.target := pred[e.target] + [e.source]];
      }
    }
    forall t, a | t in pred
      ensures a in pred[t] <==> Arc(net, a, t)
    {
      assert ArcUpTo(net, |net.edges|, a, t) <==> Arc(net, a, t);
    }
  }

  ghost predicate ArcUpTo(net: Net, k: nat, a: Id, b: Id)
    requires k <= |net.edges|
  {
    exists i :: 0 <= i < k && InNet(net, net.edges[i]) && net.edges[i].source == a && net.edges[i].target == b
  }

  ghost predicate AncestorInv(net: Net, start: Id, visited: set<Id>, queue: seq<Id>) {
    && visited <= Ancestors(net, start)
    && (forall x :: x in queue ==> x == start || x in visited)
    && (forall v, w :: Arc(net, v, w) && (w in visited || w == start) && w !in queue ==> v in visited)
  }

  method AncestorsOf(net: Net, start: Id) returns (visited: set<Id>)
    ensures visited == Ancestors(net, start)
  {
    var pred := BuildPred(net);
    visited := {};
    var queue := [start];
    while |queue| > 0
      invariant AncestorInv(net, start, visited, queue)
      decreases Elements(net.ids) - visited, |queue|
    {
      var cur, rest := queue[|queue| - 1], queue[..|queue| - 1];
      assert queue == rest + [cur];
      var preds := if cur in pred then pred[cur] else [];
      forall a
        ensures a in preds <==> Arc(net, a, cur)
      {
      }
      ghost var seen := visited;
      visited, queue := VisitPreds(preds, visited, rest);
      AncestorInvStep(net, start, seen, rest, cur, visited, queue);
    }
    forall x | x in Ancestors(net, start)
      ensures x in visited
    {
      CoClosedContainsReach(net, visited, x, start);
    }
  }

  method VisitPreds(preds: seq<Id>, visited0: set<Id>, queue0: seq<Id>) returns (visited: set<Id>, queue: seq<Id>)
    ensures visited == visited0 + Elements(preds)
    ensures forall x :: x in queue <==> x in queue0 || (x in preds && x !in visited0)
    ensures visited == visited0 ==> queue == queue0
  {
    visited, queue := visited0, queue0;
    for k := 0 to |preds|
      invariant visited == visited0 + Elements(preds[..k])
      invariant forall x :: x in queue <==> x in queue0 || (x in preds[..k] && x !in visited0)
      invariant visited == visited0 ==> queue == queue0
    {
      assert preds[..k + 1] == preds[..k] + [preds[k]];
      if preds[k] !in visited {
        visited := visited + {preds[k]};
        queue := queue + [preds[k]];
      }
    }
    assert preds[..|preds|] == preds;
  }

  lemma AncestorInvStep(
    net: Net, start: Id, visited: set<Id>, rest: seq<Id>, cur: Id, visited': set<Id>, queue': seq<Id>)
    requires AncestorInv(net, start, visited, rest + [cur])
    requires forall x :: x in visited' <==> x in visited || Arc(net, x, cur)
    requires forall x :: x in queue' <==> x in rest || (Arc(net, x, cur) && x !in visited)
    ensures AncestorInv(net, start, visited', queue')
  {
    assert cur in rest + [cur];
    forall x | x in visited'
      ensures x in Ancestors(net, start)
    {
      if Arc(net, x, cur) {
        ArcReaches(net, x, cur);
        if cur != start {
          ReachesTransitive(net, x, cur, start);
        }
      }
    }
    forall x | x in queue'
      ensures x == start || x in visited'
    {
      if x in rest {
        assert x in rest + [cur];
      }
    }
    forall v, w | Arc(net, v, w) && (w in visited' || w == start) && w !in queue'
      ensures v in visited'
    {
      if w != cur {
        assert w !in rest + [cur];
      }
    }
  }

  // ----- what the branches mean for the schedule -----

  lemma BranchIsDownstream(net: Net, start: Id, handle: string, x: Id)
    requires x in Branch(net, start, handle)
    ensures Reaches(net, start, x)
  {
    var l :| l in Links(net, start) && l.handle == Some(handle) && (l.target == x || Reaches(net, l.target, x));
    LinkIsArc(net, start, l);
    ArcReaches(net, start, l.target);
    if l.target != x {
      ReachesTransitive(net, start, l.target, x);
    }
  }
}
