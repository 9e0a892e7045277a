/** The wiring of a graph: node ids and edges, before any node is run.

    `_topo` keeps an edge only when both of its ends are nodes of the graph.
    Dangling edges, parallel edges, self-loops and cycles are all legal input. */
module Nets {
  type Id = string

  datatype Option<+T> = None | Some(value: T) {
    function Or(other: Option<T>): Option<T> {
      if Some? then this else other
    }
  }

  datatype Edge = Edge(source: Id, target: Id, handle: Option<string>)

  // One entry of the successor list of a node.
  datatype Link = Link(target: Id, handle: Option<string>)

  datatype Net = Net(ids: seq<Id>, edges: seq<Edge>)

  ghost predicate Distinct<T>(s: seq<T>) {
    forall i, j :: 0 <= i < j < |s| ==> s[i] != s[j]
  }

  lemma DistinctAppend<T>(a: seq<T>, b: seq<T>)
    requires Distinct(a) && Distinct(b) && forall x :: x in b ==> x !in a
    ensures Distinct(a + b)
  {
    forall i, j | 0 <= i < j < |a + b|
      ensures (a + b)[i] != (a + b)[j]
    {
      if i < |a| <= j {
        assert b[j - |a|] in b;
      }
    }
  }

  lemma Assoc<T>(a: seq<T>, b: seq<T>, c: seq<T>)
    ensures a + b + c == a + (b + c)
  {
  }

  ghost function Elements<T>(s: seq<T>): set<T> {
    set x | x in s
  }

  lemma ElementsConcat<T>(a: seq<T>, b: seq<T>)
    ensures Elements(a + b) == Elements(a) + Elements(b)
  {
    forall x
      ensures x in Elements(a + b) <==> x in Elements(a) + Elements(b)
    {
    }
  }

  predicate InNet(net: Net, e: Edge) {
    e.source in net.ids && e.target in net.ids
  }

  // What the edge `e` adds to the successor list of `n`.
  function LinkOf(net: Net, e: Edge, n: Id): seq<Link> {
    if e.source == n && InNet(net, e) then [Link(e.target, e.handle)] else []
  }

  // The successor list of `n` built from the first `k` edges, in edge order.
  function LinksUpTo(net: Net, k: nat, n: Id): seq<Link>
    requires k <= |net.edges|
  {
    if k == 0 then [] else LinksUpTo(net, k - 1, n) + LinkOf(net, net.edges[k - 1], n)
  }

  function Links(net: Net, n: Id): seq<Link> {
    LinksUpTo(net, |net.edges|, n)
  }

  // How many of the first `k` edges run from a node outside `done` to `t`.
  function PendingUpTo(net: Net, k: nat, done: set<Id>, t: Id): nat
    requires k <= |net.edges|
  {
    if k == 0 then 0
    else
      var e := net.edges[k - 1];
      PendingUpTo(net, k - 1, done, t) + if InNet(net, e) && e.target == t && e.source !in done then 1 else 0
  }

  function Pending(net: Net, done: set<Id>, t: Id): nat {
    PendingUpTo(net, |net.edges|, done, t)
  }

  function Count(links: seq<Link>, t: Id): nat {
    if |links| == 0 then 0
    else Count(links[..|links| - 1], t) + if links[|links| - 1].target == t then 1 else 0
  }

  ghost predicate Arc(net: Net, a: Id, b: Id) {
    exists i :: 0 <= i < |net.edges| && InNet(net, net.edges[i]) && net.edges[i].source == a && net.edges[i].target == b
  }

  // ----- links and pending edges -----

  lemma {:induction false} CountConcat(xs: seq<Link>, ys: seq<Link>, t: Id)
    ensures Count(xs + ys, t) == Count(xs, t) + Count(ys, t)
  {
    if |ys| == 0 {
      assert xs + ys == xs;
    } else {
      assert (xs + ys)[..|xs + ys| - 1] == xs + ys[..|ys| - 1];
      CountConcat(xs, ys[..|ys| - 1], t);
    }
  }

  lemma {:induction false} CountPositive(links: seq<Link>, t: Id)
    ensures Count(links, t) > 0 <==> exists i :: 0 <= i < |links| && links[i].target == t
  {
    if |links| == 0 {
    } else {
      CountPositive(links[..|links| - 1], t);
      if Count(links[..|links| - 1], t) > 0 {
        var i :| 0 <= i < |links| - 1 && links[..|links| - 1][i].target == t;
        assert links[i].target == t;
      }
    }
  }

  lemma {:induction false} LinksUpToMember(net: Net, k: nat, n: Id, l: Link)
    requires k <= |net.edges|
    ensures l in LinksUpTo(net, k, n)
       <==> exists i :: 0 <= i < k && InNet(net, net.edges[i]) && net.edges[i] == Edge(n, l.target, l.handle)
  {
    if k == 0 {
    } else {
      LinksUpToMember(net, k - 1, n, l);
      var e := net.edges[k - 1];
      if InNet(net, e) && e == Edge(n, l.target, l.handle) {
        assert l in LinkOf(net, e, n);
      }
    }
  }

  // The successor list of `n` holds exactly the in-graph edges that leave `n`.
  lemma LinksMember(net: Net, n: Id, l: Link)
    ensures l in Links(net, n)
       <==> exists i :: 0 <= i < |net.edges| && InNet(net, net.edges[i]) && net.edges[i] == Edge(n, l.target, l.handle)
  {
    LinksUpToMember(net, |net.edges|, n, l);
  }

  lemma LinkIsArc(net: Net, n: Id, l: Link)
    requires l in Links(net, n)
    ensures Arc(net, n, l.target) && n in net.ids && l.target in net.ids
  {
    LinksMember(net, n, l);
  }

  lemma ArcIsLink(net: Net, a: Id, b: Id) returns (l: Link)
    requires Arc(net, a, b)
    ensures l in Links(net, a) && l.target == b
  {
    var i :| 0 <= i < |net.edges| && InNet(net, net.edges[i]) && net.edges[i].source == a && net.edges[i].target == b;
    l := Link(b, net.edges[i].handle);
    LinksMember(net, a, l);
  }

  // Finishing `n` takes its edges into `t` off the pending count of `t`.
  lemma {:induction false} PendingStep(net: Net, k: nat, done: set<Id>, n: Id, t: Id)
    requires k <= |net.edges| && n !in done
    ensures PendingUpTo(net, k, done + {n}, t) == PendingUpTo(net, k, done, t) - Count(LinksUpTo(net, k, n), t)
  {
    if k == 0 {
    } else {
      PendingStep(net, k - 1, done, n, t);
      var e := net.edges[k - 1];
      CountConcat(LinksUpTo(net, k - 1, n), LinkOf(net, e, n), t);
    }
  }

  lemma {:induction false} PendingZeroUpTo(net: Net, k: nat, done: set<Id>, t: Id)
    requires k <= |net.edges|
    ensures PendingUpTo(net, k, done, t) == 0
       <==> forall i :: 0 <= i < k && InNet(net, net.edges[i]) && net.edges[i].target == t ==>
           net.edges[i].source in done
  {
    if k == 0 {
    } else {
      PendingZeroUpTo(net, k - 1, done, t);
    }
  }

  // Nothing is pending for `t` exactly when every in-graph predecessor is done.
  lemma PendingZero(net: Net, done: set<Id>, t: Id)
    ensures Pending(net, done, t) == 0 <==> forall a :: Arc(net, a, t) ==> a in done
  {
    PendingZeroUpTo(net, |net.edges|, done, t);
    if forall a :: Arc(net, a, t) ==> a in done {
      forall i | 0 <= i < |net.edges| && InNet(net, net.edges[i]) && net.edges[i].target == t
        ensures net.edges[i].source in done
      {
        assert Arc(net, net.edges[i].source, t);
      }
    }
  }

  // ----- paths -----

  ghost predicate ArcAt(net: Net, p: seq<Id>, i: nat)
    requires i + 1 < |p|
  {
    Arc(net, p[i], p[i + 1])
  }

  ghost predicate IsPath(net: Net, p: seq<Id>) {
    |p| > 0 && p[0] in net.ids && forall i :: 0 <= i < |p| - 1 ==> ArcAt(net, p, i)
  }

  ghost predicate PathBetween(net: Net, p: seq<Id>, a: Id, b: Id) {
    IsPath(net, p) && |p| >= 2 && p[0] == a && p[|p| - 1] == b
  }

  // `b` can be reached from `a` over at least one edge.
  ghost predicate Reaches(net: Net, a: Id, b: Id) {
    exists p :: PathBetween(net, p, a, b)
  }

  lemma ArcReaches(net: Net, a: Id, b: Id)
    requires Arc(net, a, b)
    ensures Reaches(net, a, b)
  {
    assert ArcAt(net, [a, b], 0);
    assert PathBetween(net, [a, b], a, b);
  }

  lemma PathNodesInNet(net: Net, p: seq<Id>, i: nat)
    requires IsPath(net, p) && i < |p|
    ensures p[i] in net.ids
  {
    if i > 0 {
      assert ArcAt(net, p, i - 1);
    }
  }

  lemma JoinPaths(net: Net, p: seq<Id>, q: seq<Id>)
    requires IsPath(net, p) && IsPath(net, q) && p[|p| - 1] == q[0]
    ensures IsPath(net, p + q[1..])
  {
    var r := p + q[1..];
    forall i | 0 <= i < |r| - 1
      ensures ArcAt(net, r, i)
    {
      if i < |p| - 1 {
        assert ArcAt(net, p, i);
      } else {
        assert ArcAt(net, q, i - (|p| - 1));
        assert r[i] == q[i - (|p| - 1)] && r[i + 1] == q[i + 1 - (|p| - 1)];
      }
    }
  }

  lemma SubPath(net: Net, p: seq<Id>, i: nat, j: nat)
    requires IsPath(net, p) && i < j <= |p|
    ensures IsPath(net, p[i..j])
  {
    PathNodesInNet(net, p, i);
    forall k | 0 <= k < j - i - 1
      ensures ArcAt(net, p[i..j], k)
    {
      assert ArcAt(net, p, i + k);
    }
  }

  lemma ReachesTransitive(net: Net, a: Id, b: Id, c: Id)
    requires Reaches(net, a, b) && Reaches(net, b, c)
    ensures Reaches(net, a, c)
  {
    var p :| PathBetween(net, p, a, b);
    var q :| PathBetween(net, q, b, c);
    JoinPaths(net, p, q);
    assert PathBetween(net, p + q[1..], a, c);
  }

  // The last edge of a route: `b` is entered from `a` itself or from a node `a` reaches.
  lemma LastArc(net: Net, a: Id, b: Id) returns (m: Id)
    requires Reaches(net, a, b)
    ensures Arc(net, m, b) && (m == a || Reaches(net, a, m))
  {
    var p :| PathBetween(net, p, a, b);
    m := p[|p| - 2];
    assert ArcAt(net, p, |p| - 2);
    if |p| > 2 {
      SubPath(net, p, 0, |p| - 1);
      assert PathBetween(net, p[0..|p| - 1], a, m);
    }
  }

  // The first edge of a route.
  lemma FirstArc(net: Net, a: Id, b: Id) returns (m: Id)
    requires Reaches(net, a, b)
    ensures Arc(net, a, m) && (m == b || Reaches(net, m, b))
  {
    var p :| PathBetween(net, p, a, b);
    m := p[1];
    assert ArcAt(net, p, 0);
    if |p| > 2 {
      SubPath(net, p, 1, |p|);
      assert PathBetween(net, p[1..|p|], m, b);
    }
  }

  lemma ReachesInNet(net: Net, a: Id, b: Id)
    requires Reaches(net, a, b)
    ensures a in net.ids && b in net.ids
  {
    var m := LastArc(net, a, b);
    var f := FirstArc(net, a, b);
  }
}
