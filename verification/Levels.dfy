/** `_compute_levels`: nodes grouped into waves that may run in parallel.

    The waves are computed by a second algorithm, from the successor lists and with its
    own `seen` set; laid end to end they are the very list `_topo` returns. */
module Levels {
  import opened Nets
  import opened Kahn

  datatype Wave = Wave(indeg: InDeg, seen: set<Id>, next: seq<Id>)

  // The successor lists of `nodes`, one after another.
  function LinksOf(net: Net, nodes: seq<Id>): seq<Link> {
    if |nodes| == 0 then [] else LinksOf(net, nodes[..|nodes| - 1]) + Links(net, nodes[|nodes| - 1])
  }

  lemma {:induction false} LinksOfTargets(net: Net, nodes: seq<Id>, indeg: InDeg)
    requires Covers(net, indeg)
    ensures Targets(LinksOf(net, nodes), indeg)
  {
    if |nodes| == 0 {
    } else {
      LinksOfTargets(net, nodes[..|nodes| - 1], indeg);
      LinksTargets(net, nodes[|nodes| - 1], indeg);
    }
  }

  // One link: a node not seen yet is decremented, and at zero joins the next wave.
  function SpreadOne(w: Wave, t: Id): Wave
    requires t in w.indeg
  {
    if t in w.seen then w
    else
      var left := w.indeg[t] - 1;
      if left == 0 then Wave(w.indeg[t := left], w.seen + {t}, w.next + [t])
      else w.(indeg := w.indeg[t := left])
  }

  // One sweep over links that leaves nodes already seen alone.
  function Spread(links: seq<Link>, indeg: InDeg, seen: set<Id>): (w: Wave)
    requires Targets(links, indeg)
    ensures w.indeg.Keys == indeg.Keys
  {
    if |links| == 0 then Wave(indeg, seen, [])
    else SpreadOne(Spread(links[..|links| - 1], indeg, seen), links[|links| - 1].target)
  }

  // `_topo` keeps decrementing nodes it has queued, `_compute_levels` does not; both
  // tables agree on every node not seen yet.
  ghost predicate InStep(kahn: InDeg, mine: InDeg, seen: set<Id>) {
    && kahn.Keys == mine.Keys
    && forall t :: t in mine ==> if t in seen then kahn[t] <= 0 && mine[t] <= 0 else kahn[t] == mine[t]
  }

  lemma {:induction false} SpreadFollowsRelax(links: seq<Link>, kahn: InDeg, mine: InDeg, seen: set<Id>)
    requires InStep(kahn, mine, seen) && Targets(links, mine)
    ensures var w := Spread(links, mine, seen);
            var r := Relax(links, kahn);
            w.next == r.ready && w.seen == seen + Elements(w.next) && InStep(r.indeg, w.indeg, w.seen)
  {
    if |links| == 0 {
    } else {
      var front, t := links[..|links| - 1], links[|links| - 1].target;
      SpreadFollowsRelax(front, kahn, mine, seen);
      RelaxLast(links, kahn);
      SpreadOneFollows(Relax(front, kahn), Spread(front, mine, seen), t, seen);
    }
  }

  lemma SpreadOneFollows(r: Relaxed, w: Wave, t: Id, seen: set<Id>)
    requires t in w.indeg && w.next == r.ready && w.seen == seen + Elements(w.next) && InStep(r.indeg, w.indeg, w.seen)
    ensures var v := SpreadOne(w, t);
            && v.next == r.ready + Last(r.indeg, t) && v.seen == seen + Elements(v.next)
            && InStep(r.indeg[t := r.indeg[t] - 1], v.indeg, v.seen)
  {
    assert r.ready + [] == r.ready;
  }

  lemma {:induction false} SpreadShrinks(links: seq<Link>, indeg: InDeg, seen: set<Id>)
    requires Targets(links, indeg)
    ensures var w := Spread(links, indeg, seen);
            |Positive(w.indeg)| + |w.next| <= |Positive(indeg)|
  {
    if |links| == 0 {
    } else {
      var front := links[..|links| - 1];
      SpreadShrinks(front, indeg, seen);
      SpreadOneShrinks(Spread(front, indeg, seen), links[|links| - 1].target);
    }
  }

  lemma SpreadOneShrinks(w: Wave, t: Id)
    requires t in w.indeg
    ensures var v := SpreadOne(w, t); |Positive(v.indeg)| + |v.next| <= |Positive(w.indeg)| + |w.next|
  {
    var v := SpreadOne(w, t);
    if t !in w.seen && w.indeg[t] == 1 {
      assert Positive(v.indeg) == Positive(w.indeg) - {t};
    } else {
      SubsetSize(Positive(v.indeg), Positive(w.indeg));
    }
  }

  function Sweep(net: Net, levels: seq<seq<Id>>, current: seq<Id>, indeg: InDeg, seen: set<Id>): seq<seq<Id>>
    requires Covers(net, indeg)
    decreases |current| + |Positive(indeg)|
  {
    if |current| == 0 then levels
    else
      LinksOfTargets(net, current, indeg);
      SpreadShrinks(LinksOf(net, current), indeg, seen);
      var w := Spread(LinksOf(net, current), indeg, seen);
      Sweep(net, levels + [current], w.next, w.indeg, w.seen)
  }

  // In-degrees counted from the successor lists.
  function LevelDegrees(net: Net): (indeg: InDeg)
    ensures Covers(net, indeg)
  {
    map i | i in net.ids :: Count(LinksOf(net, net.ids), i)
  }

  function LevelsOf(net: Net): seq<seq<Id>> {
    var indeg := LevelDegrees(net);
    var roots := Roots(net.ids, indeg);
    Sweep(net, [], roots, indeg, set i | i in roots)
  }

  function Flatten(levels: seq<seq<Id>>): seq<Id> {
    if |levels| == 0 then [] else Flatten(levels[..|levels| - 1]) + levels[|levels| - 1]
  }

  // ----- the loops of _compute_levels -----

  // What was listed before a sweep stays in front of what the sweep lists.
  function After(next: seq<Id>, w: Wave): Wave {
    w.(next := next + w.next)
  }

  lemma SpreadOneAfter(next: seq<Id>, w: Wave, t: Id)
    requires t in w.indeg
    ensures SpreadOne(After(next, w), t) == After(next, SpreadOne(w, t))
  {
    Assoc(next, w.next, [t]);
  }

  lemma {:induction false} SpreadConcat(xs: seq<Link>, ys: seq<Link>, indeg: InDeg, seen: set<Id>)
    requires Targets(xs, indeg) && Targets(ys, indeg)
    ensures Targets(xs + ys, indeg)
    ensures var w := Spread(xs, indeg, seen);
            Spread(xs + ys, indeg, seen) == After(w.next, Spread(ys, w.indeg, w.seen))
  {
    var w := Spread(xs, indeg, seen);
    if |ys| == 0 {
      assert xs + ys == xs && w.next + [] == w.next;
    } else {
      var front, t := ys[..|ys| - 1], ys[|ys| - 1].target;
      assert (xs + ys)[..|xs + ys| - 1] == xs + front;
      SpreadConcat(xs, front, indeg, seen);
      SpreadOneAfter(w.next, Spread(front, w.indeg, w.seen), t);
    }
  }

  // The body of the per-node loop: one pass over one successor list.
  method SpreadInto(links: seq<Link>, indeg0: InDeg, seen0: set<Id>, next0: seq<Id>)
    returns (indeg: InDeg, seen: set<Id>, next: seq<Id>)
    requires Targets(links, indeg0)
    ensures Wave(indeg, seen, next) == After(next0, Spread(links, indeg0, seen0))
  {
    indeg, seen, next := indeg0, seen0, next0;
    for k := 0 to |links|
      invariant Targets(links[..k], indeg0)
      invariant Wave(indeg, seen, next) == After(next0, Spread(links[..k], indeg0, seen0))
    {
      assert links[..k + 1][..k] == links[..k];
      var t := links[k].target;
      SpreadOneAfter(next0, Spread(links[..k], indeg0, seen0), t);
      if t !in seen {
        indeg := indeg[t := indeg[t] - 1];
        if indeg[t] == 0 {
          next := next + [t];
          seen := seen + {t};
        }
      }
    }
    assert links[..|links|] == links;
  }

  // One round of the level loop.
  method SpreadLevel(net: Net, succ: map<Id, seq<Link>>, current: seq<Id>, indeg0: InDeg, seen0: set<Id>)
    returns (indeg: InDeg, seen: set<Id>, next: seq<Id>)
    requires succ == SuccMap(net) && Covers(net, indeg0)
    requires forall i :: i in current ==> i in net.ids
    ensures Targets(LinksOf(net, current), indeg0)
    ensures Wave(indeg, seen, next) == Spread(LinksOf(net, current), indeg0, seen0)
  {
    indeg, seen, next := indeg0, seen0, [];
    LinksOfTargets(net, current, indeg0);
    for k := 0 to |current|
      invariant Covers(net, indeg) && Targets(LinksOf(net, current[..k]), indeg0)
      invariant Wave(indeg, seen, next) == Spread(LinksOf(net, current[..k]), indeg0, seen0)
    {
      assert current[..k + 1][..k] == current[..k];
      LinksOfTargets(net, current[..k + 1], indeg0);
      LinksTargets(net, current[k], indeg0);
      LinksTargets(net, current[k], indeg);
      SpreadConcat(LinksOf(net, current[..k]), Links(net, current[k]), indeg0, seen0);
      indeg, seen, next := SpreadInto(succ[current[k]], indeg, seen, next);
    }
    assert current[..|current|] == current;
  }

  method CountTargets(links: seq<Link>, indeg0: InDeg) returns (indeg: InDeg)
    requires Targets(links, indeg0)
    ensures indeg.Keys == indeg0.Keys
    ensures forall i :: i in indeg ==> indeg[i] == indeg0[i] + Count(links, i)
  {
    indeg := indeg0;
    for k := 0 to |links|
      invariant indeg.Keys == indeg0.Keys
      invariant forall i :: i in indeg ==> indeg[i] == indeg0[i] + Count(links[..k], i)
    {
      assert links[..k + 1][..k] == links[..k];
      var t := links[k].target;
      indeg := indeg[t := indeg[t] + 1];
    }
    assert links[..|links|] == links;
  }

  // The table after the successor lists of `nodes`.
  ghost predicate Counted(net: Net, nodes: seq<Id>, indeg: InDeg) {
    && indeg.Keys == Elements(net.ids)
    && forall i :: i in indeg ==> indeg[i] == Count(LinksOf(net, nodes), i)
  }

  method CountNode(net: Net, succ: map<Id, seq<Link>>, k: nat, before: InDeg) returns (indeg: InDeg)
    requires succ == SuccMap(net) && k < |net.ids| && Counted(net, net.ids[..k], before)
    ensures Counted(net, net.ids[..k + 1], indeg)
  {
    var n := net.ids[k];
    LinksTargets(net, n, before);
    indeg := CountTargets(succ[n], before);
    assert net.ids[..k + 1][..k] == net.ids[..k];
    forall i | i in indeg
      ensures indeg[i] == Count(LinksOf(net, net.ids[..k + 1]), i)
    {
      CountConcat(LinksOf(net, net.ids[..k]), Links(net, n), i);
    }
  }

  method CountInDegrees(net: Net, succ: map<Id, seq<Link>>) returns (indeg: InDeg)
    requires succ == SuccMap(net)
    ensures indeg == LevelDegrees(net)
  {
    indeg := map i | i in net.ids :: 0;
    for k := 0 to |net.ids|
      invariant Counted(net, net.ids[..k], indeg)
    {
      indeg := CountNode(net, succ, k, indeg);
    }
    assert net.ids[..|net.ids|] == net.ids;
  }

  method ComputeLevels(net: Net, succ: map<Id, seq<Link>>) returns (levels: seq<seq<Id>>)
    requires succ == SuccMap(net)
    ensures levels == LevelsOf(net)
  {
    var indeg := CountInDegrees(net, succ);
    var current := FirstQueue(net.ids, indeg);
    RootsMeaning(net.ids, indeg);
    var seen := set i | i in current;
    levels := [];
    while |current| > 0
      invariant Covers(net, indeg) && forall i :: i in current ==> i in net.ids
      invariant Sweep(net, levels, current, indeg, seen) == LevelsOf(net)
      decreases |current| + |Positive(indeg)|
    {
      levels := levels + [current];
      LinksOfTargets(net, current, indeg);
      SpreadShrinks(LinksOf(net, current), indeg, seen);
      SpreadInNet(net, current, indeg, seen);
      indeg, seen, current := SpreadLevel(net, succ, current, indeg, seen);
    }
  }

  lemma SpreadInNet(net: Net, nodes: seq<Id>, indeg: InDeg, seen: set<Id>)
    requires Targets(LinksOf(net, nodes), indeg)
    ensures forall t :: t in Spread(LinksOf(net, nodes), indeg, seen).next ==> t in net.ids
  {
    SpreadNextIsTarget(LinksOf(net, nodes), indeg, seen);
    forall t | t in Spread(LinksOf(net, nodes), indeg, seen).next
      ensures t in net.ids
    {
      var l :| l in LinksOf(net, nodes) && l.target == t;
      var a := LinkOwner(net, nodes, l);
      LinkIsArc(net, a, l);
    }
  }

  lemma {:induction false} SpreadNextIsTarget(links: seq<Link>, indeg: InDeg, seen: set<Id>)
    requires Targets(links, indeg)
    ensures forall t :: t in Spread(links, indeg, seen).next ==> exists l :: l in links && l.target == t
  {
    if |links| == 0 {
    } else {
      SpreadNextIsTarget(links[..|links| - 1], indeg, seen);
      assert links[|links| - 1] in links;
    }
  }

  lemma {:induction false} LinkOwner(net: Net, nodes: seq<Id>, l: Link) returns (a: Id)
    requires l in LinksOf(net, nodes)
    ensures a in nodes && l in Links(net, a)
  {
    a := nodes[|nodes| - 1];
    if l !in Links(net, a) {
      a := LinkOwner(net, nodes[..|nodes| - 1], l);
    }
  }
}
