/** What the expansion of a loop means, in terms of its edges and of what the body handlers
    answer: which nodes are the body, what each finds on each pass, and what a pass yields. */
module LoopPasses {
  import opened Nets
  import opened Kahn
  import opened Values
  import opened NodeExec
  import opened LoopBody
  import opened Locality

  // ----- the body -----

  // An edge of the graph that leaves `n` through its `body` handle.
  ghost predicate BodyEdge(net: Net, i: nat, n: Id) {
    i < |net.edges| && InNet(net, net.edges[i]) && net.edges[i].source == n && net.edges[i].handle == Some("body")
  }

  lemma BodyTargetsSnoc(links: seq<Link>, l: Link)
    ensures BodyTargets(links + [l]) == BodyTargets(links) + if l.handle == Some("body") then [l.target] else []
  {
    assert (links + [l])[..|links|] == links;
  }

  lemma TargetsNext(net: Net, n: Id, k: nat)
    requires k < |net.edges|
    ensures BodyTargets(LinksUpTo(net, k + 1, n)) ==
            BodyTargets(LinksUpTo(net, k, n)) + if BodyEdge(net, k, n) then [net.edges[k].target] else []
  {
    var before, e := LinksUpTo(net, k, n), net.edges[k];
    if LinkOf(net, e, n) == [] {
      assert before + [] == before;
    } else {
      BodyTargetsSnoc(before, Link(e.target, e.handle));
    }
  }

  lemma {:induction false} NoTarget(net: Net, n: Id, k: nat)
    requires k <= |net.edges| && forall j: nat :: j < k ==> !BodyEdge(net, j, n)
    ensures BodyTargets(LinksUpTo(net, k, n)) == []
  {
    if k > 0 {
      TargetsNext(net, n, k - 1);
      NoTarget(net, n, k - 1);
    }
  }

  // The first edge of all that leaves `n` through its `body` handle.
  ghost predicate FirstBodyEdge(net: Net, i: nat, n: Id) {
    BodyEdge(net, i, n) && forall j: nat :: j < i ==> !BodyEdge(net, j, n)
  }

  ghost predicate StartsWith(net: Net, n: Id, k: nat, x: Id)
    requires k <= |net.edges|
  {
    var targets := BodyTargets(LinksUpTo(net, k, n));
    |targets| > 0 && targets[0] == x
  }

  lemma FirstTargetStays(net: Net, n: Id, k: nat, x: Id)
    requires k < |net.edges| && StartsWith(net, n, k, x)
    ensures StartsWith(net, n, k + 1, x)
  {
    TargetsNext(net, n, k);
  }

  lemma FirstTargetStarts(net: Net, n: Id, i: nat)
    requires FirstBodyEdge(net, i, n)
    ensures StartsWith(net, n, i + 1, net.edges[i].target)
  {
    TargetsNext(net, n, i);
    NoTarget(net, n, i);
  }

  lemma {:induction false} FirstTarget(net: Net, n: Id, i: nat, k: nat)
    requires FirstBodyEdge(net, i, n) && i < k <= |net.edges|
    ensures StartsWith(net, n, k, net.edges[i].target)
  {
    if i == k - 1 {
      FirstTargetStarts(net, n, i);
    } else {
      FirstTarget(net, n, i, k - 1);
      FirstTargetStays(net, n, k - 1, net.edges[i].target);
    }
  }

  // The first target is that of the first edge through the handle.
  lemma FirstTargetIs(net: Net, n: Id)
    ensures (forall j: nat :: !BodyEdge(net, j, n)) ==> BodyTargets(Links(net, n)) == []
    ensures forall i: nat :: FirstBodyEdge(net, i, n) ==>
              |BodyTargets(Links(net, n))| > 0 && BodyTargets(Links(net, n))[0] == net.edges[i].target
  {
    if forall j: nat :: !BodyEdge(net, j, n) {
      NoTarget(net, n, |net.edges|);
    }
    forall i: nat | FirstBodyEdge(net, i, n)
      ensures |BodyTargets(Links(net, n))| > 0 && BodyTargets(Links(net, n))[0] == net.edges[i].target
    {
      FirstTarget(net, n, i, |net.edges|);
    }
  }

  lemma {:induction false} TargetsMember(links: seq<Link>, t: Id)
    ensures t in BodyTargets(links) <==> Link(t, Some("body")) in links
  {
    if |links| == 0 {
    } else {
      TargetsMember(links[..|links| - 1], t);
      assert links == links[..|links| - 1] + [links[|links| - 1]];
    }
  }

  lemma {:induction false} BodyOfMember(net: Net, targets: seq<Id>, b: Id)
    ensures b in BodyOf(net, targets) <==> exists t :: t in targets && (t == b || b in TargetsOf(Links(net, t)))
  {
    if |targets| == 0 {
    } else {
      var front, t := targets[..|targets| - 1], targets[|targets| - 1];
      BodyOfMember(net, front, b);
      assert t in targets && forall u :: u in targets <==> u in front || u == t;
    }
  }

  lemma LinkTarget(net: Net, a: Id, b: Id)
    ensures b in TargetsOf(Links(net, a)) <==> Arc(net, a, b)
  {
    if b in TargetsOf(Links(net, a)) {
      var l :| l in Links(net, a) && l.target == b;
      LinkIsArc(net, a, l);
    }
    if Arc(net, a, b) {
      var i :| 0 <= i < |net.edges| && InNet(net, net.edges[i]) && net.edges[i].source == a && net.edges[i].target == b;
      LinksUpToMember(net, |net.edges|, a, Link(b, net.edges[i].handle));
    }
  }

  // The body: the targets of the handle and their direct successors, and no further.
  lemma BodySetIs(net: Net, n: Id, b: Id)
    ensures b in BodySet(net, n)
       <==> exists i: nat :: BodyEdge(net, i, n) && (net.edges[i].target == b || Arc(net, net.edges[i].target, b))
  {
    var links := Links(net, n);
    BodyOfMember(net, BodyTargets(links), b);
    if t :| t in BodyTargets(links) && (t == b || b in TargetsOf(Links(net, t))) {
      TargetsMember(links, t);
      LinksUpToMember(net, |net.edges|, n, Link(t, Some("body")));
      LinkTarget(net, t, b);
      var i: nat :| i < |net.edges| && InNet(net, net.edges[i]) && net.edges[i] == Edge(n, t, Some("body"));
      assert BodyEdge(net, i, n);
    }
    if i: nat :| BodyEdge(net, i, n) && (net.edges[i].target == b || Arc(net, net.edges[i].target, b)) {
      var t := net.edges[i].target;
      LinksUpToMember(net, |net.edges|, n, Link(t, Some("body")));
      TargetsMember(links, t);
      LinkTarget(net, t, b);
    }
  }

  // ----- the order of the body -----

  ghost function BodyNet(plan: Plan, n: Id): Net {
    var body := BodySet(plan.net, n);
    Net(plan.env.runtime.listing(body), EdgesWithin(plan.net.edges, body))
  }

  lemma {:induction false} WithinMember(edges: seq<Edge>, subset: set<Id>, e: Edge)
    ensures e in EdgesWithin(edges, subset) <==> e in edges && e.source in subset && e.target in subset
  {
    if |edges| == 0 {
    } else {
      var front, last := edges[..|edges| - 1], edges[|edges| - 1];
      WithinMember(front, subset, e);
      assert e in edges <==> e in front || e == last;
      var kept := EdgesWithin(front, subset);
      if last.source in subset && last.target in subset {
        assert EdgesWithin(edges, subset) == kept + [last];
        assert e in kept + [last] <==> e in kept || e == last;
      } else {
        assert EdgesWithin(edges, subset) == kept + [] == kept;
      }
    }
  }

  lemma {:induction false} RemoveFirstIs(s: seq<Id>, x: Id)
    requires Distinct(s)
    ensures Distinct(RemoveFirst(s, x)) && forall y :: y in RemoveFirst(s, x) <==> y in s && y != x
  {
    if |s| == 0 {
    } else {
      assert forall i, j :: 0 <= i < j < |s[1..]| ==> s[1..][i] == s[i + 1] != s[j + 1] == s[1..][j];
      assert forall y :: y in s <==> y == s[0] || y in s[1..];
      assert s[0] !in s[1..];
      if s[0] != x {
        RemoveFirstIs(s[1..], x);
        RemoveFirstHead(s, x);
      }
    }
  }

  lemma RemoveFirstHead(s: seq<Id>, x: Id)
    requires Distinct(s) && |s| > 0 && s[0] != x && Distinct(RemoveFirst(s[1..], x))
    requires s[0] !in RemoveFirst(s[1..], x)
    ensures Distinct(RemoveFirst(s, x))
  {
    DistinctAppend([s[0]], RemoveFirst(s[1..], x));
  }

  // Which nodes of the body are run on a pass: all but the loop itself and what a cycle
  // within the body reaches, once each.
  lemma BodyOrderIs(plan: Plan, n: Id, b: Id)
    requires FaithfulListing(plan.env)
    ensures Distinct(BodyOrder(plan, n))
    ensures b in BodyOrder(plan, n) <==> b in BodySet(plan.net, n) && b != n && !CycleBound(BodyNet(plan, n), b)
  {
    var sub := BodyNet(plan, n);
    OrderIsExactlyAcyclicPart(sub, b);
    RemoveFirstIs(Order(sub), n);
    assert b in sub.ids <==> b in Elements(sub.ids);
  }

  lemma BodyArcs(plan: Plan, n: Id, a: Id, b: Id)
    requires FaithfulListing(plan.env)
    ensures Arc(BodyNet(plan, n), a, b)
       <==> a in BodySet(plan.net, n) && b in BodySet(plan.net, n)
            && exists e :: e in plan.net.edges && e.source == a && e.target == b
  {
    var sub, body := BodyNet(plan, n), BodySet(plan.net, n);
    assert forall x :: x in sub.ids <==> x in Elements(sub.ids);
    if Arc(sub, a, b) {
      var i :| 0 <= i < |sub.edges| && InNet(sub, sub.edges[i]) && sub.edges[i].source == a && sub.edges[i].target == b;
      WithinMember(plan.net.edges, body, sub.edges[i]);
    }
    if e :| a in body && b in body && e in plan.net.edges && e.source == a && e.target == b {
      WithinMember(plan.net.edges, body, e);
      assert e in sub.edges;
      var i :| 0 <= i < |sub.edges| && sub.edges[i] == e;
      assert InNet(sub, sub.edges[i]);
    }
  }

  lemma {:induction false} RemoveFirstKeepsOrder(s: seq<Id>, x: Id, i: nat, j: nat)
    requires Distinct(s) && i < j < |RemoveFirst(s, x)|
    ensures exists k, m :: 0 <= k < m < |s| && s[k] == RemoveFirst(s, x)[i] && s[m] == RemoveFirst(s, x)[j]
  {
    if s[0] == x {
      assert s[i + 1] == RemoveFirst(s, x)[i] && s[j + 1] == RemoveFirst(s, x)[j];
    } else if i == 0 {
      RemoveFirstMember(s[1..], x);
      assert RemoveFirst(s, x)[j] == RemoveFirst(s[1..], x)[j - 1];
      assert RemoveFirst(s, x)[j] in s[1..];
      var m :| 0 <= m < |s[1..]| && s[1..][m] == RemoveFirst(s, x)[j];
      assert s[0] == RemoveFirst(s, x)[0] && s[m + 1] == RemoveFirst(s, x)[j];
    } else {
      assert forall k, m :: 0 <= k < m < |s[1..]| ==> s[1..][k] == s[k + 1] != s[m + 1] == s[1..][m];
      RemoveFirstKeepsOrder(s[1..], x, i - 1, j - 1);
      var k, m :| 0 <= k < m < |s[1..]| && s[1..][k] == RemoveFirst(s[1..], x)[i - 1]
                  && s[1..][m] == RemoveFirst(s[1..], x)[j - 1];
      assert s[k + 1] == RemoveFirst(s, x)[i] && s[m + 1] == RemoveFirst(s, x)[j];
    }
  }

  // No body node is run before one of the body that feeds it.
  lemma BodyEdgesPointForward(plan: Plan, n: Id, i: nat, j: nat)
    requires FaithfulListing(plan.env) && i < j < |BodyOrder(plan, n)|
    ensures var order := BodyOrder(plan, n);
            forall e :: e in plan.net.edges ==> !(e.source == order[j] && e.target == order[i])
  {
    var sub, order := BodyNet(plan, n), BodyOrder(plan, n);
    assert forall x :: x in sub.ids <==> x in Elements(sub.ids);
    OrderScheduled(sub);
    RemoveFirstKeepsOrder(Order(sub), n, i, j);
    var k: nat, m: nat :| k < m < |Order(sub)| && Order(sub)[k] == order[i] && Order(sub)[m] == order[j];
    IndexUnique(Order(sub), k);
    IndexUnique(Order(sub), m);
    forall e | e in plan.net.edges && e.source == order[j] && e.target == order[i]
      ensures false
    {
      BodyOrderIs(plan, n, order[i]);
      BodyOrderIs(plan, n, order[j]);
      BodyArcs(plan, n, order[j], order[i]);
      ArcReaches(sub, order[j], order[i]);
      UpstreamIsEarlier(sub, Order(sub), order[j], order[i]);
    }
  }

  // ----- a pass -----

  // What body node `b` is given when it finds `c`: what the first edge has whose source has
  // something; without any its own entry, or else the item.
  ghost predicate Fed(plan: Plan, b: Id, item: Json, c: Context, inp: Json) {
    && (forall i: nat :: FirstAnswered(plan.net.edges, i, b, c) ==> inp == c[plan.net.edges[i].source])
    && (NoneAnswered(plan.net.edges, b, c) ==> inp == if b in c then c[b] else item)
  }

  // What its handler answers, or the message of the failure.
  ghost predicate Yields(o: Outcome, v: Json) {
    match o
    case Ok(answer, _) => v == answer
    case Err(_, msg, _) => v == Obj(map["__error" := Str(msg)])
  }

  // Its handler runs once on what it finds; what it writes is kept, and what it yields.
  ghost predicate Steps(plan: Plan, b: Id, item: Json, c: Context, next: Context) {
    if b !in plan.nodes then next == c
    else
      exists inp, v :: var o := plan.env.body(plan.nodes[b], inp, c);
        Fed(plan, b, item, c, inp) && Yields(o, v) && next == (c + o.writes)[b := v]
  }

  // A pass begins with the item under `item` and the loop's id; the rest is what the loop found.
  ghost predicate Begins(n: Id, item: Json, ctx: Context, c: Context) {
    forall y ::
      if y == n || y == "item" then y in c && c[y] == item
      else (y in c <==> y in ctx) && (y in c ==> c[y] == ctx[y])
  }

  // A whole pass over the body `order`: what each node finds, and in the end what is left.
  ghost predicate Passes(plan: Plan, n: Id, item: Json, ctx: Context, order: seq<Id>, found: seq<Context>) {
    && |found| == |order| + 1 && Begins(n, item, ctx, found[0])
    && forall j :: 0 <= j < |order| ==> Steps(plan, order[j], item, found[j], found[j + 1])
  }

  lemma StepIs(plan: Plan, b: Id, item: Json, c: Context)
    ensures Steps(plan, b, item, c, BodyStep(plan, item, c, b))
  {
    if b in plan.nodes {
      var inp := BodyInput(plan, item, c, b);
      SeedIs(plan.net.edges, b, c);
      var o := plan.env.body(plan.nodes[b], inp, c);
      assert Fed(plan, b, item, c, inp) && Yields(o, BodyValue(o));
    }
  }

  lemma {:induction false} PassIs(plan: Plan, n: Id, item: Json, ctx: Context, order: seq<Id>)
    returns (found: seq<Context>)
    ensures Passes(plan, n, item, ctx, order, found)
    ensures found[|order|] == BodyRun(plan, item, ItemContext(n, item, ctx), order)
  {
    if |order| == 0 {
      found := [ItemContext(n, item, ctx)];
    } else {
      var front, b := order[..|order| - 1], order[|order| - 1];
      var before := PassIs(plan, n, item, ctx, front);
      StepIs(plan, b, item, before[|front|]);
      found := before + [BodyStep(plan, item, before[|front|], b)];
      forall j | 0 <= j < |order|
        ensures Steps(plan, order[j], item, found[j], found[j + 1])
      {
        if j < |front| {
          assert Steps(plan, front[j], item, before[j], before[j + 1]);
        }
      }
    }
  }

  // In the middle of a pass that has run `ran`, the item is still in sight, and so is what the
  // loop found. Of `vars`, which body handlers write, nothing is said.
  ghost predicate InSight(n: Id, item: Json, ctx: Context, c: Context, ran: set<Id>, vars: set<Id>) {
    forall y :: y !in ran + vars ==>
      if y == n || y == "item" then y in c && c[y] == item
      else (y in c <==> y in ctx) && (y in c ==> c[y] == ctx[y])
  }

  ghost predicate BodyWritesOnly(plan: Plan, vars: set<Id>) {
    forall b, inp, c :: b in plan.nodes ==> plan.env.body(plan.nodes[b], inp, c).writes.Keys <= vars
  }

  // Every body node sees its item, as long as no body handler hides it.
  lemma {:induction false} ItemStaysInSight(
    plan: Plan, n: Id, item: Json, ctx: Context, order: seq<Id>, found: seq<Context>, j: nat, vars: set<Id>)
    requires BodyWritesOnly(plan, vars) && Passes(plan, n, item, ctx, order, found) && j <= |order|
    ensures InSight(n, item, ctx, found[j], Elements(order[..j]), vars)
  {
    if j == 0 {
    } else {
      var b, c := order[j - 1], found[j - 1];
      ItemStaysInSight(plan, n, item, ctx, order, found, j - 1, vars);
      assert Steps(plan, b, item, c, found[j - 1 + 1]);
      assert order[..j] == order[..j - 1] + [b];
      assert forall y :: y in Elements(order[..j]) <==> y in Elements(order[..j - 1]) || y == b;
      if b in plan.nodes {
        var inp, v :| var o := plan.env.body(plan.nodes[b], inp, c);
          Fed(plan, b, item, c, inp) && Yields(o, v) && found[j] == (c + o.writes)[b := v];
        assert plan.env.body(plan.nodes[b], inp, c).writes.Keys <= vars;
      }
    }
  }

  // What a pass yields: the item without a target, else what the pass leaves for the first one.
  ghost predicate PassYields(net: Net, n: Id, item: Json, final: Context, r: Json) {
    && ((forall j: nat :: !BodyEdge(net, j, n)) ==> r == item)
    && forall i: nat :: FirstBodyEdge(net, i, n) ==>
         r == var target := net.edges[i].target; if target in final then final[target] else Null
  }

  // Every entry of an expanded loop is what a pass over the body yields for its item.
  lemma EntryIsPass(plan: Plan, n: Id, ctx: Context, items: seq<Json>, k: nat) returns (found: seq<Context>)
    requires k < |items|
    ensures |LoopResults(plan, n, ctx, items)| == |items|
    ensures Passes(plan, n, items[k], ctx, BodyOrder(plan, n), found)
    ensures PassYields(plan.net, n, items[k], found[|found| - 1], LoopResults(plan, n, ctx, items)[k])
  {
    found := PassIs(plan, n, items[k], ctx, BodyOrder(plan, n));
    LoopResultAt(plan, n, ctx, items, k);
    FirstTargetIs(plan.net, n);
  }

  // A loop whose body is one node, fed by the loop alone and by nothing the loop found: every
  // pass calls its handler once, on the item, with the item under `item` and the loop's id.
  lemma SingleBody(plan: Plan, n: Id, b: Id, ctx: Context, items: seq<Json>, k: nat)
    requires FaithfulListing(plan.env) && BodyOrder(plan, n) == [b] && BodyTargets(Links(plan.net, n)) == [b]
    requires b in plan.nodes && k < |items| && n != "item"
    requires exists e :: e in plan.net.edges && e.target == b && e.source == n
    requires forall e :: e in plan.net.edges && e.target == b ==> e.source == n
    ensures |LoopResults(plan, n, ctx, items)| == |items|
    ensures var item := items[k];
            var r := LoopResults(plan, n, ctx, items)[k];
            match plan.env.body(plan.nodes[b], item, ctx[n := item]["item" := item])
            case Ok(v, _) => r == v
            case Err(_, msg, _) => r == Obj(map["__error" := Str(msg)])
  {
    var item, c := items[k], ctx[n := items[k]]["item" := items[k]];
    LoopResultAt(plan, n, ctx, items, k);
    FedByLoop(plan.net.edges, 0, n, b, c);
    assert BodyRun(plan, item, c, []) == c;
    assert [b][..0] == [];
  }

  lemma {:induction false} FedByLoop(edges: seq<Edge>, k: nat, n: Id, b: Id, c: Context)
    requires k <= |edges| && n in c
    requires exists i :: k <= i < |edges| && edges[i].target == b && edges[i].source == n
    requires forall e :: e in edges && e.target == b ==> e.source == n
    ensures FirstAvailable(edges, k, b, c) == Some(c[n])
    decreases |edges| - k
  {
    if edges[k].target != b {
      FedByLoop(edges, k + 1, n, b, c);
    } else {
      assert edges[k] in edges;
    }
  }

  // ----- lists -----

  // What an answer asks a loop to go through.
  ghost predicate Lists(env: Env, result: Json, items: seq<Json>) {
    result.Obj? &&
    if "items" !in result.fields then items == []
    else
      match result.fields["items"]
      case Arr(xs) => items == xs
      case Str(text) => |items| == |text| && forall i :: 0 <= i < |items| ==> items[i] == Str([text[i]])
      case Obj(fields) =>
        var keys := env.runtime.listing(fields.Keys);
        |items| == |keys| && forall i :: 0 <= i < |items| ==> items[i] == Str(keys[i])
      case _ => false
  }

  lemma ListsOne(env: Env, result: Json, items: seq<Json>)
    requires Lists(env, result, items)
    ensures LoopItems(env, result) == Some(items)
  {
    var listed := LoopItems(env, result).value;
    assert |listed| == |items| && forall i :: 0 <= i < |items| ==> listed[i] == items[i];
    assert listed == items;
  }

  // The expansion of an answer: one entry for each thing it lists, and their number. Nothing
  // comes of `items` that are null, a truth value or a number.
  lemma ExpansionIs(plan: Plan, n: Id, result: Json, ctx: Context, items: seq<Json>)
    ensures Lists(plan.env, result, items) ==>
              var entries := LoopResults(plan, n, ctx, items);
              && |entries| == |items|
              && Expanded(plan, n, result, ctx)
                 == Some(Obj(map["loop_results" := Arr(entries), "count" := Num(|items|)]))
    ensures result.Obj? && "items" in result.fields
            && (result.fields["items"].Null? || result.fields["items"].Bool? || result.fields["items"].Num?) ==>
              Expanded(plan, n, result, ctx).None?
  {
    if Lists(plan.env, result, items) {
      ListsOne(plan.env, result, items);
      LoopResultsLength(plan, n, ctx, items);
    }
  }

  // What a loop node goes through: the list under its field, or the one it is given; anything
  // else counts as a list of one.
  lemma LoopTakes(field: string, maxItems: int, inp: Json, list: Json)
    requires inp.Obj? && field != "" && field in inp.fields ==> list == inp.fields[field]
    requires !inp.Obj? || field == "" || field !in inp.fields ==> list == inp
    ensures var items := if list.Arr? then list.items else [list];
            var kept := items[..Kept(|items|, maxItems)];
            LoopNode(field, maxItems, inp)
              == Obj(map["items" := Arr(kept), "count" := Num(|kept|), "__loop__" := Bool(true)])
  {
    var items := if list.Arr? then list.items else [list];
    assert LoopInput(field, inp) == items;
    assert SliceTo(items, maxItems) == items[..Kept(|items|, maxItems)];
  }
}
