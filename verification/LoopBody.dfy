/** `action.loop` and `_expand_loop`: a loop node caps its list, then its body (the targets
    of its `body` handle and their direct successors) runs once per item, each time in a
    fresh copy of the outer context. */
module LoopBody {
  import opened Nets
  import opened Kahn
  import opened Values
  import opened NodeExec

  // ----- the loop node -----

  // `items[:m]` of Python, where a negative bound counts from the end.
  function SliceTo<T>(s: seq<T>, m: int): seq<T> {
    if m >= |s| then s
    else if m >= 0 then s[..m]
    else if |s| + m > 0 then s[..|s| + m]
    else []
  }

  function LoopInput(field: string, inp: Json): seq<Json> {
    var chosen := if |field| > 0 && inp.Obj? && field in inp.fields then inp.fields[field] else inp;
    if chosen.Arr? then chosen.items else [chosen]
  }

  function LoopNode(field: string, maxItems: int, inp: Json): Json {
    var items := SliceTo(LoopInput(field, inp), maxItems);
    Obj(map["items" := Arr(items), "count" := Num(|items|), "__loop__" := Bool(true)])
  }

  // ----- the body -----

  function BodyTargets(links: seq<Link>): seq<Id> {
    if |links| == 0 then []
    else
      var l := links[|links| - 1];
      BodyTargets(links[..|links| - 1]) + if l.handle == Some("body") then [l.target] else []
  }

  function TargetsOf(links: seq<Link>): set<Id> {
    set l | l in links :: l.target
  }

  // The targets and their direct successors, and no further.
  function BodyOf(net: Net, targets: seq<Id>): set<Id> {
    if |targets| == 0 then {}
    else
      var t := targets[|targets| - 1];
      BodyOf(net, targets[..|targets| - 1]) + {t} + TargetsOf(Links(net, t))
  }

  function BodySet(net: Net, n: Id): set<Id> {
    BodyOf(net, BodyTargets(Links(net, n)))
  }

  function EdgesWithin(edges: seq<Edge>, subset: set<Id>): seq<Edge> {
    if |edges| == 0 then []
    else
      var e := edges[|edges| - 1];
      EdgesWithin(edges[..|edges| - 1], subset) + if e.source in subset && e.target in subset then [e] else []
  }

  function RemoveFirst(s: seq<Id>, x: Id): seq<Id> {
    if |s| == 0 then [] else if s[0] == x then s[1..] else [s[0]] + RemoveFirst(s[1..], x)
  }

  // `_subgraph_order`: Kahn's algorithm on the body, listed in set-iteration order.
  function BodyOrder(plan: Plan, n: Id): seq<Id> {
    var body := BodySet(plan.net, n);
    RemoveFirst(Order(Net(plan.env.runtime.listing(body), EdgesWithin(plan.net.edges, body))), n)
  }

  function BodyInput(plan: Plan, item: Json, lc: Context, b: Id): Json {
    match FirstAvailable(plan.net.edges, 0, b, lc)
    case Some(v) => v
    case None => if b in lc then lc[b] else item
  }

  function BodyValue(o: Outcome): Json {
    match o
    case Ok(v, _) => v
    case Err(_, msg, _) => Obj(map["__error" := Str(msg)])
  }

  // One body node in the context of one item.
  function BodyStep(plan: Plan, item: Json, lc: Context, b: Id): Context {
    if b !in plan.nodes then lc
    else
      var o := plan.env.body(plan.nodes[b], BodyInput(plan, item, lc, b), lc);
      (lc + o.writes)[b := BodyValue(o)]
  }

  function BodyRun(plan: Plan, item: Json, lc: Context, order: seq<Id>): Context {
    if |order| == 0 then lc
    else BodyStep(plan, item, BodyRun(plan, item, lc, order[..|order| - 1]), order[|order| - 1])
  }

  function ItemContext(n: Id, item: Json, ctx: Context): Context {
    ctx[n := item]["item" := item]
  }

  // What one item contributes: the output of the first body target.
  function ItemResult(plan: Plan, n: Id, ctx: Context, item: Json): Json {
    var targets := BodyTargets(Links(plan.net, n));
    var lc := BodyRun(plan, item, ItemContext(n, item, ctx), BodyOrder(plan, n));
    if |targets| == 0 then item else if targets[0] in lc then lc[targets[0]] else Null
  }

  function LoopResults(plan: Plan, n: Id, ctx: Context, items: seq<Json>): seq<Json> {
    if |items| == 0 then []
    else LoopResults(plan, n, ctx, items[..|items| - 1]) + [ItemResult(plan, n, ctx, items[|items| - 1])]
  }

  function Characters(text: string): (items: seq<Json>)
    ensures |items| == |text|
  {
    seq(|text|, (k: nat) requires k < |text| => Str([text[k]]))
  }

  function KeyItems(keys: seq<string>): (items: seq<Json>)
    ensures |items| == |keys|
  {
    seq(|keys|, (k: nat) requires k < |keys| => Str(keys[k]))
  }

  // What a `for` loop over a value goes through: the elements of a list, the characters of a
  // string, the keys of an object. Nothing else can be iterated.
  function Iterated(env: Env, v: Json): Option<seq<Json>> {
    match v
    case Arr(items) => Some(items)
    case Str(text) => Some(Characters(text))
    case Obj(fields) => Some(KeyItems(env.runtime.listing(fields.Keys)))
    case _ => None
  }

  function LoopItems(env: Env, result: Json): Option<seq<Json>> {
    if result.Obj? && "items" in result.fields then Iterated(env, result.fields["items"]) else Some([])
  }

  function LoopOutput(results: seq<Json>): Json {
    Obj(map["loop_results" := Arr(results), "count" := Num(|results|)])
  }

  // `_expand_loop`, or none when the items cannot be iterated.
  function Expanded(plan: Plan, n: Id, result: Json, ctx: Context): Option<Json> {
    match LoopItems(plan.env, result)
    case Some(items) => Some(LoopOutput(LoopResults(plan, n, ctx, items)))
    case None => None
  }

  // ----- the loops of _expand_loop -----

  method CollectBody(net: Net, targets: seq<Id>, succ: map<Id, seq<Link>>) returns (body: set<Id>)
    requires succ == SuccMap(net)
    requires forall t :: t in targets ==> t in net.ids
    ensures body == BodyOf(net, targets)
  {
    body := {};
    for k := 0 to |targets|
      invariant body == BodyOf(net, targets[..k])
    {
      assert targets[..k + 1][..k] == targets[..k];
      body := body + {targets[k]} + TargetsOf(succ[targets[k]]);
    }
    assert targets[..|targets|] == targets;
  }

  method SubgraphOrder(plan: Plan, n: Id, body: set<Id>) returns (order: seq<Id>)
    requires body == BodySet(plan.net, n)
    ensures order == BodyOrder(plan, n)
  {
    var full, _ := Topo(Net(plan.env.runtime.listing(body), EdgesWithin(plan.net.edges, body)));
    order := RemoveFirst(full, n);
  }

  method RunBody(plan: Plan, item: Json, lc0: Context, order: seq<Id>) returns (lc: Context)
    ensures lc == BodyRun(plan, item, lc0, order)
  {
    lc := lc0;
    for k := 0 to |order|
      invariant lc == BodyRun(plan, item, lc0, order[..k])
    {
      assert order[..k + 1][..k] == order[..k];
      var b := order[k];
      if b in plan.nodes {
        var inp := if b in lc then lc[b] else item;
        var upstream := FindAvailable(plan.net.edges, b, lc);
        if upstream.Some? {
          inp := upstream.value;
        }
        var o := plan.env.body(plan.nodes[b], inp, lc);
        lc := lc + o.writes;
        lc := lc[b := BodyValue(o)];
      }
    }
    assert order[..|order|] == order;
  }

  lemma {:induction false} BodyTargetsAreLinked(links: seq<Link>)
    ensures forall t :: t in BodyTargets(links) ==> exists l :: l in links && l.target == t && l.handle == Some("body")
  {
    if |links| == 0 {
    } else {
      BodyTargetsAreLinked(links[..|links| - 1]);
      assert links[|links| - 1] in links;
    }
  }

  lemma BodyTargetsInNet(net: Net, n: Id)
    ensures forall t :: t in BodyTargets(Links(net, n)) ==> Arc(net, n, t) && t in net.ids
  {
    BodyTargetsAreLinked(Links(net, n));
    forall t | t in BodyTargets(Links(net, n))
      ensures Arc(net, n, t) && t in net.ids
    {
      var l :| l in Links(net, n) && l.target == t && l.handle == Some("body");
      LinkIsArc(net, n, l);
    }
  }

  method RunItem(plan: Plan, n: Id, body: set<Id>, targets: seq<Id>, ctx: Context, item: Json) returns (r: Json)
    requires body == BodySet(plan.net, n) && targets == BodyTargets(Links(plan.net, n))
    ensures r == ItemResult(plan, n, ctx, item)
  {
    var order := SubgraphOrder(plan, n, body);
    var lc := RunBody(plan, item, ItemContext(n, item, ctx), order);
    r := if |targets| == 0 then item else if targets[0] in lc then lc[targets[0]] else Null;
  }

  method RunItems(plan: Plan, n: Id, body: set<Id>, targets: seq<Id>, ctx: Context, items: seq<Json>)
    returns (results: seq<Json>)
    requires body == BodySet(plan.net, n) && targets == BodyTargets(Links(plan.net, n))
    ensures results == LoopResults(plan, n, ctx, items)
  {
    results := [];
    for k := 0 to |items|
      invariant results == LoopResults(plan, n, ctx, items[..k])
    {
      assert items[..k + 1][..k] == items[..k];
      var r := RunItem(plan, n, body, targets, ctx, items[k]);
      results := results + [r];
    }
    assert items[..|items|] == items;
  }

  method ExpandLoop(plan: Plan, succ: map<Id, seq<Link>>, n: Id, result: Json, ctx: Context) returns (out: Option<Json>)
    requires succ == SuccMap(plan.net) && n in plan.net.ids
    ensures out == Expanded(plan, n, result, ctx)
  {
    var targets := BodyTargets(succ[n]);
    BodyTargetsInNet(plan.net, n);
    var body := CollectBody(plan.net, targets, succ);
    var items := LoopItems(plan.env, result);
    if items.None? {
      return None;
    }
    var results := RunItems(plan, n, body, targets, ctx, items.value);
    return Some(LoopOutput(results));
  }

  // ----- what a loop yields -----

  lemma LoopResultsSnoc(plan: Plan, n: Id, ctx: Context, front: seq<Json>, item: Json)
    ensures LoopResults(plan, n, ctx, front + [item]) ==
        LoopResults(plan, n, ctx, front) + [ItemResult(plan, n, ctx, item)]
  {
    assert (front + [item])[..|front|] == front;
  }

  lemma {:induction false} LoopResultsLength(plan: Plan, n: Id, ctx: Context, items: seq<Json>)
    ensures |LoopResults(plan, n, ctx, items)| == |items|
  {
    if |items| == 0 {
    } else {
      LoopResultsLength(plan, n, ctx, items[..|items| - 1]);
    }
  }

  // Entry `k` is what item `k` alone yields.
  lemma LoopResultAt(plan: Plan, n: Id, ctx: Context, items: seq<Json>, k: nat)
    requires k < |items|
    ensures |LoopResults(plan, n, ctx, items)| == |items|
    ensures LoopResults(plan, n, ctx, items)[k] == ItemResult(plan, n, ctx, items[k])
  {
    var before, item, after := items[..k], items[k], items[k + 1..];
    assert items == (before + [item]) + after;
    LoopIsHomomorphism(plan, n, ctx, before + [item], after);
    LoopResultsSnoc(plan, n, ctx, before, item);
    LoopResultsLength(plan, n, ctx, before);
    LoopResultsLength(plan, n, ctx, after);
  }

  // No item sees what another item did: expansion is a homomorphism of lists, whatever
  // the body handlers write into their own copy of the context.
  lemma {:induction false} LoopIsHomomorphism(plan: Plan, n: Id, ctx: Context, xs: seq<Json>, ys: seq<Json>)
    ensures LoopResults(plan, n, ctx, xs + ys) == LoopResults(plan, n, ctx, xs) + LoopResults(plan, n, ctx, ys)
  {
    if |ys| == 0 {
      assert xs + ys == xs;
    } else {
      var front, last := ys[..|ys| - 1], ItemResult(plan, n, ctx, ys[|ys| - 1]);
      assert xs + ys == (xs + front) + [ys[|ys| - 1]];
      LoopResultsSnoc(plan, n, ctx, xs + front, ys[|ys| - 1]);
      LoopIsHomomorphism(plan, n, ctx, xs, front);
      Assoc(LoopResults(plan, n, ctx, xs), LoopResults(plan, n, ctx, front), [last]);
    }
  }

  // How many of `len` items the cap lets through.
  function Kept(len: nat, maxItems: int): nat {
    if maxItems >= len then len
    else if maxItems >= 0 then maxItems
    else if len + maxItems > 0 then len + maxItems
    else 0
  }

  lemma LoopNodeItems(env: Env, field: string, maxItems: int, inp: Json)
    ensures IsLoop(LoopNode(field, maxItems, inp))
    ensures LoopItems(env, LoopNode(field, maxItems, inp)) == Some(SliceTo(LoopInput(field, inp), maxItems))
  {
  }

  // The whole loop, from the list the node was given to the aggregated output: entry k is
  // what item k alone yields, and the cap decides how many entries there are.
  lemma LoopCount(plan: Plan, n: Id, ctx: Context, field: string, maxItems: int, inp: Json) returns (results: seq<Json>)
    ensures Expanded(plan, n, LoopNode(field, maxItems, inp), ctx) == Some(LoopOutput(results))
    ensures |results| == Kept(|LoopInput(field, inp)|, maxItems)
    ensures forall k :: 0 <= k < |results| ==> results[k] == ItemResult(plan, n, ctx, LoopInput(field, inp)[k])
  {
    var items := SliceTo(LoopInput(field, inp), maxItems);
    LoopResultsLength(plan, n, ctx, items);
    LoopNodeItems(plan.env, field, maxItems, inp);
    results := LoopResults(plan, n, ctx, items);
    forall k | 0 <= k < |results|
      ensures results[k] == ItemResult(plan, n, ctx, LoopInput(field, inp)[k])
    {
      LoopResultAt(plan, n, ctx, items, k);
      assert items[k] == LoopInput(field, inp)[k];
    }
  }
}
