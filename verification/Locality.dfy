/** What handlers look at and what they write. Two contexts that agree on what a node looks
    at give the node the same run, and a run changes only the keys its handler writes. */
module Locality {
  import opened Nets
  import opened Kahn
  import opened Values
  import opened NodeExec
  import opened LoopBody

  // The outputs of nodes that do not lead to `n`.
  ghost function Hidden(net: Net, n: Id): set<Id> {
    set x | x in net.ids && !Reaches(net, x, n)
  }

  ghost predicate RunIgnores(env: Env, n: Node, keys: set<Id>, k: nat, inp: Json, c: Context) {
    env.run(n, k, inp, c) == env.run(n, k, inp, c - keys)
  }

  // The handler of `n` does not look at `keys`.
  ghost predicate Ignores(env: Env, n: Node, keys: set<Id>) {
    forall k, inp, c :: RunIgnores(env, n, keys, k, inp, c)
  }

  ghost predicate BodyRunIgnores(env: Env, n: Node, keys: set<Id>, inp: Json, c: Context) {
    env.body(n, inp, c) == env.body(n, inp, c - keys)
  }

  ghost predicate BodyIgnores(env: Env, n: Node, keys: set<Id>) {
    forall inp, c :: BodyRunIgnores(env, n, keys, inp, c)
  }

  // The only context keys the handler of `n` writes are `keys`.
  ghost predicate WritesOnly(env: Env, n: Node, keys: set<Id>) {
    forall k, inp, c :: env.run(n, k, inp, c).writes.Keys <= keys
  }

  ghost predicate HandlersWriteOnly(plan: Plan, keys: set<Id>) {
    forall i :: i in plan.nodes ==> WritesOnly(plan.env, plan.nodes[i], keys)
  }

  // Iterating a set lists each element once.
  ghost predicate FaithfulListing(env: Env) {
    forall s :: Distinct(env.runtime.listing(s)) && Elements(env.runtime.listing(s)) == s
  }

  // Node ids are distinct and none is the reserved payload key.
  ghost predicate WellFormed(plan: Plan) {
    && Distinct(plan.net.ids) && PAYLOAD_KEY !in plan.net.ids
    && plan.nodes.Keys == Elements(plan.net.ids)
    && (forall i :: i in plan.nodes ==> plan.nodes[i].id == i)
    && FaithfulListing(plan.env)
  }

  // Two runs of a node that a runner cannot tell apart.
  ghost predicate SameRun(e1: Executed, e2: Executed) {
    if e1.Raised? then e2.Raised?
    else e2.Executed? && e1.(ctx := e2.ctx) == e2
  }

  lemma AgreeWider(c1: Context, c2: Context, a: set<Id>, b: set<Id>)
    requires c1 - a == c2 - a && a <= b
    ensures c1 - b == c2 - b
  {
    forall x | x !in b
      ensures x in c1 <==> x in c2
      ensures x in c1 ==> c1[x] == c2[x]
    {
      AgreeAt(c1, c2, a, x);
    }
  }

  lemma AgreeAt(c1: Context, c2: Context, a: set<Id>, x: Id)
    requires c1 - a == c2 - a && x !in a
    ensures x in c1 <==> x in c2
    ensures x in c1 ==> c1[x] == c2[x]
  {
    assert x in c1 <==> x in c1 - a;
    assert x in c2 <==> x in c2 - a;
    if x in c1 {
      assert c1[x] == (c1 - a)[x] && c2[x] == (c2 - a)[x];
    }
  }

  lemma AgreeUnion(c1: Context, c2: Context, apart: set<Id>, w: Context)
    requires c1 - apart == c2 - apart
    ensures (c1 + w) - apart == (c2 + w) - apart
  {
    var d1, d2 := (c1 + w) - apart, (c2 + w) - apart;
    forall x | x !in apart
      ensures x in d1 <==> x in d2
      ensures x in d1 ==> d1[x] == d2[x]
    {
      AgreeAt(c1, c2, apart, x);
    }
    assert d1.Keys == d2.Keys;
  }

  // ----- one node -----

  // The context keys the input of `n` may come from.
  ghost function Inputs(net: Net, n: Id): set<Id> {
    {PAYLOAD_KEY} + set e | e in net.edges && e.target == n :: e.source
  }

  lemma InputsVisible(net: Net, n: Id)
    requires n in net.ids && PAYLOAD_KEY !in net.ids
    ensures Inputs(net, n) !! Hidden(net, n)
  {
    forall e | e in net.edges && e.target == n && e.source in net.ids
      ensures Reaches(net, e.source, n)
    {
      assert Arc(net, e.source, n);
      ArcReaches(net, e.source, n);
    }
  }

  lemma ExecInputLocal(net: Net, n: Id, c1: Context, c2: Context, apart: set<Id>)
    requires apart !! Inputs(net, n) && c1 - apart == c2 - apart
    ensures ExecInput(net.edges, n, c1) == ExecInput(net.edges, n, c2)
  {
    var first := FirstInto(net.edges, 0, n);
    if first.Some? {
      FirstIntoMember(net.edges, 0, n);
      assert first.value.source in Inputs(net, n);
      AgreeAt(c1, c2, apart, first.value.source);
    } else {
      AgreeAt(c1, c2, apart, PAYLOAD_KEY);
    }
  }

  // The same attempts, in contexts that differ at most in `apart`.
  ghost predicate SameAttempts(a1: Option<Attempted>, a2: Option<Attempted>, apart: set<Id>) {
    && (a1.Some? <==> a2.Some?)
    && (a1.Some? ==> a1.value.(ctx := a2.value.ctx) == a2.value && a1.value.ctx - apart == a2.value.ctx - apart)
  }

  lemma {:induction false} AttemptsLocal(
    env: Env, n: Node, inp: Json, c1: Context, c2: Context, k: nat, apart: set<Id>, blind: set<Id>)
    requires Ignores(env, n, blind) && apart <= blind && c1 - apart == c2 - apart
    ensures SameAttempts(Attempts(env, n, inp, c1, k), Attempts(env, n, inp, c2, k), apart)
    decreases if k <= LastAttempt(env, n) then LastAttempt(env, n) - k + 1 else 0
  {
    if k > LastAttempt(env, n) {
    } else {
      AgreeWider(c1, c2, apart, blind);
      assert RunIgnores(env, n, blind, k, inp, c1) && RunIgnores(env, n, blind, k, inp, c2);
      var o := env.run(n, k, inp, c1);
      assert o == env.run(n, k, inp, c2);
      AgreeUnion(c1, c2, apart, o.writes);
      AttemptsLocal(env, n, inp, c1 + o.writes, c2 + o.writes, k + 1, apart, blind);
    }
  }

  // A node's run depends on the context only through its input and what its handler looks at;
  // it leaves contexts that agreed elsewhere still in agreement.
  lemma ExecLocal(plan: Plan, n: Node, c1: Context, c2: Context, apart: set<Id>, blind: set<Id>)
    requires Ignores(plan.env, n, blind) && apart <= blind && apart !! Inputs(plan.net, n.id)
    requires c1 - apart == c2 - apart
    ensures var e1, e2 := Exec(plan, n, c1), Exec(plan, n, c2);
            SameRun(e1, e2) && (e1.Executed? ==> e1.ctx - apart == e2.ctx - apart)
  {
    ExecInputLocal(plan.net, n.id, c1, c2, apart);
    AttemptsLocal(plan.env, n, ExecInput(plan.net.edges, n.id, c1), c1, c2, 0, apart, blind);
  }

  lemma {:induction false} AttemptsWrite(env: Env, n: Node, inp: Json, c: Context, k: nat, keys: set<Id>)
    requires WritesOnly(env, n, keys)
    ensures var last := Attempts(env, n, inp, c, k); last.Some? ==> last.value.ctx - keys == c - keys
    decreases if k <= LastAttempt(env, n) then LastAttempt(env, n) - k + 1 else 0
  {
    if k > LastAttempt(env, n) {
    } else {
      var o := env.run(n, k, inp, c);
      assert o.writes.Keys <= keys;
      assert (c + o.writes) - keys == c - keys;
      AttemptsWrite(env, n, inp, c + o.writes, k + 1, keys);
    }
  }

  // What a node's run leaves of the context it found.
  lemma ExecWrites(plan: Plan, n: Node, c: Context, keys: set<Id>)
    requires WritesOnly(plan.env, n, keys)
    ensures var e := Exec(plan, n, c); e.Executed? ==> e.ctx - keys == c - keys
  {
    AttemptsWrite(plan.env, n, ExecInput(plan.net.edges, n.id, c), c, 0, keys);
  }

  // ----- loops -----

  lemma {:induction false} FirstAvailableLocal(net: Net, k: nat, b: Id, c1: Context, c2: Context, apart: set<Id>)
    requires k <= |net.edges| && apart !! Inputs(net, b) && c1 - apart == c2 - apart
    ensures FirstAvailable(net.edges, k, b, c1) == FirstAvailable(net.edges, k, b, c2)
    decreases |net.edges| - k
  {
    if k == |net.edges| {
    } else {
      var e := net.edges[k];
      if e.target == b {
        assert e.source in Inputs(net, b);
        AgreeAt(c1, c2, apart, e.source);
      }
      FirstAvailableLocal(net, k + 1, b, c1, c2, apart);
    }
  }

  // Body node `b` neither takes its input from `apart` nor looks there.
  ghost predicate Unseen(plan: Plan, b: Id, apart: set<Id>) {
    apart !! Inputs(plan.net, b) && (b in plan.nodes ==> BodyIgnores(plan.env, plan.nodes[b], apart))
  }

  // `apart` is out of sight of every body node of `n`.
  ghost predicate OutOfSight(plan: Plan, n: Id, apart: set<Id>) {
    forall b :: b in BodySet(plan.net, n) ==> b !in apart && Unseen(plan, b, apart)
  }

  lemma BodyStepLocal(plan: Plan, item: Json, c1: Context, c2: Context, b: Id, apart: set<Id>)
    requires b !in apart && Unseen(plan, b, apart) && c1 - apart == c2 - apart
    ensures BodyStep(plan, item, c1, b) - apart == BodyStep(plan, item, c2, b) - apart
  {
    if b in plan.nodes {
      var n := plan.nodes[b];
      FirstAvailableLocal(plan.net, 0, b, c1, c2, apart);
      AgreeAt(c1, c2, apart, b);
      var inp := BodyInput(plan, item, c1, b);
      assert inp == BodyInput(plan, item, c2, b);
      assert BodyRunIgnores(plan.env, n, apart, inp, c1) && BodyRunIgnores(plan.env, n, apart, inp, c2);
      var o := plan.env.body(n, inp, c1);
      assert o == plan.env.body(n, inp, c2);
      AgreeUnion(c1, c2, apart, o.writes);
      AgreeUpdate(c1 + o.writes, c2 + o.writes, apart, b, BodyValue(o));
    }
  }

  lemma AgreeUpdate(c1: Context, c2: Context, apart: set<Id>, x: Id, v: Json)
    requires c1 - apart == c2 - apart
    ensures c1[x := v] - apart == c2[x := v] - apart
  {
    var d1, d2 := c1[x := v] - apart, c2[x := v] - apart;
    forall y | y !in apart
      ensures y in d1 <==> y in d2
      ensures y in d1 ==> d1[y] == d2[y]
    {
      AgreeAt(c1, c2, apart, y);
    }
    assert d1.Keys == d2.Keys;
  }

  lemma {:induction false} BodyRunLocal(
    plan: Plan, item: Json, c1: Context, c2: Context, order: seq<Id>, apart: set<Id>)
    requires forall b :: b in order ==> b !in apart && Unseen(plan, b, apart)
    requires c1 - apart == c2 - apart
    ensures BodyRun(plan, item, c1, order) - apart == BodyRun(plan, item, c2, order) - apart
  {
    if |order| == 0 {
    } else {
      var rest := order[..|order| - 1];
      BodyRunLocal(plan, item, c1, c2, rest, apart);
      var b := order[|order| - 1];
      BodyStepLocal(plan, item, BodyRun(plan, item, c1, rest), BodyRun(plan, item, c2, rest), b, apart);
    }
  }

  lemma {:induction false} RemoveFirstMember(s: seq<Id>, x: Id)
    ensures forall y :: y in RemoveFirst(s, x) ==> y in s
  {
    if |s| == 0 || s[0] == x {
    } else {
      RemoveFirstMember(s[1..], x);
    }
  }

  lemma BodyOrderInBody(plan: Plan, n: Id)
    requires FaithfulListing(plan.env)
    ensures forall b :: b in BodyOrder(plan, n) ==> b in BodySet(plan.net, n)
  {
    var body := BodySet(plan.net, n);
    var sub := Net(plan.env.runtime.listing(body), EdgesWithin(plan.net.edges, body));
    RemoveFirstMember(Order(sub), n);
    OrderScheduled(sub);
    forall b | b in BodyOrder(plan, n)
      ensures b in body
    {
      assert ScheduledIff(sub, Order(sub), b);
      assert b in Elements(sub.ids);
    }
  }

  lemma {:induction false} TargetsInBody(net: Net, targets: seq<Id>)
    ensures forall t :: t in targets ==> t in BodyOf(net, targets)
  {
    if |targets| == 0 {
    } else {
      TargetsInBody(net, targets[..|targets| - 1]);
    }
  }

  lemma {:induction false} LoopResultsLocal(
    plan: Plan, n: Id, c1: Context, c2: Context, items: seq<Json>, apart: set<Id>)
    requires FaithfulListing(plan.env) && OutOfSight(plan, n, apart)
    requires c1 - apart == c2 - apart
    ensures LoopResults(plan, n, c1, items) == LoopResults(plan, n, c2, items)
  {
    if |items| == 0 {
    } else {
      var item := items[|items| - 1];
      LoopResultsLocal(plan, n, c1, c2, items[..|items| - 1], apart);
      var targets, order := BodyTargets(Links(plan.net, n)), BodyOrder(plan, n);
      AgreeUpdate(c1, c2, apart, n, item);
      AgreeUpdate(c1[n := item], c2[n := item], apart, "item", item);
      var i1, i2 := ItemContext(n, item, c1), ItemContext(n, item, c2);
      BodyOrderInBody(plan, n);
      BodyRunLocal(plan, item, i1, i2, order, apart);
      if |targets| > 0 {
        TargetsInBody(plan.net, targets);
        AgreeAt(BodyRun(plan, item, i1, order), BodyRun(plan, item, i2, order), apart, targets[0]);
      }
    }
  }

  // The same for the expansion of a loop.
  lemma ExpandedLocal(plan: Plan, n: Id, result: Json, c1: Context, c2: Context, apart: set<Id>)
    requires FaithfulListing(plan.env) && OutOfSight(plan, n, apart)
    requires c1 - apart == c2 - apart
    ensures Expanded(plan, n, result, c1) == Expanded(plan, n, result, c2)
  {
    var items := LoopItems(plan.env, result);
    if items.Some? {
      LoopResultsLocal(plan, n, c1, c2, items.value, apart);
    }
  }
}
