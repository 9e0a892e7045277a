/** Running one node: input choice, retries, failure modes, the branch a condition leaves
    untaken, and the expansion of a loop body. Handlers are parameters: a handler sees the
    node, the attempt number, its input and the context; it answers or fails, and may write
    context keys. */
module NodeExec {
  import opened Nets
  import opened Kahn
  import opened Values
  import opened Reachability

  datatype Outcome =
    | Ok(value: Json, writes: Context)
    | Err(kind: string, msg: string, writes: Context)

  // What is the Python runtime's business: the order in which it iterates a set, the texts
  // `int` and `float` take for numbers, and the message of an exception a node raises.
  datatype Runtime = Runtime(
    listing: set<Id> -> seq<Id>,
    textAsInt: string -> Option<int>,
    textIsFloat: string -> bool,
    crashText: Node -> string)

  // `run` is one attempt of a scheduled node, the wait before it included, and `body` the
  // dispatch of a loop body node.
  datatype Env = Env(
    run: (Node, nat, Json, Context) -> Outcome,
    body: (Node, Json, Context) -> Outcome,
    runtime: Runtime)

  datatype Plan = Plan(net: Net, nodes: map<Id, Node>, env: Env)

  datatype Status = Skipped | Succeeded | Errored

  datatype Trace = Trace(node: Id, kind: string, title: string, status: Status, attempts: nat,
                         input: Json, output: Json, error: Option<string>)

  // What a finished node asks of its runner.
  datatype Signal = Plain | Abort(attempts: nat, msg: string) | Expand(result: Json)

  datatype Executed =
    | Executed(ctx: Context, out: Json, trace: Trace, delta: set<Id>, signal: Signal)
    | Raised

  // ----- input -----

  // The first edge into `n` at or after position `k`.
  function FirstInto(edges: seq<Edge>, k: nat, n: Id): Option<Edge>
    requires k <= |edges|
    decreases |edges| - k
  {
    if k == |edges| then None
    else if edges[k].target == n then Some(edges[k])
    else FirstInto(edges, k + 1, n)
  }

  // What the context holds for an edge's source.
  function OutputOf(ctx: Context, source: Id): Json {
    if source in ctx then ctx[source] else EMPTY_OBJECT
  }

  // The input of `_exec_node`: only the first edge into the node counts.
  function ExecInput(edges: seq<Edge>, n: Id, ctx: Context): Json {
    match FirstInto(edges, 0, n)
    case Some(e) => OutputOf(ctx, e.source)
    case None => if PAYLOAD_KEY in ctx then ctx[PAYLOAD_KEY] else EMPTY_OBJECT
  }

  // The first edge of all into `n`.
  ghost predicate FirstEdge(edges: seq<Edge>, i: nat, n: Id) {
    && i < |edges| && edges[i].target == n
    && forall j :: 0 <= j < i ==> edges[j].target != n
  }

  // The last edge of all into `n`: the one connected most recently.
  ghost predicate LastEdge(edges: seq<Edge>, i: nat, n: Id) {
    && i < |edges| && edges[i].target == n
    && forall j :: i < j < |edges| ==> edges[j].target != n
  }

  lemma {:induction false} FirstIntoIs(edges: seq<Edge>, k: nat, i: nat, n: Id)
    requires FirstEdge(edges, i, n) && k <= i
    ensures FirstInto(edges, k, n) == Some(edges[i])
    decreases i - k
  {
    if k < i {
      FirstIntoIs(edges, k + 1, i, n);
    }
  }

  lemma {:induction false} NoneInto(edges: seq<Edge>, k: nat, n: Id)
    requires k <= |edges| && forall e :: e in edges ==> e.target != n
    ensures FirstInto(edges, k, n).None?
    decreases |edges| - k
  {
    if k < |edges| {
      assert edges[k] in edges;
      NoneInto(edges, k + 1, n);
    }
  }

  // Where the input comes from: the source of the first edge in the list, whether it has an
  // output or not; the payload for a node without any edge.
  lemma InputIs(edges: seq<Edge>, n: Id, ctx: Context)
    ensures forall i: nat :: FirstEdge(edges, i, n) ==>
              ExecInput(edges, n, ctx) == if edges[i].source in ctx then ctx[edges[i].source] else Obj(map[])
    ensures (forall e :: e in edges ==> e.target != n) ==>
              ExecInput(edges, n, ctx) ==
                if "__initial_payload__" in ctx then ctx["__initial_payload__"] else Obj(map[])
  {
    forall i: nat | FirstEdge(edges, i, n)
      ensures FirstInto(edges, 0, n) == Some(edges[i])
    {
      FirstIntoIs(edges, 0, i, n);
    }
    if forall e :: e in edges ==> e.target != n {
      NoneInto(edges, 0, n);
    }
  }

  lemma {:induction false} FirstIntoMember(edges: seq<Edge>, k: nat, n: Id)
    requires k <= |edges| && FirstInto(edges, k, n).Some?
    ensures FirstInto(edges, k, n).value in edges && FirstInto(edges, k, n).value.target == n
    decreases |edges| - k
  {
    if edges[k].target == n {
    } else {
      FirstIntoMember(edges, k + 1, n);
    }
  }

  // The input is documented to come from the most recently connected upstream node. It does,
  // whatever the context holds, exactly for nodes whose first and last edge share a source.
  lemma InputIsMostRecentIff(edges: seq<Edge>, n: Id, i: nat, j: nat)
    requires FirstEdge(edges, i, n) && LastEdge(edges, j, n)
    ensures (forall ctx :: ExecInput(edges, n, ctx) == OutputOf(ctx, edges[j].source))
       <==> edges[i].source == edges[j].source
  {
    var first, last := edges[i].source, edges[j].source;
    forall ctx
      ensures ExecInput(edges, n, ctx) == OutputOf(ctx, first)
    {
      InputIs(edges, n, ctx);
    }
    if first != last {
      var ctx := map[first := Null];
      assert ExecInput(edges, n, ctx) == Null != OutputOf(ctx, last);
    }
  }

  // The value of the first edge into `n` whose source already has an output.
  function FirstAvailable(edges: seq<Edge>, k: nat, n: Id, ctx: Context): Option<Json>
    requires k <= |edges|
    decreases |edges| - k
  {
    if k == |edges| then None
    else if edges[k].target == n && edges[k].source in ctx then Some(ctx[edges[k].source])
    else FirstAvailable(edges, k + 1, n, ctx)
  }

  // The first edge into `n` whose source has an output.
  ghost predicate FirstAnswered(edges: seq<Edge>, i: nat, n: Id, ctx: Context) {
    && i < |edges| && edges[i].target == n && edges[i].source in ctx
    && forall j :: 0 <= j < i ==> !(edges[j].target == n && edges[j].source in ctx)
  }

  ghost predicate NoneAnswered(edges: seq<Edge>, n: Id, ctx: Context) {
    forall e :: e in edges && e.target == n ==> e.source !in ctx
  }

  lemma {:induction false} FirstAvailableIs(edges: seq<Edge>, k: nat, i: nat, n: Id, ctx: Context)
    requires FirstAnswered(edges, i, n, ctx) && k <= i
    ensures FirstAvailable(edges, k, n, ctx) == Some(ctx[edges[i].source])
    decreases i - k
  {
    if k < i {
      FirstAvailableIs(edges, k + 1, i, n, ctx);
    }
  }

  lemma {:induction false} NoneAvailable(edges: seq<Edge>, k: nat, n: Id, ctx: Context)
    requires k <= |edges| && NoneAnswered(edges, n, ctx)
    ensures FirstAvailable(edges, k, n, ctx).None?
    decreases |edges| - k
  {
    if k < |edges| {
      assert edges[k] in edges;
      NoneAvailable(edges, k + 1, n, ctx);
    }
  }

  // The seed of a node and the input of a body node: of the first edge that has something.
  lemma SeedIs(edges: seq<Edge>, n: Id, ctx: Context)
    ensures forall i: nat :: FirstAnswered(edges, i, n, ctx) ==>
              FirstAvailable(edges, 0, n, ctx) == Some(ctx[edges[i].source])
    ensures NoneAnswered(edges, n, ctx) ==> FirstAvailable(edges, 0, n, ctx).None?
  {
    forall i: nat | FirstAnswered(edges, i, n, ctx)
      ensures FirstAvailable(edges, 0, n, ctx) == Some(ctx[edges[i].source])
    {
      FirstAvailableIs(edges, 0, i, n, ctx);
    }
    if NoneAnswered(edges, n, ctx) {
      NoneAvailable(edges, 0, n, ctx);
    }
  }

  method FindInput(edges: seq<Edge>, n: Id, ctx: Context) returns (inp: Json)
    ensures inp == ExecInput(edges, n, ctx)
  {
    inp := EMPTY_OBJECT;
    var isRoot := true;
    var k := 0;
    while k < |edges|
      invariant k <= |edges| && isRoot && inp == EMPTY_OBJECT
      invariant FirstInto(edges, 0, n) == FirstInto(edges, k, n)
    {
      var e := edges[k];
      if e.target == n {
        isRoot := false;
        if e.source in ctx {
          inp := ctx[e.source];
        }
        break;
      }
      k := k + 1;
    }
    if isRoot && PAYLOAD_KEY in ctx {
      inp := ctx[PAYLOAD_KEY];
    }
  }

  method FindAvailable(edges: seq<Edge>, n: Id, ctx: Context) returns (inp: Option<Json>)
    ensures inp == FirstAvailable(edges, 0, n, ctx)
  {
    for k := 0 to |edges|
      invariant FirstAvailable(edges, 0, n, ctx) == FirstAvailable(edges, k, n, ctx)
    {
      var e := edges[k];
      if e.target == n && e.source in ctx {
        return Some(ctx[e.source]);
      }
    }
    return None;
  }

  // ----- settings -----

  // `int(v)` and `float(v)` of a stored value.
  function AsInt(env: Env, v: Json): Option<int> {
    match v
    case Num(n) => Some(n)
    case Bool(b) => Some(if b then 1 else 0)
    case Str(text) => env.runtime.textAsInt(text)
    case _ => None
  }

  predicate IsFloat(env: Env, v: Json) {
    v.Num? || v.Bool? || (v.Str? && env.runtime.textIsFloat(v.s))
  }

  predicate SettingsConvert(env: Env, n: Node) {
    AsInt(env, n.retryMax).Some? && IsFloat(env, n.retryDelay)
  }

  // The number of the last attempt; negative when there is none.
  function LastAttempt(env: Env, n: Node): int {
    if AsInt(env, n.retryMax).Some? then AsInt(env, n.retryMax).value else -1
  }

  // Both retry settings are numbers to Python, and they allow an attempt.
  predicate Runs(env: Env, n: Node) {
    SettingsConvert(env, n) && LastAttempt(env, n) >= 0
  }

  function ConversionError(v: Json): string {
    if v.Str? then "ValueError" else "TypeError"
  }

  // The exception of a node that does not run.
  function CrashKind(env: Env, n: Node): string {
    if AsInt(env, n.retryMax).None? then ConversionError(n.retryMax)
    else if !IsFloat(env, n.retryDelay) then ConversionError(n.retryDelay)
    else "UnboundLocalError"
  }

  // ----- attempts -----

  datatype Attempted = Attempted(ctx: Context, attempts: nat, outcome: Outcome)

  // The last pass of the retry loop over the attempts `k`, `k + 1`, ... up to the last: the
  // loop ends with the first answer or with its range, and an empty range has no pass.
  function Attempts(env: Env, n: Node, inp: Json, ctx: Context, k: nat): (last: Option<Attempted>)
    ensures last.Some? <==> k <= LastAttempt(env, n)
    decreases if k <= LastAttempt(env, n) then LastAttempt(env, n) - k + 1 else 0
  {
    if k > LastAttempt(env, n) then None
    else
      var o := env.run(n, k, inp, ctx);
      var a := Attempted(ctx + o.writes, k + 1, o);
      if o.Ok? then Some(a) else Attempts(env, n, inp, a.ctx, k + 1).Or(Some(a))
  }

  method RunAttempts(env: Env, n: Node, inp: Json, ctx0: Context) returns (last: Option<Attempted>)
    ensures last == Attempts(env, n, inp, ctx0, 0)
  {
    var ctx := ctx0;
    var attempt := 0;
    last := None;
    while attempt < LastAttempt(env, n) + 1
      invariant Attempts(env, n, inp, ctx0, 0) == Attempts(env, n, inp, ctx, attempt).Or(last)
      decreases LastAttempt(env, n) + 1 - attempt
    {
      var o := env.run(n, attempt, inp, ctx);
      ctx := ctx + o.writes;
      last := Some(Attempted(ctx, attempt + 1, o));
      if o.Ok? {
        break;
      }
      attempt := attempt + 1;
    }
  }

  // The context an attempt finds, given that the first attempt found `ctx`.
  function ContextAt(env: Env, n: Node, inp: Json, ctx: Context, j: nat): Context {
    if j == 0 then ctx
    else
      var before := ContextAt(env, n, inp, ctx, j - 1);
      before + env.run(n, j - 1, inp, before).writes
  }

  function AttemptAt(env: Env, n: Node, inp: Json, ctx: Context, j: nat): Outcome {
    env.run(n, j, inp, ContextAt(env, n, inp, ctx, j))
  }

  // The last of the attempts `k`, `k + 1`, ... of a node whose first attempt found `ctx`.
  ghost predicate EndsAttempts(env: Env, n: Node, inp: Json, ctx: Context, k: nat, last: Attempted) {
    && k < last.attempts <= LastAttempt(env, n) + 1
    && (forall j :: k <= j < last.attempts - 1 ==> AttemptAt(env, n, inp, ctx, j).Err?)
    && last.outcome == AttemptAt(env, n, inp, ctx, last.attempts - 1)
    && (last.outcome.Ok? || last.attempts == LastAttempt(env, n) + 1)
    && last.ctx == ContextAt(env, n, inp, ctx, last.attempts)
  }

  // What the retry policy means: every attempt but the last failed, the last one answered or
  // was the last allowed, and each found what the earlier ones had written.
  lemma {:induction false} RetryPolicy(env: Env, n: Node, inp: Json, ctx: Context, k: nat)
    requires k <= LastAttempt(env, n)
    ensures EndsAttempts(env, n, inp, ctx, k, Attempts(env, n, inp, ContextAt(env, n, inp, ctx, k), k).value)
    decreases LastAttempt(env, n) - k
  {
    var found := ContextAt(env, n, inp, ctx, k);
    var o := AttemptAt(env, n, inp, ctx, k);
    ContextNext(env, n, inp, ctx, k);
    AttemptsStep(env, n, inp, found, k);
    if o.Err? && k < LastAttempt(env, n) {
      RetryPolicy(env, n, inp, ctx, k + 1);
      EndsLater(env, n, inp, ctx, k, Attempts(env, n, inp, found + o.writes, k + 1).value);
    }
  }

  lemma ContextNext(env: Env, n: Node, inp: Json, ctx: Context, k: nat)
    ensures ContextAt(env, n, inp, ctx, k + 1) == ContextAt(env, n, inp, ctx, k) + AttemptAt(env, n, inp, ctx, k).writes
  {
  }

  lemma EndsLater(env: Env, n: Node, inp: Json, ctx: Context, k: nat, last: Attempted)
    requires AttemptAt(env, n, inp, ctx, k).Err? && EndsAttempts(env, n, inp, ctx, k + 1, last)
    ensures EndsAttempts(env, n, inp, ctx, k, last)
  {
  }

  lemma AttemptsStep(env: Env, n: Node, inp: Json, ctx: Context, k: nat)
    requires k <= LastAttempt(env, n)
    ensures var o := env.run(n, k, inp, ctx);
            Attempts(env, n, inp, ctx, k) ==
              if o.Ok? || k == LastAttempt(env, n) then Some(Attempted(ctx + o.writes, k + 1, o))
              else Attempts(env, n, inp, ctx + o.writes, k + 1)
  {
    var o := env.run(n, k, inp, ctx);
    if k == LastAttempt(env, n) {
      assert Attempts(env, n, inp, ctx + o.writes, k + 1).None?;
    }
  }

  // ----- one node -----

  predicate ConditionHolds(v: Json) {
    if v.Obj? then "result" in v.fields && Truthy(v.fields["result"]) else Truthy(v)
  }

  predicate IsLoop(v: Json) {
    v.Obj? && "__loop__" in v.fields && Truthy(v.fields["__loop__"])
  }

  // The nodes a condition switches off: only reachable through the handle not taken.
  ghost function Untaken(net: Net, n: Id, holds: bool): set<Id> {
    if holds then Branch(net, n, "false") - Branch(net, n, "true")
    else Branch(net, n, "true") - Branch(net, n, "false")
  }

  ghost function SkipDelta(net: Net, n: Node, v: Json): set<Id> {
    if n.kind == "action.condition" then Untaken(net, n.id, ConditionHolds(v)) else {}
  }

  function ErrorText(kind: string, msg: string): string {
    kind + ": " + msg
  }

  function BlankTrace(n: Node, inp: Json): Trace {
    Trace(n.id, n.kind, n.title, Skipped, 0, inp, Null, None)
  }

  // What the runner is told once the attempts are over.
  ghost function Conclude(net: Net, n: Node, inp: Json, a: Attempted): Executed {
    match a.outcome
    case Ok(v, _) =>
      Executed(a.ctx, v, BlankTrace(n, inp).(status := Succeeded, attempts := a.attempts, output := v),
               SkipDelta(net, n, v), if IsLoop(v) then Expand(v) else Plain)
    case Err(kind, msg, _) =>
      var text := ErrorText(kind, msg);
      var trace := BlankTrace(n, inp).(status := Errored, attempts := a.attempts, error := Some(text));
      if n.failMode == "continue" then
        var out := Obj(map["__error" := Str(text), "__node" := Str(n.id), "__type" := Str(n.kind)]);
        Executed(a.ctx, out, trace.(output := out), {}, Plain)
      else
        Executed(a.ctx, Obj(map["__error" := Str(text)]), trace, {}, Abort(a.attempts, msg))
  }

  // Documented never to raise, `_exec_node` raises exactly for a node that does not run: the
  // retry settings are converted before the first attempt, and after the retry loop the code
  // reads the loop variable, which an empty range leaves unset.
  ghost function Exec(plan: Plan, n: Node, ctx: Context): (e: Executed)
    ensures e.Raised? <==> !Runs(plan.env, n)
  {
    var inp := ExecInput(plan.net.edges, n.id, ctx);
    if !SettingsConvert(plan.env, n) then Raised
    else
      match Attempts(plan.env, n, inp, ctx, 0)
      case None => Raised
      case Some(a) => Conclude(plan.net, n, inp, a)
  }

  method ExecNode(plan: Plan, succ: map<Id, seq<Link>>, n: Node, ctx: Context) returns (e: Executed)
    requires succ == SuccMap(plan.net)
    ensures e == Exec(plan, n, ctx)
  {
    var inp := FindInput(plan.net.edges, n.id, ctx);
    if !SettingsConvert(plan.env, n) {
      return Raised;
    }
    var last := RunAttempts(plan.env, n, inp, ctx);
    if last.None? {
      return Raised;
    }
    var a := last.value;
    var trace := BlankTrace(n, inp).(attempts := a.attempts);
    match a.outcome {
      case Err(kind, msg, _) =>
        var text := ErrorText(kind, msg);
        trace := trace.(status := Errored, error := Some(text));
        if n.failMode == "continue" {
          var out := Obj(map["__error" := Str(text), "__node" := Str(n.id), "__type" := Str(n.kind)]);
          return Executed(a.ctx, out, trace.(output := out), {}, Plain);
        }
        return Executed(a.ctx, Obj(map["__error" := Str(text)]), trace, {}, Abort(a.attempts, msg));
      case Ok(v, _) =>
        trace := trace.(status := Succeeded, output := v);
        var delta := {};
        if n.kind == "action.condition" {
          var trueReach := ReachableViaHandle(plan.net, n.id, "true", succ);
          var falseReach := ReachableViaHandle(plan.net, n.id, "false", succ);
          delta := if ConditionHolds(v) then falseReach - trueReach else trueReach - falseReach;
        }
        return Executed(a.ctx, v, trace, delta, if IsLoop(v) then Expand(v) else Plain);
    }
  }

  lemma OnBranchInNet(net: Net, start: Id, handle: string, x: Id)
    requires OnBranch(net, start, handle, x)
    ensures x in net.ids
  {
    var l :| l in Links(net, start) && l.handle == Some(handle) && (l.target == x || Reaches(net, l.target, x));
    LinkIsArc(net, start, l);
    if l.target != x {
      ReachesInNet(net, l.target, x);
    }
  }

  // What a node switches off lies downstream of it.
  lemma SkipDeltaDownstream(net: Net, n: Node, v: Json, x: Id)
    requires x in SkipDelta(net, n, v)
    ensures Reaches(net, n.id, x)
  {
    if x in Branch(net, n.id, "true") {
      BranchIsDownstream(net, n.id, "true", x);
    } else {
      BranchIsDownstream(net, n.id, "false", x);
    }
  }

  lemma ExecDeltaDownstream(plan: Plan, n: Node, ctx: Context, x: Id)
    requires Exec(plan, n, ctx).Executed? && x in Exec(plan, n, ctx).delta
    ensures Reaches(plan.net, n.id, x)
  {
    SkipDeltaDownstream(plan.net, n, Exec(plan, n, ctx).out, x);
  }

  // Whether a condition's answer says yes: an object by its `result`, anything else as it is.
  ghost predicate SaysYes(v: Json) {
    if v.Obj? then "result" in v.fields && !Falsy(v.fields["result"]) else !Falsy(v)
  }

  lemma SaysYesIs(v: Json)
    ensures ConditionHolds(v) <==> SaysYes(v)
  {
    TruthyIs(v);
    if v.Obj? && "result" in v.fields {
      TruthyIs(v.fields["result"]);
    }
  }

  // A condition that answered switches off exactly the nodes that some path leads to through
  // the handle not taken and none through the handle taken, by the `result` it answered; no
  // other node switches anything off.
  lemma ConditionSwitchesOff(plan: Plan, n: Node, ctx: Context, x: Id)
    requires Exec(plan, n, ctx).Executed?
    ensures var e := Exec(plan, n, ctx);
            var yes := SaysYes(e.trace.output);
            var taken, untaken := if yes then "true" else "false", if yes then "false" else "true";
            if n.kind == "action.condition" && e.trace.status.Succeeded? then
              x in e.delta <==> OnBranch(plan.net, n.id, untaken, x) && !OnBranch(plan.net, n.id, taken, x)
            else x !in e.delta
  {
    var e := Exec(plan, n, ctx);
    SaysYesIs(e.trace.output);
    forall handle | OnBranch(plan.net, n.id, handle, x)
      ensures x in plan.net.ids
    {
      OnBranchInNet(plan.net, n.id, handle, x);
    }
    if e.trace.status.Succeeded? {
      assert e.delta == SkipDelta(plan.net, n, e.trace.output);
    }
  }
}
