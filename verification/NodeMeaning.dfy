/** What the run of one node means, in terms of what its handler answers: how many attempts
    there are, which context each of them finds, and what is recorded of the last. */
module NodeMeaning {
  import opened Nets
  import opened Values
  import opened NodeExec

  // The stored setting `v` is the number `m` to Python's `int`.
  ghost predicate IsInt(env: Env, v: Json, m: int) {
    || v == Num(m)
    || (v == Bool(m == 1) && (m == 0 || m == 1))
    || (v.Str? && env.runtime.textAsInt(v.s) == Some(m))
  }

  // It is some number to Python's `float`.
  ghost predicate IsNumber(env: Env, v: Json) {
    (exists m :: v == Num(m)) || (exists b :: v == Bool(b)) || (exists s :: v == Str(s) && env.runtime.textIsFloat(s))
  }

  // A node whose settings allow `m` retries.
  ghost predicate Retries(env: Env, n: Node, m: int) {
    m >= 0 && IsInt(env, n.retryMax, m) && IsNumber(env, n.retryDelay)
  }

  lemma RetriesAre(env: Env, n: Node, m: int)
    requires Retries(env, n, m)
    ensures Runs(env, n) && LastAttempt(env, n) == m
  {
  }

  lemma RunsRetries(env: Env, n: Node)
    requires Runs(env, n)
    ensures Retries(env, n, LastAttempt(env, n))
  {
  }

  // A node's run raises exactly if its settings do not allow some number of retries.
  lemma RaisesIff(plan: Plan, n: Node, ctx: Context)
    ensures Exec(plan, n, ctx).Raised? <==> forall m :: !Retries(plan.env, n, m)
  {
    if Runs(plan.env, n) {
      RunsRetries(plan.env, n);
    }
    forall m | Retries(plan.env, n, m)
      ensures Runs(plan.env, n)
    {
      RetriesAre(plan.env, n, m);
    }
  }

  // The exception it raises.
  lemma RaisesWhat(env: Env, n: Node)
    requires !Runs(env, n)
    ensures (forall m :: !IsInt(env, n.retryMax, m)) ==>
              CrashKind(env, n) == if n.retryMax.Str? then "ValueError" else "TypeError"
    ensures (exists m :: IsInt(env, n.retryMax, m)) && !IsNumber(env, n.retryDelay) ==>
              CrashKind(env, n) == if n.retryDelay.Str? then "ValueError" else "TypeError"
    ensures (exists m :: IsInt(env, n.retryMax, m)) && IsNumber(env, n.retryDelay) ==>
              CrashKind(env, n) == "UnboundLocalError"
  {
    if AsInt(env, n.retryMax).Some? {
      assert IsInt(env, n.retryMax, AsInt(env, n.retryMax).value);
    } else {
      assert forall m :: !IsInt(env, n.retryMax, m);
    }
  }

  // What is recorded of the last attempt of a node that was given `inp` and may be retried `m`
  // times: the answer, or the failure as its failure mode has it.
  ghost predicate Records(n: Node, inp: Json, m: int, o: Outcome, t: Trace) {
    && t.node == n.id && t.kind == n.kind && t.title == n.title && t.input == inp
    && match o
       case Ok(v, _) => t.status.Succeeded? && t.output == v && t.error == None
       case Err(kind, msg, _) =>
         && t.status.Errored? && t.attempts == m + 1 && t.error == Some(kind + ": " + msg)
         && t.output ==
              if n.failMode == "continue" then
                Obj(map["__error" := Str(kind + ": " + msg), "__node" := Str(n.id), "__type" := Str(n.kind)])
              else Null
  }

  // The attempts of a node: all but the last fail, the last answers or is the last allowed, and
  // its outcome is what is recorded.
  ghost predicate TracesAttempts(env: Env, n: Node, m: int, ctx: Context, t: Trace) {
    && 1 <= t.attempts <= m + 1
    && (forall j :: 0 <= j < t.attempts - 1 ==> AttemptAt(env, n, t.input, ctx, j).Err?)
    && Records(n, t.input, m, AttemptAt(env, n, t.input, ctx, t.attempts - 1), t)
  }

  lemma RunIsAttempted(plan: Plan, n: Node, ctx: Context, m: int)
    requires Retries(plan.env, n, m)
    ensures var e := Exec(plan, n, ctx);
            && e.Executed? && e.trace.input == ExecInput(plan.net.edges, n.id, ctx)
            && TracesAttempts(plan.env, n, m, ctx, e.trace)
            && e.ctx == ContextAt(plan.env, n, e.trace.input, ctx, e.trace.attempts)
            && (e.trace.status.Succeeded? ==> e.out == e.trace.output)
            && (e.trace.status.Errored? && n.failMode == "continue" ==> e.out == e.trace.output && e.signal.Plain?)
            && (e.trace.status.Errored? && n.failMode != "continue" ==>
                  AttemptAt(plan.env, n, e.trace.input, ctx, m).Err?
                  && e.signal == Abort(m + 1, AttemptAt(plan.env, n, e.trace.input, ctx, m).msg))
  {
    var inp := ExecInput(plan.net.edges, n.id, ctx);
    RetriesAre(plan.env, n, m);
    RetryPolicy(plan.env, n, inp, ctx, 0);
  }

  // One attempt, in terms of the handler alone.
  lemma AnswersAtOnce(plan: Plan, n: Node, ctx: Context, m: int, v: Json, w: Context)
    requires Retries(plan.env, n, m)
    requires plan.env.run(n, 0, ExecInput(plan.net.edges, n.id, ctx), ctx) == Ok(v, w)
    ensures var e := Exec(plan, n, ctx);
            && e.trace.status.Succeeded? && e.trace.attempts == 1 && e.trace.output == v && e.ctx == ctx + w
  {
    RetriesAre(plan.env, n, m);
    AttemptsStep(plan.env, n, ExecInput(plan.net.edges, n.id, ctx), ctx, 0);
  }

  // A second attempt finds what the first one wrote before it failed.
  lemma AnswersOnRetry(plan: Plan, n: Node, ctx: Context, m: int, first: Outcome, v: Json, w: Context)
    requires Retries(plan.env, n, m) && m >= 1 && first.Err?
    requires plan.env.run(n, 0, ExecInput(plan.net.edges, n.id, ctx), ctx) == first
    requires plan.env.run(n, 1, ExecInput(plan.net.edges, n.id, ctx), ctx + first.writes) == Ok(v, w)
    ensures var e := Exec(plan, n, ctx);
            && e.trace.status.Succeeded? && e.trace.attempts == 2 && e.trace.output == v
            && e.ctx == ctx + first.writes + w
  {
    var inp := ExecInput(plan.net.edges, n.id, ctx);
    RetriesAre(plan.env, n, m);
    AttemptsStep(plan.env, n, inp, ctx, 0);
    AttemptsStep(plan.env, n, inp, ctx + first.writes, 1);
  }
}
