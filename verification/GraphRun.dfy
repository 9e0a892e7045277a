/** `run_graph`: from a request to an initial state and a run. "Run from this node" marks
    every ancestor of the chosen node as skipped and seeds their outputs of an earlier run. */
module GraphRun {
  import opened Nets
  import opened Values
  import opened Reachability
  import opened NodeExec
  import opened Runner
  import opened Locality
  import opened Refinement

  datatype Request = Request(payload: Json, start: Option<Id>, prior: Context, parallel: bool, maxWorkers: int)

  function PlanOf(nodes: seq<Node>, edges: seq<Edge>, env: Env): Plan {
    Plan(Net(IdsOf(nodes), edges), NodeMap(nodes), env)
  }

  // What the executor relies on besides faithful iteration: distinct ids, none reserved.
  lemma PlanIsWellFormed(nodes: seq<Node>, edges: seq<Edge>, env: Env)
    requires FaithfulListing(env)
    ensures WellFormed(PlanOf(nodes, edges, env)) <==> Distinct(IdsOf(nodes)) && PAYLOAD_KEY !in IdsOf(nodes)
  {
    NodeMapKeys(nodes);
  }

  // The node a run is resumed at, when the request names one of the graph.
  ghost predicate ResumesAt(net: Net, req: Request, start: Id) {
    req.start == Some(start) && |start| > 0 && start in net.ids
  }

  function BaseContext(payload: Json): Context {
    map[PAYLOAD_KEY := if Truthy(payload) then payload else EMPTY_OBJECT]
  }

  // Outputs of an earlier run, kept for the skipped ancestors only.
  function Seeds(prior: Context, skipped: set<Id>): Context {
    map k | k in prior && k != PAYLOAD_KEY && k in skipped :: prior[k]
  }

  ghost function InitialState(net: Net, req: Request): State {
    if req.start.Some? && ResumesAt(net, req, req.start.value) then
      var skipped := Ancestors(net, req.start.value);
      State(BaseContext(req.payload) + Seeds(req.prior, skipped), map[], [], skipped, [])
    else State(BaseContext(req.payload), map[], [], {}, [])
  }

  predicate InParallel(req: Request) {
    req.parallel && req.maxWorkers > 1
  }

  ghost function RunGraph(plan: Plan, req: Request): Run {
    RunIn(plan, InitialState(plan.net, req), InParallel(req))
  }

  ghost function Sequentially(req: Request): Request {
    req.(parallel := false)
  }

  // The choice of mode is invisible in the outcome.
  lemma {:induction false} ModeDoesNotMatter(plan: Plan, req: Request)
    requires WellFormed(plan) && LevelsSafe(plan) && WritersAlone(plan, InitialState(plan.net, req).skip)
    ensures SameOutcome(RunGraph(plan, Sequentially(req)), RunGraph(plan, req))
  {
    var st := InitialState(plan.net, req);
    ParallelRefinesSequential(plan, st);
  }
}
