/** JSON values, the run context, and the parts of a node the executor reads. */
module Values {
  import opened Nets

  datatype Json =
    | Null
    | Bool(b: bool)
    | Num(n: int)
    | Str(s: string)
    | Arr(items: seq<Json>)
    | Obj(fields: map<string, Json>)

  type Context = map<string, Json>

  const EMPTY_OBJECT := Obj(map[])
  const PAYLOAD_KEY := "__initial_payload__"

  // Python truthiness.
  predicate Truthy(v: Json) {
    match v
    case Null => false
    case Bool(b) => b
    case Num(n) => n != 0
    case Str(s) => |s| > 0
    case Arr(items) => |items| > 0
    case Obj(fields) => fields != map[]
  }

  // The values of JSON that Python takes for false.
  ghost predicate Falsy(v: Json) {
    v == Null || v == Bool(false) || v == Num(0) || v == Str("") || v == Arr([]) || v == Obj(map[])
  }

  lemma TruthyIs(v: Json)
    ensures Truthy(v) <==> !Falsy(v)
  {
  }

  // `retryMax`, `retryDelay` and `failMode` are the `retry_max`, `retry_delay` and `fail_mode`
  // of the node's data: what is stored there, or the default of a missing key.
  datatype Node = Node(
    id: Id, kind: string, title: string, config: Json, disabled: bool,
    retryMax: Json, retryDelay: Json, failMode: string)

  function IdsOf(nodes: seq<Node>): seq<Id> {
    if |nodes| == 0 then [] else IdsOf(nodes[..|nodes| - 1]) + [nodes[|nodes| - 1].id]
  }

  function NodeMap(nodes: seq<Node>): map<Id, Node> {
    if |nodes| == 0 then map[]
    else var n := nodes[|nodes| - 1]; NodeMap(nodes[..|nodes| - 1])[n.id := n]
  }

  lemma {:induction false} NodeMapKeys(nodes: seq<Node>)
    ensures NodeMap(nodes).Keys == Elements(IdsOf(nodes))
    ensures forall i :: i in NodeMap(nodes) ==> NodeMap(nodes)[i].id == i
  {
    if |nodes| == 0 {
    } else {
      NodeMapKeys(nodes[..|nodes| - 1]);
    }
  }

  lemma {:induction false} IdsInOrder(nodes: seq<Node>, k: nat)
    requires k < |nodes|
    ensures |IdsOf(nodes)| == |nodes| && IdsOf(nodes)[k] == nodes[k].id
  {
    IdsLength(nodes[..|nodes| - 1]);
    if k < |nodes| - 1 {
      IdsInOrder(nodes[..|nodes| - 1], k);
    }
  }

  lemma {:induction false} IdsLength(nodes: seq<Node>)
    ensures |IdsOf(nodes)| == |nodes|
  {
    if |nodes| > 0 {
      IdsLength(nodes[..|nodes| - 1]);
    }
  }

  // Of several nodes with one id the last counts.
  lemma {:induction false} LastNodeCounts(nodes: seq<Node>, k: nat)
    requires k < |nodes| && forall j :: k < j < |nodes| ==> nodes[j].id != nodes[k].id
    ensures nodes[k].id in NodeMap(nodes) && NodeMap(nodes)[nodes[k].id] == nodes[k]
  {
    if k < |nodes| - 1 {
      LastNodeCounts(nodes[..|nodes| - 1], k);
    }
  }
}
