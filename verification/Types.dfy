/** Entities shared by the compiler and the runtime. Names (node ids, slots, schemas, ...)
    are interned as naturals: only their equality is used and, for node ids, their order. */
module Types {

  type NodeId = nat
  type EdgeId = nat
  type Slot = nat
  type Schema = nat
  type Key = nat
  type TaskId = nat
  type ArtifactId = nat
  type Digest = nat

  /** The interned empty string, which Python treats as false. */
  const EMPTY_ID: ArtifactId := 0

  datatype Option<+T> = None | Some(value: T)

  /** A decoded JSON value, as found in artifact payloads and condition operands. */
  datatype Json =
    | Null
    | Bool(b: bool)
    | Num(r: real)
    | Str(s: string)
    | Arr(items: seq<Json>)
    | Obj(fields: map<Key, Json>)

  datatype Operator = Equals | NotEquals | GreaterThan | LessThan | IsTrue | IsFalse

  /** `path` is `source_field` split at its dots, so it is never empty. */
  datatype Condition = Condition(path: seq<Key>, operator: Operator, value: Json)

  datatype Edge = Edge(id: EdgeId, src: NodeId, out: Slot, dst: NodeId, inp: Slot, cond: Option<Condition>)

  /** Which executor runs the node, with the name it is registered under. */
  datatype Kind = Agent(contract: nat) | Harness(harness: nat) | Transform(transform: nat) | Selector(selector: nat)

  datatype Node = Node(id: NodeId, kind: Kind, inputs: map<Slot, Schema>, outputs: map<Slot, Schema>)

  datatype Graph = Graph(
    nodes: seq<Node>,
    edges: seq<Edge>,
    initialSlots: map<Slot, Schema>,
    finalSlot: Slot,
    contentHash: Digest)

  datatype CompiledGraph = CompiledGraph(
    graph: Graph,
    entryNodes: seq<NodeId>,
    waves: seq<seq<NodeId>>,
    conditionalBranches: nat,
    finalProducers: seq<NodeId>)

  /** An artifact envelope. `valid` says whether `validate_payload` accepts it. */
  datatype Artifact = Artifact(
    id: ArtifactId,
    schema: Schema,
    producer: NodeId,
    task: TaskId,
    payload: map<Key, Json>,
    parents: seq<ArtifactId>,
    valid: bool)

  datatype Status = Pending | Ready | Running | Succeeded | Failed | Skipped | Cancelled

  /** What an executor returns for one node, apart from the latency. */
  datatype Outcome = Failure | Success(outputs: map<Slot, Artifact>)

  type Inputs = map<Slot, Artifact>

  /** The part of `RuntimeState` that decides what happens next. */
  datatype State = State(
    status: map<NodeId, Status>,
    outputs: map<NodeId, map<Slot, ArtifactId>>,
    initial: map<Slot, ArtifactId>,
    active: set<EdgeId>,
    inactive: set<EdgeId>,
    final: Option<ArtifactId>,
    frozen: bool,
    waveId: nat,
    checkpointCount: nat)

  function Ids(g: Graph): set<NodeId> {
    set n | n in g.nodes :: n.id
  }

  function EdgeIds(g: Graph): set<EdgeId> {
    set e | e in g.edges :: e.id
  }

  /** The list holds the ids at these positions, which increase. */
  ghost predicate InOrderAt(nodes: seq<Node>, list: seq<NodeId>, at: seq<nat>) {
    && |at| == |list|
    && (forall p :: 0 <= p < |at| ==> at[p] < |nodes| && nodes[at[p]].id == list[p])
    && forall p, q :: 0 <= p < q < |at| ==> at[p] < at[q]
  }

  /** One more node, at the end, whose id may join the list. */
  lemma InOrderNext(nodes: seq<Node>, list: seq<NodeId>, at: seq<nat>, joins: bool)
    requires nodes != [] && InOrderAt(nodes[..|nodes| - 1], list, at)
    ensures var last := |nodes| - 1;
      InOrderAt(nodes, if joins then list + [nodes[last].id] else list, if joins then at + [last] else at)
  {
    forall p | 0 <= p < |at| ensures nodes[at[p]].id == list[p] {
      assert nodes[..|nodes| - 1][at[p]] == nodes[at[p]];
    }
  }

  predicate Feeds(e: Edge, n: NodeId, slot: Slot) {
    e.dst == n && e.inp == slot
  }

  predicate Terminal(st: Status) {
    st in {Succeeded, Failed, Skipped, Cancelled}
  }

  /** The ids a node's outputs are known by. */
  function IdsOf(outputs: map<Slot, Artifact>): map<Slot, ArtifactId> {
    map slot | slot in outputs :: outputs[slot].id
  }
}
