/** `GraphCompiler.compile`: static checks, layering and the reachability fixpoint. */
module Compiler {
  import opened Types
  import opened Sorting
  import opened Layering

  datatype Contract = Contract(inputSchema: Schema, outputSchema: Schema)

  /** What the compiler is constructed with, and the fields of the known payload schemas. */
  datatype Registry = Registry(
    contracts: map<nat, Contract>,
    harnesses: set<nat>,
    transforms: set<nat>,
    selectors: set<nat>,
    payloadFields: map<Schema, set<Key>>,
    anyBundle: Schema)

  datatype CompileError =
    | DuplicateNodeIds
    | DuplicateEdgeIds
    | BadNode
    | BadEdge
    | UnboundSlot
    | NoEntryNode
    | CyclicGraph
    | NoFinalProducer
    | FinalUnreachable

  datatype Result<+T> = Ok(value: T) | Err(error: CompileError)

  /* ---------- what the compiler is meant to accept ---------- */

  ghost predicate DistinctNodes(g: Graph) {
    forall i, j :: 0 <= i < j < |g.nodes| ==> g.nodes[i].id != g.nodes[j].id
  }

  ghost predicate DistinctEdges(g: Graph) {
    forall i, j :: 0 <= i < j < |g.edges| ==> g.edges[i].id != g.edges[j].id
  }

  /** The executor is registered and an agent's contract matches the declared slots. */
  predicate NodeOk(reg: Registry, n: Node) {
    match n.kind
    case Agent(c) =>
      && c in reg.contracts
      && reg.contracts[c].outputSchema in n.outputs.Values
      && (reg.contracts[c].inputSchema == reg.anyBundle || reg.contracts[c].inputSchema in n.inputs.Values)
    case Harness(h) => h in reg.harnesses
    case Transform(t) => t in reg.transforms
    case Selector(s) => s in reg.selectors
  }

  /** The edge joins two declared slots of one schema, and its condition reads a known field. */
  predicate EdgeJoins(reg: Registry, source: Node, destination: Node, e: Edge) {
    && e.out in source.outputs
    && e.inp in destination.inputs
    && source.outputs[e.out] == destination.inputs[e.inp]
    && (e.cond.None? ||
        (var schema := source.outputs[e.out];
         schema in reg.payloadFields && |e.cond.value.path| > 0 &&
         e.cond.value.path[0] in reg.payloadFields[schema]))
  }

  ghost predicate EdgeOk(reg: Registry, g: Graph, e: Edge) {
    exists s, d :: s in g.nodes && d in g.nodes && s.id == e.src && d.id == e.dst && EdgeJoins(reg, s, d, e)
  }

  ghost predicate Bound(g: Graph, n: Node, slot: Slot) {
    slot in g.initialSlots || exists e :: e in g.edges && Feeds(e, n.id, slot)
  }

  predicate IsEntry(g: Graph, n: Node) {
    forall slot | slot in n.inputs :: slot in g.initialSlots && g.initialSlots[slot] == n.inputs[slot]
  }

  predicate Produces(g: Graph, n: Node) {
    g.finalSlot in n.outputs
  }

  /** The entry nodes among these, in their order. */
  function EntriesOf(g: Graph, nodes: seq<Node>): (r: seq<NodeId>)
    ensures forall id :: id in r <==> exists n :: n in nodes && IsEntry(g, n) && n.id == id
  {
    if nodes == [] then []
    else
      var last := nodes[|nodes| - 1];
      assert nodes == nodes[..|nodes| - 1] + [last];
      var init := EntriesOf(g, nodes[..|nodes| - 1]);
      if IsEntry(g, last) then init + [last.id] else init
  }

  /** Likewise the producers of the final slot. */
  function ProducersOf(g: Graph, nodes: seq<Node>): (r: seq<NodeId>)
    ensures forall id :: id in r <==> exists n :: n in nodes && Produces(g, n) && n.id == id
  {
    if nodes == [] then []
    else
      var last := nodes[|nodes| - 1];
      assert nodes == nodes[..|nodes| - 1] + [last];
      var init := ProducersOf(g, nodes[..|nodes| - 1]);
      if Produces(g, last) then init + [last.id] else init
  }

  function EntryIds(g: Graph): set<NodeId> {
    set n | n in g.nodes && IsEntry(g, n) :: n.id
  }

  lemma EntriesNone(g: Graph)
    ensures EntriesOf(g, g.nodes) == [] <==> EntryIds(g) == {}
  {
    if EntriesOf(g, g.nodes) != [] {
      var id := EntriesOf(g, g.nodes)[0];
      assert id in EntriesOf(g, g.nodes);
      assert id in EntryIds(g);
    }
    if id :| id in EntryIds(g) {
      assert id in EntriesOf(g, g.nodes);
    }
  }

  function ProducerIds(g: Graph): set<NodeId> {
    set n | n in g.nodes && Produces(g, n) :: n.id
  }

  ghost predicate Reaches(edges: seq<Edge>, starts: set<NodeId>, n: NodeId) {
    exists w :: IsWalk(edges, w) && w[0] in starts && w[|w| - 1] == n
  }

  ghost predicate AllNodesOk(reg: Registry, g: Graph) {
    forall n :: n in g.nodes ==> NodeOk(reg, n)
  }

  ghost predicate AllEdgesOk(reg: Registry, g: Graph) {
    forall e :: e in g.edges ==> EdgeOk(reg, g, e)
  }

  ghost predicate AllBound(g: Graph) {
    forall n: Node, slot :: n in g.nodes && slot in n.inputs ==> Bound(g, n, slot)
  }

  ghost predicate SomeProducerReached(g: Graph) {
    exists p :: p in ProducerIds(g) && Reaches(g.edges, EntryIds(g), p)
  }

  /** The first check that fails, if any. */
  ghost function Verdict(reg: Registry, g: Graph): Option<CompileError> {
    if !DistinctNodes(g) then Some(DuplicateNodeIds)
    else if !DistinctEdges(g) then Some(DuplicateEdgeIds)
    else if !AllNodesOk(reg, g) then Some(BadNode)
    else if !AllEdgesOk(reg, g) then Some(BadEdge)
    else if !AllBound(g) then Some(UnboundSlot)
    else if EntryIds(g) == {} then Some(NoEntryNode)
    else if !Acyclic(g.edges) then Some(CyclicGraph)
    else if ProducerIds(g) == {} then Some(NoFinalProducer)
    else if !SomeProducerReached(g) then Some(FinalUnreachable)
    else None
  }

  ghost predicate IsCompiled(g: Graph, c: CompiledGraph) {
    && c.graph == g
    && c.entryNodes == EntriesOf(g, g.nodes)
    && IsLayering(Ids(g), g.edges, c.waves)
    && c.conditionalBranches == |set i | 0 <= i < |g.edges| && g.edges[i].cond.Some?|
    && c.finalProducers == ProducersOf(g, g.nodes)
  }

  lemma {:induction false} EntriesInOrder(g: Graph, nodes: seq<Node>) returns (at: seq<nat>)
    ensures InOrderAt(nodes, EntriesOf(g, nodes), at)
    ensures forall i: nat :: i in at <==> i < |nodes| && IsEntry(g, nodes[i])
  {
    at := [];
    if nodes != [] {
      var init, last := nodes[..|nodes| - 1], |nodes| - 1;
      at := EntriesInOrder(g, init);
      assert forall i :: 0 <= i < last ==> init[i] == nodes[i];
      InOrderNext(nodes, EntriesOf(g, init), at, IsEntry(g, nodes[last]));
      at := if IsEntry(g, nodes[last]) then at + [last] else at;
    }
  }

  lemma {:induction false} ProducersInOrder(g: Graph, nodes: seq<Node>) returns (at: seq<nat>)
    ensures InOrderAt(nodes, ProducersOf(g, nodes), at)
    ensures forall i: nat :: i in at <==> i < |nodes| && Produces(g, nodes[i])
  {
    at := [];
    if nodes != [] {
      var init, last := nodes[..|nodes| - 1], |nodes| - 1;
      at := ProducersInOrder(g, init);
      assert forall i :: 0 <= i < last ==> init[i] == nodes[i];
      InOrderNext(nodes, ProducersOf(g, init), at, Produces(g, nodes[last]));
      at := if Produces(g, nodes[last]) then at + [last] else at;
    }
  }

  /** The entry nodes and the producers of the final slot are listed in graph order, each once. */
  lemma CompiledLists(g: Graph, c: CompiledGraph) returns (entries: seq<nat>, producers: seq<nat>)
    requires IsCompiled(g, c)
    ensures InOrderAt(g.nodes, c.entryNodes, entries)
    ensures forall i: nat :: i in entries <==> i < |g.nodes| && IsEntry(g, g.nodes[i])
    ensures InOrderAt(g.nodes, c.finalProducers, producers)
    ensures forall i: nat :: i in producers <==> i < |g.nodes| && Produces(g, g.nodes[i])
  {
    entries := EntriesInOrder(g, g.nodes);
    producers := ProducersInOrder(g, g.nodes);
  }

  function Conditional(edges: seq<Edge>): seq<Edge> {
    if edges == [] then []
    else
      var init := Conditional(edges[..|edges| - 1]);
      if edges[|edges| - 1].cond.Some? then init + [edges[|edges| - 1]] else init
  }

  /** The list has one entry for each position with a condition. */
  lemma {:induction false} ConditionalCount(edges: seq<Edge>)
    ensures |Conditional(edges)| == |set i | 0 <= i < |edges| && edges[i].cond.Some?|
  {
    if edges != [] {
      var last, init := |edges| - 1, edges[..|edges| - 1];
      ConditionalCount(init);
      var before := set i | 0 <= i < |init| && init[i].cond.Some?;
      var after := set i | 0 <= i < |edges| && edges[i].cond.Some?;
      assert after == before + if edges[last].cond.Some? then {last} else {};
    }
  }

  /* ---------- what the errors mean ---------- */

  /** Repeated ids are reported first. */
  lemma DuplicatesIff(reg: Registry, g: Graph)
    ensures Verdict(reg, g) == Some(DuplicateNodeIds) <==>
            exists i, j :: 0 <= i < j < |g.nodes| && g.nodes[i].id == g.nodes[j].id
    ensures Verdict(reg, g) != Some(DuplicateNodeIds) ==>
      (Verdict(reg, g) == Some(DuplicateEdgeIds) <==>
       exists i, j :: 0 <= i < j < |g.edges| && g.edges[i].id == g.edges[j].id)
  {
  }

  /** The verdict is none of these. */
  ghost predicate Past(reg: Registry, g: Graph, errors: set<CompileError>) {
    Verdict(reg, g).Some? ==> Verdict(reg, g).value !in errors
  }

  /** Next, a node whose executor is not registered under its kind, or an agent whose contract does not
      fit the slots that it declares. */
  lemma BadNodeIff(reg: Registry, g: Graph)
    requires Past(reg, g, {DuplicateNodeIds, DuplicateEdgeIds})
    ensures Verdict(reg, g) == Some(BadNode) <==> exists n :: n in g.nodes && match n.kind {
        case Agent(id) => id !in reg.contracts
          || (forall slot :: slot in n.outputs ==> n.outputs[slot] != reg.contracts[id].outputSchema)
          || (reg.contracts[id].inputSchema != reg.anyBundle
              && forall slot :: slot in n.inputs ==> n.inputs[slot] != reg.contracts[id].inputSchema)
        case Harness(id) => id !in reg.harnesses
        case Transform(id) => id !in reg.transforms
        case Selector(id) => id !in reg.selectors
      }
  {
    forall n | n in g.nodes && n.kind.Agent? && n.kind.contract in reg.contracts
      ensures reg.contracts[n.kind.contract].outputSchema in n.outputs.Values <==>
              exists slot :: slot in n.outputs && n.outputs[slot] == reg.contracts[n.kind.contract].outputSchema
      ensures reg.contracts[n.kind.contract].inputSchema in n.inputs.Values <==>
              exists slot :: slot in n.inputs && n.inputs[slot] == reg.contracts[n.kind.contract].inputSchema
    {
    }
    if n :| n in g.nodes && !NodeOk(reg, n) {
    }
  }

  /** Between these two nodes the edge names a slot that is not declared, joins two types, or has a
      condition on a field that the type does not have. */
  ghost predicate Mismatches(reg: Registry, s: Node, d: Node, e: Edge) {
    || e.out !in s.outputs
    || e.inp !in d.inputs
    || s.outputs[e.out] != d.inputs[e.inp]
    || (e.cond.Some? && (s.outputs[e.out] !in reg.payloadFields || e.cond.value.path == []
                         || e.cond.value.path[0] !in reg.payloadFields[s.outputs[e.out]]))
  }

  /** An end of the edge is no node, or the nodes at its ends do not fit it. */
  ghost predicate Misplaced(reg: Registry, g: Graph, e: Edge) {
    || (forall n :: n in g.nodes ==> n.id != e.src)
    || (forall n :: n in g.nodes ==> n.id != e.dst)
    || (exists s, d :: s in g.nodes && d in g.nodes && s.id == e.src && d.id == e.dst && Mismatches(reg, s, d, e))
  }

  lemma MisplacedIff(reg: Registry, g: Graph, e: Edge)
    requires DistinctNodes(g)
    ensures Misplaced(reg, g, e) <==> !EdgeOk(reg, g, e)
  {
    forall s, d ensures Mismatches(reg, s, d, e) <==> !EdgeJoins(reg, s, d, e) {
    }
  }

  /** Next, such an edge. */
  lemma BadEdgeIff(reg: Registry, g: Graph)
    requires Past(reg, g, {DuplicateNodeIds, DuplicateEdgeIds, BadNode})
    ensures Verdict(reg, g) == Some(BadEdge) <==> exists e :: e in g.edges && Misplaced(reg, g, e)
  {
    forall e ensures Misplaced(reg, g, e) <==> !EdgeOk(reg, g, e) {
      MisplacedIff(reg, g, e);
    }
  }

  /** Next, a slot that is neither initial nor fed; then no node whose slots are all initial with the types
      declared for them; then a walk that comes back to where it started. */
  lemma ShapeIff(reg: Registry, g: Graph)
    requires Past(reg, g, {DuplicateNodeIds, DuplicateEdgeIds, BadNode, BadEdge})
    ensures Verdict(reg, g) == Some(UnboundSlot) <==>
      exists n: Node, slot :: n in g.nodes && slot in n.inputs && slot !in g.initialSlots
                              && forall e :: e in g.edges ==> !(e.dst == n.id && e.inp == slot)
    ensures Past(reg, g, {UnboundSlot}) ==>
      (Verdict(reg, g) == Some(NoEntryNode) <==>
       forall n: Node :: n in g.nodes ==>
         exists slot :: slot in n.inputs && !(slot in g.initialSlots && g.initialSlots[slot] == n.inputs[slot]))
    ensures Past(reg, g, {UnboundSlot, NoEntryNode}) ==>
      (Verdict(reg, g) == Some(CyclicGraph) <==> exists w :: IsWalk(g.edges, w) && |w| >= 2 && w[0] == w[|w| - 1])
  {
    UnboundIff(g);
    NoEntryIff(g);
  }

  lemma UnboundIff(g: Graph)
    ensures !AllBound(g) <==>
      exists n: Node, slot :: n in g.nodes && slot in n.inputs && slot !in g.initialSlots
                              && forall e :: e in g.edges ==> !(e.dst == n.id && e.inp == slot)
  {
    if !AllBound(g) {
      var n: Node, slot :| n in g.nodes && slot in n.inputs && !Bound(g, n, slot);
      forall e | e in g.edges ensures !(e.dst == n.id && e.inp == slot) {
        assert !Feeds(e, n.id, slot);
      }
    }
    if n: Node, slot :| n in g.nodes && slot in n.inputs && slot !in g.initialSlots
                        && forall e :: e in g.edges ==> !(e.dst == n.id && e.inp == slot)
    {
      assert !Bound(g, n, slot);
    }
  }

  lemma NoEntryIff(g: Graph)
    ensures EntryIds(g) == {} <==>
      forall n: Node :: n in g.nodes ==>
        exists slot :: slot in n.inputs && !(slot in g.initialSlots && g.initialSlots[slot] == n.inputs[slot])
  {
    forall n: Node | n in g.nodes
      ensures n.id in EntryIds(g)
      || exists slot :: slot in n.inputs && !(slot in g.initialSlots && g.initialSlots[slot] == n.inputs[slot])
    {
      if !IsEntry(g, n) {
        var slot :| slot in n.inputs && !(slot in g.initialSlots && g.initialSlots[slot] == n.inputs[slot]);
      }
    }
    if id :| id in EntryIds(g) {
      var n :| n in g.nodes && IsEntry(g, n) && n.id == id;
    }
  }

  /** Last, no node that declares the final slot, and none that a walk from an entry node reaches. */
  lemma FinalIff(reg: Registry, g: Graph)
    requires Past(reg, g, {DuplicateNodeIds, DuplicateEdgeIds, BadNode, BadEdge, UnboundSlot, NoEntryNode, CyclicGraph})
    ensures Verdict(reg, g) == Some(NoFinalProducer) <==> forall n: Node :: n in g.nodes ==> g.finalSlot !in n.outputs
    ensures Past(reg, g, {NoFinalProducer}) ==>
      (Verdict(reg, g) == Some(FinalUnreachable) <==>
       forall n: Node, w :: n in g.nodes && g.finalSlot in n.outputs && IsWalk(g.edges, w) && w[|w| - 1] == n.id ==>
         w[0] !in EntryIds(g))
  {
    if id :| id in ProducerIds(g) {
      var n :| n in g.nodes && Produces(g, n) && n.id == id;
    }
    forall n: Node | n in g.nodes && g.finalSlot in n.outputs ensures n.id in ProducerIds(g) {
      assert Produces(g, n);
    }
    ReachedIff(g);
  }

  lemma ReachedIff(g: Graph)
    ensures !SomeProducerReached(g) <==>
      forall n: Node, w :: n in g.nodes && g.finalSlot in n.outputs && IsWalk(g.edges, w) && w[|w| - 1] == n.id ==>
        w[0] !in EntryIds(g)
  {
    if SomeProducerReached(g) {
      var p :| p in ProducerIds(g) && Reaches(g.edges, EntryIds(g), p);
      var n :| n in g.nodes && Produces(g, n) && n.id == p;
      var w :| IsWalk(g.edges, w) && w[0] in EntryIds(g) && w[|w| - 1] == p;
    }
    if n: Node, w :| n in g.nodes && g.finalSlot in n.outputs && IsWalk(g.edges, w) && w[|w| - 1] == n.id
                     && w[0] in EntryIds(g)
    {
      assert Produces(g, n) && n.id in ProducerIds(g);
      assert Reaches(g.edges, EntryIds(g), n.id);
    }
  }

  /* ---------- adjacency and indegrees ---------- */

  /** The targets of x's edges, in edge order. */
  function Targets(edges: seq<Edge>, x: NodeId): (ts: seq<NodeId>)
    ensures forall t :: t in ts <==> Linked(edges, x, t)
  {
    if edges == [] then []
    else
      var last := edges[|edges| - 1];
      var init := Targets(edges[..|edges| - 1], x);
      assert edges == edges[..|edges| - 1] + [last];
      if last.src == x then init + [last.dst] else init
  }

  /** How many edges into n come from nodes not yet removed. */
  function InCount(edges: seq<Edge>, n: NodeId, gone: set<NodeId>): nat {
    if edges == [] then 0
    else
      var last := edges[|edges| - 1];
      InCount(edges[..|edges| - 1], n, gone) + if last.dst == n && last.src !in gone then 1 else 0
  }

  lemma {:induction false} InCountZero(edges: seq<Edge>, n: NodeId, gone: set<NodeId>)
    ensures InCount(edges, n, gone) == 0 <==> ParentsIn(edges, n, gone)
  {
    if edges != [] {
      var init := edges[..|edges| - 1];
      InCountZero(init, n, gone);
      assert edges == init + [edges[|edges| - 1]];
    }
  }

  lemma {:induction false} InCountRemove(edges: seq<Edge>, n: NodeId, gone: set<NodeId>, x: NodeId)
    requires x !in gone
    ensures InCount(edges, n, gone) == InCount(edges, n, gone + {x}) + multiset(Targets(edges, x))[n]
  {
    if edges != [] {
      InCountRemove(edges[..|edges| - 1], n, gone, x);
    }
  }

  function At(adjacency: map<NodeId, seq<NodeId>>, x: NodeId): seq<NodeId> {
    if x in adjacency then adjacency[x] else []
  }

  /** The indegrees count exactly the edges from nodes not yet removed. */
  ghost predicate Counts(edges: seq<Edge>, nodes: set<NodeId>, indegree: map<NodeId, nat>, gone: set<NodeId>) {
    indegree.Keys == nodes && forall n :: n in nodes ==> indegree[n] == InCount(edges, n, gone)
  }

  /** A node has no edges left exactly if it is in `taken` or waits in `next`, once. */
  ghost predicate Zeroes(nodes: set<NodeId>, indegree: map<NodeId, nat>, taken: set<NodeId>, next: seq<NodeId>)
    requires indegree.Keys == nodes
  {
    && (forall n :: n in nodes ==> (indegree[n] == 0 <==> n in taken || n in next))
    && Distinct(next)
    && (forall n :: n in next ==> n in nodes && n !in taken)
  }

  /** The indegrees are the goal plus what the targets still to come will take off. */
  ghost predicate Owes(nodes: set<NodeId>, indegree: map<NodeId, nat>, goal: map<NodeId, nat>, left: multiset<NodeId>) {
    indegree.Keys == goal.Keys == nodes && forall n :: n in nodes ==> indegree[n] == goal[n] + left[n]
  }

  lemma OwesStep(nodes: set<NodeId>, indegree: map<NodeId, nat>, goal: map<NodeId, nat>, left: multiset<NodeId>,
                 target: NodeId)
    requires Owes(nodes, indegree, goal, left) && target in nodes && left[target] > 0
    ensures indegree[target] > 0
    ensures Owes(nodes, indegree[target := indegree[target] - 1], goal, left - multiset{target})
  {
  }

  lemma TailCount(xs: seq<NodeId>, q: nat)
    requires q < |xs|
    ensures multiset(xs[q + 1..]) == multiset(xs[q..]) - multiset{xs[q]}
    ensures xs[q] in multiset(xs[q..])
  {
    assert xs[q..] == [xs[q]] + xs[q + 1..];
  }

  lemma ZeroStep(nodes: set<NodeId>, before: map<NodeId, nat>, taken: set<NodeId>, next: seq<NodeId>, target: NodeId)
    requires before.Keys == nodes && Zeroes(nodes, before, taken, next)
    requires target in nodes && before[target] > 0
    ensures Zeroes(nodes, before[target := before[target] - 1], taken,
                   if before[target] == 1 then next + [target] else next)
  {
  }

  /** The inner loop over the targets of one removed node. */
  method Discharge(edges: seq<Edge>, ghost nodes: set<NodeId>, x: NodeId, targets: seq<NodeId>,
                   indegree: map<NodeId, nat>, next: seq<NodeId>, ghost gone: set<NodeId>, ghost taken: set<NodeId>)
    returns (indegree': map<NodeId, nat>, next': seq<NodeId>)
    requires Closed(nodes, edges) && targets == Targets(edges, x) && x !in gone
    requires Counts(edges, nodes, indegree, gone) && Zeroes(nodes, indegree, taken, next)
    ensures Counts(edges, nodes, indegree', gone + {x}) && Zeroes(nodes, indegree', taken, next')
  {
    indegree', next' := indegree, next;
    ghost var goal := map n | n in nodes :: InCount(edges, n, gone + {x});
    OwesStart(edges, nodes, x, targets, indegree, goal, gone);
    var q := 0;
    while q < |targets|
      invariant 0 <= q <= |targets|
      invariant Owes(nodes, indegree', goal, multiset(targets[q..]))
      invariant Zeroes(nodes, indegree', taken, next')
    {
      TailCount(targets, q);
      indegree', next' := TakeOff(nodes, indegree', next', targets[q], goal, multiset(targets[q..]), taken);
      q := q + 1;
    }
  }

  lemma OwesStart(edges: seq<Edge>, nodes: set<NodeId>, x: NodeId, targets: seq<NodeId>, indegree: map<NodeId, nat>,
                  goal: map<NodeId, nat>, gone: set<NodeId>)
    requires Closed(nodes, edges) && targets == Targets(edges, x) && x !in gone && Counts(edges, nodes, indegree, gone)
    requires goal == map n | n in nodes :: InCount(edges, n, gone + {x})
    ensures Owes(nodes, indegree, goal, multiset(targets[0..])) && forall t :: t in targets ==> t in nodes
  {
    forall n | n in nodes ensures indegree[n] == goal[n] + multiset(targets)[n] {
      InCountRemove(edges, n, gone, x);
    }
    forall t | t in targets ensures t in nodes {
      assert Linked(edges, x, t);
    }
    assert targets[0..] == targets;
  }

  /** One edge less into the target, which is queued when none is left. */
  method TakeOff(ghost nodes: set<NodeId>, indegree: map<NodeId, nat>, next: seq<NodeId>, target: NodeId,
                 ghost goal: map<NodeId, nat>, ghost left: multiset<NodeId>, ghost taken: set<NodeId>)
    returns (indegree': map<NodeId, nat>, next': seq<NodeId>)
    requires Owes(nodes, indegree, goal, left) && Zeroes(nodes, indegree, taken, next)
    requires target in nodes && left[target] > 0
    ensures Owes(nodes, indegree', goal, left - multiset{target}) && Zeroes(nodes, indegree', taken, next')
  {
    OwesStep(nodes, indegree, goal, left, target);
    ZeroStep(nodes, indegree, taken, next, target);
    next' := next;
    var degree := indegree[target] - 1;
    indegree' := indegree[target := degree];
    if degree == 0 {
      next' := next' + [target];
    }
  }

  ghost predicate AdjacencyOf(edges: seq<Edge>, nodes: set<NodeId>, adjacency: map<NodeId, seq<NodeId>>) {
    forall n :: n in nodes ==> At(adjacency, n) == Targets(edges, n)
  }

  /** One wave of Kahn's loop: every node of `current` is removed. */
  method RemoveWave(edges: seq<Edge>, ghost nodes: set<NodeId>, adjacency: map<NodeId, seq<NodeId>>,
                    indegree: map<NodeId, nat>, current: seq<NodeId>, ghost gone: set<NodeId>)
    returns (indegree': map<NodeId, nat>, next: seq<NodeId>)
    requires Closed(nodes, edges) && AdjacencyOf(edges, nodes, adjacency)
    requires Distinct(current) && forall n :: n in current ==> n in nodes && n !in gone
    requires Counts(edges, nodes, indegree, gone) && Zeroes(nodes, indegree, gone + Elements(current), [])
    ensures Counts(edges, nodes, indegree', gone + Elements(current))
    ensures Zeroes(nodes, indegree', gone + Elements(current), next)
  {
    indegree', next := indegree, [];
    ghost var taken := gone + Elements(current);
    ghost var done := gone;
    var p := 0;
    while p < |current|
      invariant 0 <= p <= |current|
      invariant forall n :: n in done <==> n in gone || n in current[..p]
      invariant Counts(edges, nodes, indegree', done) && Zeroes(nodes, indegree', taken, next)
    {
      var x := current[p];
      assert x in nodes && x !in gone && x !in current[..p];
      indegree', next := Discharge(edges, nodes, x, At(adjacency, x), indegree', next, done, taken);
      assert current[..p + 1] == current[..p] + [x];
      done := done + {x};
      p := p + 1;
    }
    assert current[..p] == current;
    assert done == taken;
  }

  lemma FirstRound(edges: seq<Edge>, nodes: set<NodeId>, degrees: map<NodeId, nat>, gone: set<NodeId>, i: nat,
                   next: seq<NodeId>)
    requires Counts(edges, nodes, degrees, gone) && Zeroes(nodes, degrees, gone, next)
    requires gone == Peeled(nodes, edges, i)
    ensures forall n :: n in next <==> n in Peeled(nodes, edges, i + 1) - gone
  {
    forall n | n in nodes ensures n in Peeled(nodes, edges, i + 1) <==> degrees[n] == 0 {
      InCountZero(edges, n, gone);
    }
  }

  lemma NextRound(edges: seq<Edge>, nodes: set<NodeId>, indegree: map<NodeId, nat>, gone: set<NodeId>, i: nat,
                  current: seq<NodeId>)
    requires Counts(edges, nodes, indegree, gone) && gone == Peeled(nodes, edges, i)
    requires forall n :: n in current <==> n in Peeled(nodes, edges, i + 1) - gone
    ensures Zeroes(nodes, indegree, gone + Elements(current), [])
    ensures Peeled(nodes, edges, i + 1) == gone + Elements(current)
  {
    PeeledGrows(nodes, edges, i, i + 1);
    forall n | n in nodes ensures n in Peeled(nodes, edges, i + 1) <==> indegree[n] == 0 {
      InCountZero(edges, n, gone);
    }
  }

  ghost predicate LayerState(edges: seq<Edge>, nodes: set<NodeId>, waves: seq<seq<NodeId>>, visited: nat,
                             indegree: map<NodeId, nat>, current: seq<NodeId>)
  {
    var gone := Peeled(nodes, edges, |waves|);
    && |gone| == visited
    && current == Wave(nodes, edges, |waves|)
    && Counts(edges, nodes, indegree, gone)
    && WavesSoFar(nodes, edges, waves)
  }

  lemma EnterWave(edges: seq<Edge>, nodes: set<NodeId>, waves: seq<seq<NodeId>>, visited: nat,
                  indegree: map<NodeId, nat>, current: seq<NodeId>)
    requires LayerState(edges, nodes, waves, visited, indegree, current)
    ensures Peeled(nodes, edges, |waves| + 1) == Peeled(nodes, edges, |waves|) + Elements(current)
    ensures Zeroes(nodes, indegree, Peeled(nodes, edges, |waves| + 1), [])
    ensures |Peeled(nodes, edges, |waves| + 1)| == visited + |current| <= |nodes|
  {
    var gone := Peeled(nodes, edges, |waves|);
    NextRound(edges, nodes, indegree, gone, |waves|, current);
    PeeledInside(nodes, edges, |waves| + 1);
    DistinctSize(current);
    assert |gone + Elements(current)| == visited + |current|;
    SubsetSize(gone + Elements(current), nodes);
  }

  lemma LeaveWave(edges: seq<Edge>, nodes: set<NodeId>, waves: seq<seq<NodeId>>, visited: nat,
                  indegree: map<NodeId, nat>, current: seq<NodeId>, indegree': map<NodeId, nat>, next: seq<NodeId>)
    requires LayerState(edges, nodes, waves, visited, indegree, current) && current != []
    requires Counts(edges, nodes, indegree', Peeled(nodes, edges, |waves| + 1))
    requires Zeroes(nodes, indegree', Peeled(nodes, edges, |waves| + 1), next)
    ensures LayerState(edges, nodes, waves + [current], visited + |current|, indegree', Sorted(Elements(next)))
  {
    EnterWave(edges, nodes, waves, visited, indegree, current);
    var i := |waves| + 1;
    WavesAppend(edges, nodes, waves, current);
    NextCurrent(edges, nodes, indegree', i, next);
    assert |waves + [current]| == i;
  }

  lemma WavesAppend(edges: seq<Edge>, nodes: set<NodeId>, waves: seq<seq<NodeId>>, current: seq<NodeId>)
    requires WavesSoFar(nodes, edges, waves) && IsWave(nodes, edges, |waves|, current)
    ensures WavesSoFar(nodes, edges, waves + [current])
  {
    var waves' := waves + [current];
    forall i | 0 <= i < |waves'| ensures IsWave(nodes, edges, i, waves'[i]) {
      if i < |waves| {
        assert waves'[i] == waves[i];
      } else {
        assert i == |waves|;
      }
    }
  }

  lemma NextCurrent(edges: seq<Edge>, nodes: set<NodeId>, indegree: map<NodeId, nat>, i: nat, next: seq<NodeId>)
    requires Counts(edges, nodes, indegree, Peeled(nodes, edges, i))
    requires Zeroes(nodes, indegree, Peeled(nodes, edges, i), next)
    ensures Sorted(Elements(next)) == Wave(nodes, edges, i)
  {
    FirstRound(edges, nodes, indegree, Peeled(nodes, edges, i), i, next);
    assert Elements(next) == Peeled(nodes, edges, i + 1) - Peeled(nodes, edges, i);
  }

  lemma StartLayers(edges: seq<Edge>, nodes: set<NodeId>, degrees: map<NodeId, nat>, free: set<NodeId>)
    requires Counts(edges, nodes, degrees, {}) && free == set n | n in degrees && degrees[n] == 0
    ensures LayerState(edges, nodes, [], 0, degrees, Sorted(free))
  {
    FirstRound(edges, nodes, degrees, {}, 0, Sorted(free));
    SortedUnique(Sorted(free), Peeled(nodes, edges, 1) - {});
  }

  /** Kahn's loop. It removes every node exactly if the graph has no cycle. */
  method Layer(edges: seq<Edge>, nodes: set<NodeId>, adjacency: map<NodeId, seq<NodeId>>, degrees: map<NodeId, nat>)
    returns (waves: seq<seq<NodeId>>, visited: nat)
    requires Closed(nodes, edges) && AdjacencyOf(edges, nodes, adjacency)
    requires Counts(edges, nodes, degrees, {})
    ensures visited == |nodes| <==> Acyclic(edges)
    ensures visited == |nodes| ==> IsLayering(nodes, edges, waves)
  {
    var indegree := degrees;
    var free := set n | n in degrees && degrees[n] == 0;
    var current := Sorted(free);
    waves, visited := [], 0;
    StartLayers(edges, nodes, degrees, free);
    while current != []
      invariant LayerState(edges, nodes, waves, visited, indegree, current)
      decreases |nodes| - visited
    {
      EnterWave(edges, nodes, waves, visited, indegree, current);
      var before := indegree;
      var next;
      indegree, next := RemoveWave(edges, nodes, adjacency, indegree, current, Peeled(nodes, edges, |waves|));
      LeaveWave(edges, nodes, waves, visited, before, current, indegree, next);
      waves := waves + [current];
      visited := visited + |current|;
      current := Sorted(Elements(next));
    }
    LayerDone(nodes, edges, |waves|);
  }

  lemma LayerDone(nodes: set<NodeId>, edges: seq<Edge>, i: nat)
    requires Closed(nodes, edges)
    requires Wave(nodes, edges, i) == []
    ensures |Peeled(nodes, edges, i)| == |nodes| <==> Acyclic(edges)
    ensures |Peeled(nodes, edges, i)| == |nodes| ==> Peeled(nodes, edges, i) == nodes
  {
    PeeledGrows(nodes, edges, i, i + 1);
    assert forall n :: n in Peeled(nodes, edges, i + 1) - Peeled(nodes, edges, i) ==> n in Wave(nodes, edges, i);
    PeeledInside(nodes, edges, i);
    SubsetSize(Peeled(nodes, edges, i), nodes);
    if Peeled(nodes, edges, i) == nodes {
      LayeredIsAcyclic(nodes, edges, i);
    } else {
      StuckHasCycle(nodes, edges, i);
    }
  }

  /* ---------- the checks ---------- */

  ghost predicate IsNodeMap(g: Graph, nodes: map<NodeId, Node>) {
    nodes.Keys == Ids(g) && forall n :: n in g.nodes ==> nodes[n.id] == n
  }

  lemma NodeMapOnto(g: Graph, nodes: map<NodeId, Node>, id: NodeId)
    requires IsNodeMap(g, nodes) && id in nodes
    ensures nodes[id] in g.nodes && nodes[id].id == id
  {
    var n :| n in g.nodes && n.id == id;
  }

  method NodeMap(g: Graph) returns (nodes: map<NodeId, Node>)
    requires DistinctNodes(g)
    ensures IsNodeMap(g, nodes)
  {
    nodes := map[];
    var i := 0;
    while i < |g.nodes|
      invariant 0 <= i <= |g.nodes|
      invariant forall id :: id in nodes <==> exists j :: 0 <= j < i && g.nodes[j].id == id
      invariant forall j :: 0 <= j < i ==> g.nodes[j].id in nodes && nodes[g.nodes[j].id] == g.nodes[j]
    {
      nodes := nodes[g.nodes[i].id := g.nodes[i]];
      i := i + 1;
    }
  }

  method CheckNodes(reg: Registry, g: Graph) returns (ok: bool)
    ensures ok <==> AllNodesOk(reg, g)
  {
    var i := 0;
    while i < |g.nodes|
      invariant 0 <= i <= |g.nodes|
      invariant forall j :: 0 <= j < i ==> NodeOk(reg, g.nodes[j])
    {
      if !NodeOk(reg, g.nodes[i]) {
        return false;
      }
      i := i + 1;
    }
    ok := true;
  }

  /** Which slots some edge feeds, counted. */
  ghost predicate IncomingOf(edges: seq<Edge>, incoming: map<(NodeId, Slot), nat>) {
    forall n: NodeId, slot: Slot {:trigger (n, slot) in incoming} ::
      ((n, slot) in incoming && incoming[(n, slot)] > 0) <==> exists e :: e in edges && Feeds(e, n, slot)
  }

  lemma IndexStep(edges: seq<Edge>, i: nat, n: NodeId)
    requires i < |edges|
    ensures Targets(edges[..i + 1], n) == Targets(edges[..i], n) + if edges[i].src == n then [edges[i].dst] else []
    ensures InCount(edges[..i + 1], n, {}) == InCount(edges[..i], n, {}) + if edges[i].dst == n then 1 else 0
  {
    assert edges[..i + 1][..i] == edges[..i];
  }

  lemma AdjacencyStep(edges: seq<Edge>, i: nat, nodes: set<NodeId>, adjacency: map<NodeId, seq<NodeId>>)
    requires i < |edges| && AdjacencyOf(edges[..i], nodes, adjacency)
    ensures AdjacencyOf(edges[..i + 1], nodes, adjacency[edges[i].src := At(adjacency, edges[i].src) + [edges[i].dst]])
  {
    forall n | n in nodes
      ensures At(adjacency[edges[i].src := At(adjacency, edges[i].src) + [edges[i].dst]], n)
              == Targets(edges[..i + 1], n)
    {
      assert At(adjacency, n) == Targets(edges[..i], n);
      IndexStep(edges, i, n);
    }
  }

  lemma CountsStep(edges: seq<Edge>, i: nat, nodes: set<NodeId>, indegree: map<NodeId, nat>)
    requires i < |edges| && Counts(edges[..i], nodes, indegree, {}) && edges[i].dst in nodes && edges[i].src in nodes
    ensures Counts(edges[..i + 1], nodes, indegree[edges[i].dst := indegree[edges[i].dst] + 1], {})
  {
    forall n | n in nodes
      ensures indegree[edges[i].dst := indegree[edges[i].dst] + 1][n] == InCount(edges[..i + 1], n, {})
    {
      IndexStep(edges, i, n);
    }
  }

  lemma IncomingStep(edges: seq<Edge>, i: nat, incoming: map<(NodeId, Slot), nat>, incoming': map<(NodeId, Slot), nat>)
    requires i < |edges| && IncomingOf(edges[..i], incoming)
    requires var key := (edges[i].dst, edges[i].inp);
             incoming' == incoming[key := 1 + if key in incoming then incoming[key] else 0]
    ensures IncomingOf(edges[..i + 1], incoming')
  {
    assert edges[..i + 1] == edges[..i] + [edges[i]];
    forall n: NodeId, slot: Slot
      ensures ((n, slot) in incoming' && incoming'[(n, slot)] > 0) <==>
              exists e :: e in edges[..i + 1] && Feeds(e, n, slot)
    {
      assert ((n, slot) in incoming && incoming[(n, slot)] > 0) <==>
             exists e :: e in edges[..i] && Feeds(e, n, slot);
      if (n, slot) == (edges[i].dst, edges[i].inp) {
        assert edges[i] in edges[..i + 1] && Feeds(edges[i], n, slot);
      }
    }
  }

  /** What the loop over the edges has established after the first i of them. */
  ghost predicate Indexed(reg: Registry, g: Graph, i: nat, adjacency: map<NodeId, seq<NodeId>>,
                          indegree: map<NodeId, nat>, incoming: map<(NodeId, Slot), nat>)
    requires i <= |g.edges|
  {
    && (forall j :: 0 <= j < i ==> EdgeOk(reg, g, g.edges[j]))
    && AdjacencyOf(g.edges[..i], Ids(g), adjacency)
    && Counts(g.edges[..i], Ids(g), indegree, {})
    && IncomingOf(g.edges[..i], incoming)
  }

  lemma IndexedStep(reg: Registry, g: Graph, i: nat, adjacency: map<NodeId, seq<NodeId>>, indegree: map<NodeId, nat>,
                    incoming: map<(NodeId, Slot), nat>)
    requires i < |g.edges| && Indexed(reg, g, i, adjacency, indegree, incoming) && EdgeOk(reg, g, g.edges[i])
    ensures g.edges[i].dst in indegree
    ensures var e := g.edges[i];
            var key := (e.dst, e.inp);
            Indexed(reg, g, i + 1, adjacency[e.src := At(adjacency, e.src) + [e.dst]],
                    indegree[e.dst := indegree[e.dst] + 1],
                    incoming[key := 1 + if key in incoming then incoming[key] else 0])
  {
    var e := g.edges[i];
    var key := (e.dst, e.inp);
    AdjacencyStep(g.edges, i, Ids(g), adjacency);
    CountsStep(g.edges, i, Ids(g), indegree);
    IncomingStep(g.edges, i, incoming, incoming[key := 1 + if key in incoming then incoming[key] else 0]);
  }

  lemma IndexedAll(reg: Registry, g: Graph, adjacency: map<NodeId, seq<NodeId>>, indegree: map<NodeId, nat>,
                   incoming: map<(NodeId, Slot), nat>)
    requires Indexed(reg, g, |g.edges|, adjacency, indegree, incoming)
    ensures AllEdgesOk(reg, g) && Closed(Ids(g), g.edges) && AdjacencyOf(g.edges, Ids(g), adjacency)
    ensures Counts(g.edges, Ids(g), indegree, {}) && IncomingOf(g.edges, incoming)
  {
    assert g.edges[..|g.edges|] == g.edges;
    EdgesClosed(reg, g);
  }

  /** The loop over the edges: it stops at the first bad one, and otherwise returns the
      adjacency lists, the indegrees and the fed slots of the whole graph. */
  method IndexEdges(reg: Registry, g: Graph, nodes: map<NodeId, Node>)
    returns (ok: bool, adjacency: map<NodeId, seq<NodeId>>, indegree: map<NodeId, nat>,
             incoming: map<(NodeId, Slot), nat>)
    requires IsNodeMap(g, nodes)
    ensures ok <==> AllEdgesOk(reg, g)
    ensures ok ==> Closed(Ids(g), g.edges) && AdjacencyOf(g.edges, Ids(g), adjacency)
    ensures ok ==> Counts(g.edges, Ids(g), indegree, {}) && IncomingOf(g.edges, incoming)
  {
    adjacency, indegree, incoming := map[], map n | n in nodes.Keys :: 0, map[];
    var i := 0;
    while i < |g.edges|
      invariant 0 <= i <= |g.edges|
      invariant Indexed(reg, g, i, adjacency, indegree, incoming)
    {
      var e := g.edges[i];
      ok := CheckEdge(reg, g, nodes, e);
      if !ok {
        return;
      }
      IndexedStep(reg, g, i, adjacency, indegree, incoming);
      adjacency := adjacency[e.src := At(adjacency, e.src) + [e.dst]];
      indegree := indegree[e.dst := indegree[e.dst] + 1];
      var key := (e.dst, e.inp);
      incoming := incoming[key := 1 + if key in incoming then incoming[key] else 0];
      i := i + 1;
    }
    IndexedAll(reg, g, adjacency, indegree, incoming);
    ok := true;
  }

  method CheckEdge(reg: Registry, g: Graph, nodes: map<NodeId, Node>, e: Edge) returns (ok: bool)
    requires IsNodeMap(g, nodes)
    ensures ok <==> EdgeOk(reg, g, e)
    ensures ok ==> e.src in nodes && e.dst in nodes
  {
    if e.src !in nodes || e.dst !in nodes {
      return false;
    }
    NodeMapOnto(g, nodes, e.src);
    NodeMapOnto(g, nodes, e.dst);
    ok := EdgeJoins(reg, nodes[e.src], nodes[e.dst], e);
  }

  /** The loop that collects the entry nodes and stops at the first unbound slot. */
  method FindEntries(g: Graph, incoming: map<(NodeId, Slot), nat>) returns (ok: bool, entries: seq<NodeId>)
    requires IncomingOf(g.edges, incoming)
    ensures ok <==> AllBound(g)
    ensures ok ==> entries == EntriesOf(g, g.nodes)
  {
    entries := [];
    var i := 0;
    while i < |g.nodes|
      invariant 0 <= i <= |g.nodes|
      invariant forall j, slot :: 0 <= j < i && slot in g.nodes[j].inputs ==> Bound(g, g.nodes[j], slot)
      invariant entries == EntriesOf(g, g.nodes[..i])
    {
      var n := g.nodes[i];
      assert g.nodes[..i + 1][..i] == g.nodes[..i];
      if IsEntry(g, n) {
        entries := entries + [n.id];
      }
      var unbound := set slot | slot in n.inputs && slot !in g.initialSlots &&
                                !((n.id, slot) in incoming && incoming[(n.id, slot)] > 0);
      forall slot | slot in n.inputs ensures slot in unbound <==> !Bound(g, n, slot) {
        var fed := (n.id, slot) in incoming;
      }
      if unbound != {} {
        assert exists slot :: slot in unbound;
        return false, [];
      }
      i := i + 1;
    }
    ok := true;
    assert g.nodes[..i] == g.nodes;
  }

  method FindProducers(g: Graph) returns (producers: seq<NodeId>)
    ensures producers == ProducersOf(g, g.nodes)
  {
    producers := [];
    var i := 0;
    while i < |g.nodes|
      invariant 0 <= i <= |g.nodes|
      invariant producers == ProducersOf(g, g.nodes[..i])
    {
      assert g.nodes[..i + 1][..i] == g.nodes[..i];
      if Produces(g, g.nodes[i]) {
        producers := producers + [g.nodes[i].id];
      }
      i := i + 1;
    }
    assert g.nodes[..i] == g.nodes;
  }

  /* ---------- reachability ---------- */

  ghost predicate ClosedUnder(edges: seq<Edge>, s: set<NodeId>) {
    forall e :: e in edges && e.src in s ==> e.dst in s
  }

  /** A set that holds the starts and is closed under edges holds everything reachable. */
  lemma {:induction false} ReachesStaysIn(edges: seq<Edge>, starts: set<NodeId>, s: set<NodeId>, w: seq<NodeId>)
    requires starts <= s && ClosedUnder(edges, s) && IsWalk(edges, w) && w[0] in starts
    ensures w[|w| - 1] in s
  {
    if |w| >= 2 {
      WalkPrefix(edges, w);
      ReachesStaysIn(edges, starts, s, w[..|w| - 1]);
    }
  }

  lemma ReachesStart(edges: seq<Edge>, starts: set<NodeId>, n: NodeId)
    requires n in starts
    ensures Reaches(edges, starts, n)
  {
    assert IsWalk(edges, [n]) && [n][0] in starts && [n][|[n]| - 1] == n;
  }

  lemma ReachesNext(edges: seq<Edge>, starts: set<NodeId>, a: NodeId, b: NodeId)
    requires Reaches(edges, starts, a) && Linked(edges, a, b)
    ensures Reaches(edges, starts, b)
  {
    var w :| IsWalk(edges, w) && w[0] in starts && w[|w| - 1] == a;
    WalkExtend(edges, w, b);
    assert (w + [b])[0] in starts && (w + [b])[|w + [b]| - 1] == b;
  }

  ghost predicate AllReached(edges: seq<Edge>, starts: set<NodeId>, s: set<NodeId>) {
    forall n :: n in s ==> Reaches(edges, starts, n)
  }

  /** One pass over a snapshot of the reachable nodes, adding targets as it goes. */
  method Sweep(edges: seq<Edge>, ghost nodes: set<NodeId>, adjacency: map<NodeId, seq<NodeId>>,
               ghost starts: set<NodeId>, snapshot: set<NodeId>) returns (reachable: set<NodeId>, changed: bool)
    requires Closed(nodes, edges) && AdjacencyOf(edges, nodes, adjacency)
    requires snapshot <= nodes && AllReached(edges, starts, snapshot)
    ensures snapshot <= reachable <= nodes && AllReached(edges, starts, reachable)
    ensures changed <==> reachable != snapshot
    ensures !changed ==> ClosedUnder(edges, snapshot)
  {
    reachable, changed := snapshot, false;
    var todo := snapshot;
    while todo != {}
      invariant todo <= snapshot <= reachable <= nodes && AllReached(edges, starts, reachable)
      invariant changed <==> reachable != snapshot
      invariant forall x, t :: x in snapshot - todo && Linked(edges, x, t) ==> t in reachable
      decreases todo
    {
      var source :| source in todo;
      ghost var before := reachable;
      reachable, changed := Visit(edges, nodes, starts, source, At(adjacency, source), snapshot, reachable, changed);
      todo := todo - {source};
    }
    forall e | e in edges && e.src in snapshot ensures !changed ==> e.dst in snapshot {
      assert Linked(edges, e.src, e.dst);
    }
  }

  method Visit(edges: seq<Edge>, ghost nodes: set<NodeId>, ghost starts: set<NodeId>, source: NodeId,
               targets: seq<NodeId>, ghost snapshot: set<NodeId>, before: set<NodeId>, changedBefore: bool)
    returns (reachable: set<NodeId>, changed: bool)
    requires Closed(nodes, edges) && targets == Targets(edges, source) && source in snapshot
    requires snapshot <= before <= nodes && AllReached(edges, starts, before)
    requires changedBefore <==> before != snapshot
    ensures before <= reachable <= nodes && AllReached(edges, starts, reachable)
    ensures changed <==> reachable != snapshot
    ensures forall t :: Linked(edges, source, t) ==> t in reachable
  {
    reachable, changed := before, changedBefore;
    var q := 0;
    while q < |targets|
      invariant 0 <= q <= |targets|
      invariant before <= reachable <= nodes && AllReached(edges, starts, reachable)
      invariant changed <==> reachable != snapshot
      invariant forall p :: 0 <= p < q ==> targets[p] in reachable
    {
      var target := targets[q];
      if target !in reachable {
        assert Linked(edges, source, target);
        ReachesNext(edges, starts, source, target);
        reachable := reachable + {target};
        changed := true;
        assert target !in snapshot;
      }
      q := q + 1;
    }
  }

  /** The snapshot loop computes exactly the nodes reachable from the entries. */
  method Reach(edges: seq<Edge>, nodes: set<NodeId>, adjacency: map<NodeId, seq<NodeId>>, starts: set<NodeId>)
    returns (reachable: set<NodeId>)
    requires Closed(nodes, edges) && AdjacencyOf(edges, nodes, adjacency) && starts <= nodes
    ensures forall n :: n in reachable <==> Reaches(edges, starts, n)
  {
    reachable := starts;
    var changed := true;
    forall n | n in starts ensures Reaches(edges, starts, n) {
      ReachesStart(edges, starts, n);
    }
    while changed
      invariant starts <= reachable <= nodes && AllReached(edges, starts, reachable)
      invariant !changed ==> ClosedUnder(edges, reachable)
      decreases nodes - reachable, changed
    {
      reachable, changed := Sweep(edges, nodes, adjacency, starts, reachable);
    }
    forall n | Reaches(edges, starts, n) ensures n in reachable {
      var w :| IsWalk(edges, w) && w[0] in starts && w[|w| - 1] == n;
      ReachesStaysIn(edges, starts, reachable, w);
    }
  }

  /** No edge leads to the node. */
  predicate IsRoot(g: Graph, n: Node) {
    forall e | e in g.edges :: e.dst != n.id
  }

  ghost predicate RootsAreEntries(g: Graph) {
    forall n :: n in g.nodes && IsRoot(g, n) ==> IsEntry(g, n)
  }

  ghost predicate AllReachable(g: Graph) {
    forall n :: n in g.nodes ==> Reaches(g.edges, EntryIds(g), n.id)
  }

  lemma RootReachable(g: Graph, n: Node)
    requires RootsAreEntries(g) && n in g.nodes && IsRoot(g, n)
    ensures Reaches(g.edges, EntryIds(g), n.id)
  {
    assert IsEntry(g, n);
    ReachesStart(g.edges, EntryIds(g), n.id);
  }

  ghost predicate SetReached(g: Graph, s: set<NodeId>) {
    AllReached(g.edges, EntryIds(g), s)
  }

  lemma PeeledNext(g: Graph, gone: set<NodeId>, n: Node)
    requires RootsAreEntries(g) && n in g.nodes && SetReached(g, gone) && ParentsIn(g.edges, n.id, gone)
    ensures Reaches(g.edges, EntryIds(g), n.id)
  {
    if IsRoot(g, n) {
      RootReachable(g, n);
    } else {
      var e :| e in g.edges && e.dst == n.id;
      ReachesNext(g.edges, EntryIds(g), e.src, n.id);
    }
  }

  /** Whatever the rounds remove is reachable. */
  lemma {:induction false} PeeledReachable(g: Graph, i: nat)
    requires RootsAreEntries(g)
    ensures SetReached(g, Peeled(Ids(g), g.edges, i))
  {
    if i > 0 {
      PeeledReachable(g, i - 1);
      forall id | id in Peeled(Ids(g), g.edges, i) ensures Reaches(g.edges, EntryIds(g), id) {
        var n :| n in g.nodes && n.id == id;
        PeeledNext(g, Peeled(Ids(g), g.edges, i - 1), n);
      }
    }
  }

  lemma ReachableRootIsEntry(g: Graph, n: Node)
    requires DistinctNodes(g) && n in g.nodes && IsRoot(g, n) && Reaches(g.edges, EntryIds(g), n.id)
    ensures IsEntry(g, n)
  {
    var w :| IsWalk(g.edges, w) && w[0] in EntryIds(g) && w[|w| - 1] == n.id;
    if |w| >= 2 {
      WalkPrefix(g.edges, w);
    }
  }

  /** In an acyclic graph every node can be reached from the entries exactly if every node that no
      edge leads to is an entry. */
  lemma AllReachableIff(g: Graph)
    requires DistinctNodes(g) && Closed(Ids(g), g.edges) && Acyclic(g.edges)
    ensures AllReachable(g) <==> RootsAreEntries(g)
  {
    if RootsAreEntries(g) {
      AcyclicPeels(Ids(g), g.edges);
      PeeledReachable(g, |Ids(g)|);
      assert SetReached(g, Ids(g));
    }
    if AllReachable(g) {
      forall n | n in g.nodes && IsRoot(g, n) ensures IsEntry(g, n) {
        ReachableRootIsEntry(g, n);
      }
    }
  }

  /** The slots of the nodes that no edge leads to have the types of the initial slots they name. */
  ghost predicate RootSlotsMatch(g: Graph) {
    forall n: Node, slot :: n in g.nodes && IsRoot(g, n) && slot in n.inputs && slot in g.initialSlots ==>
      g.initialSlots[slot] == n.inputs[slot]
  }

  /** In a graph without unbound slots, that is what it takes. */
  lemma BoundRootsMatch(g: Graph)
    requires AllBound(g)
    ensures RootsAreEntries(g) <==> RootSlotsMatch(g)
  {
    if RootSlotsMatch(g) {
      forall n | n in g.nodes && IsRoot(g, n) ensures IsEntry(g, n) {
        forall slot | slot in n.inputs ensures slot in g.initialSlots && g.initialSlots[slot] == n.inputs[slot] {
          assert Bound(g, n, slot);
        }
      }
    }
  }

  lemma EdgesClosed(reg: Registry, g: Graph)
    requires AllEdgesOk(reg, g)
    ensures Closed(Ids(g), g.edges)
  {
    forall e | e in g.edges ensures e.src in Ids(g) && e.dst in Ids(g) {
      assert EdgeOk(reg, g, e);
    }
  }

  lemma AcyclicPeels(nodes: set<NodeId>, edges: seq<Edge>)
    requires Closed(nodes, edges) && Acyclic(edges)
    ensures Peeled(nodes, edges, |nodes|) == nodes
  {
    forall n | n in nodes ensures n in Peeled(nodes, edges, |nodes|) {
      if n !in Peeled(nodes, edges, |nodes|) {
        CycleFromLongWalk(nodes, edges, |nodes|, n);
      }
    }
  }

  lemma ProducerReached(g: Graph)
    requires AllReachable(g) && ProducerIds(g) != {}
    ensures SomeProducerReached(g)
  {
    var p :| p in ProducerIds(g);
    assert Reaches(g.edges, EntryIds(g), p);
  }

  /** Then "declared final output is unreachable" is never reported. */
  lemma UnreachableNeverFires(reg: Registry, g: Graph)
    requires RootSlotsMatch(g)
    ensures Verdict(reg, g) != Some(FinalUnreachable)
  {
    if DistinctNodes(g) && AllEdgesOk(reg, g) && AllBound(g) && Acyclic(g.edges) && ProducerIds(g) != {} {
      EdgesClosed(reg, g);
      BoundRootsMatch(g);
      AllReachableIff(g);
      ProducerReached(g);
    }
  }

  /** It does fire when they disagree: the one producer reads a slot the bundle has under
      another schema, so it is no entry, and no edge feeds it. */
  lemma UnreachableCanFire(reg: Registry)
    requires 0 in reg.transforms
    ensures exists g :: Verdict(reg, g) == Some(FinalUnreachable)
  {
    var source := Node(1, Transform(0), map[7 := 1], map[8 := 2]);
    var sink := Node(2, Transform(0), map[7 := 3], map[9 := 4]);
    var g := Graph([source, sink], [], map[7 := 1], 9, 0);
    assert EntryIds(g) == {1} by {
      assert IsEntry(g, source) && source in g.nodes;
      assert 7 in sink.inputs && !IsEntry(g, sink);
    }
    assert ProducerIds(g) == {2} by {
      assert Produces(g, sink) && sink in g.nodes;
    }
    forall w | IsWalk(g.edges, w) ensures |w| == 1 {
      if |w| >= 2 {
        WalkPrefix(g.edges, w);
      }
    }
    forall n: Node, slot | n in g.nodes && slot in n.inputs ensures Bound(g, n, slot) {
    }
    assert !SomeProducerReached(g);
    assert Verdict(reg, g) == Some(FinalUnreachable);
  }

  /* ---------- the compiler ---------- */

  method CheckIds(g: Graph) returns (nodesDistinct: bool, edgesDistinct: bool)
    ensures nodesDistinct <==> DistinctNodes(g)
    ensures edgesDistinct <==> DistinctEdges(g)
  {
    var nodeIds := seq(|g.nodes|, i requires 0 <= i < |g.nodes| => g.nodes[i].id);
    DistinctSize(nodeIds);
    nodesDistinct := |Elements(nodeIds)| == |nodeIds|;
    assert Distinct(nodeIds) <==> DistinctNodes(g) by {
      assert forall i :: 0 <= i < |g.nodes| ==> nodeIds[i] == g.nodes[i].id;
    }
    var edgeIds := seq(|g.edges|, i requires 0 <= i < |g.edges| => g.edges[i].id);
    DistinctSize(edgeIds);
    edgesDistinct := |Elements(edgeIds)| == |edgeIds|;
    assert Distinct(edgeIds) <==> DistinctEdges(g) by {
      assert forall i :: 0 <= i < |g.edges| ==> edgeIds[i] == g.edges[i].id;
    }
  }

  /** The checks on slots, types and bindings, up to the layering. */
  method CheckDeclarations(reg: Registry, g: Graph)
    returns (error: Option<CompileError>, adjacency: map<NodeId, seq<NodeId>>, indegree: map<NodeId, nat>,
             entries: seq<NodeId>)
    ensures error.Some? ==> Verdict(reg, g) == error
    ensures error.None? ==> DistinctNodes(g) && DistinctEdges(g) && AllNodesOk(reg, g) && AllEdgesOk(reg, g)
    ensures error.None? ==> AllBound(g) && EntryIds(g) != {} && entries == EntriesOf(g, g.nodes)
    ensures error.None? ==> Closed(Ids(g), g.edges) && AdjacencyOf(g.edges, Ids(g), adjacency)
    ensures error.None? ==> Counts(g.edges, Ids(g), indegree, {})
  {
    adjacency, indegree, entries := map[], map[], [];
    var nodesDistinct, edgesDistinct := CheckIds(g);
    if !nodesDistinct {
      return Some(DuplicateNodeIds), adjacency, indegree, entries;
    }
    if !edgesDistinct {
      return Some(DuplicateEdgeIds), adjacency, indegree, entries;
    }
    var nodes := NodeMap(g);
    var ok := CheckNodes(reg, g);
    if !ok {
      return Some(BadNode), adjacency, indegree, entries;
    }
    var incoming;
    ok, adjacency, indegree, incoming := IndexEdges(reg, g, nodes);
    if !ok {
      return Some(BadEdge), adjacency, indegree, entries;
    }
    ok, entries := FindEntries(g, incoming);
    if !ok {
      return Some(UnboundSlot), adjacency, indegree, entries;
    }
    EntriesNone(g);
    if entries == [] {
      return Some(NoEntryNode), adjacency, indegree, entries;
    }
    error := None;
  }

  /** The check that a final producer exists and can be reached. */
  method CheckFinal(g: Graph, adjacency: map<NodeId, seq<NodeId>>)
    returns (error: Option<CompileError>, producers: seq<NodeId>)
    requires Closed(Ids(g), g.edges) && AdjacencyOf(g.edges, Ids(g), adjacency)
    ensures producers == ProducersOf(g, g.nodes)
    ensures error == if ProducerIds(g) == {} then Some(NoFinalProducer)
                     else if !SomeProducerReached(g) then Some(FinalUnreachable) else None
  {
    producers := FindProducers(g);
    assert forall x :: x in ProducerIds(g) <==> x in producers;
    if producers == [] {
      return Some(NoFinalProducer), producers;
    }
    assert producers[0] in ProducerIds(g);
    var reachable := Reach(g.edges, Ids(g), adjacency, EntryIds(g));
    if forall p | p in producers :: p !in reachable {
      return Some(FinalUnreachable), producers;
    }
    error := None;
  }

  /** `GraphCompiler.compile`: the first failing check is reported, and a graph that passes
      them all comes with its layering, entries and producers. */
  method Compile(reg: Registry, g: Graph) returns (r: Result<CompiledGraph>)
    ensures r.Err? ==> Verdict(reg, g) == Some(r.error)
    ensures r.Ok? ==> Verdict(reg, g).None? && IsCompiled(g, r.value)
  {
    var error, adjacency, indegree, entries := CheckDeclarations(reg, g);
    if error.Some? {
      return Err(error.value);
    }
    var waves, visited := Layer(g.edges, Ids(g), adjacency, indegree);
    if visited != |Ids(g)| {
      return Err(CyclicGraph);
    }
    var producers;
    error, producers := CheckFinal(g, adjacency);
    if error.Some? {
      return Err(error.value);
    }
    ConditionalCount(g.edges);
    r := Ok(CompiledGraph(g, entries, waves, |Conditional(g.edges)|, producers));
  }
}
