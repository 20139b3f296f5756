/** `Scheduler`: which artifact feeds each slot, which nodes are ready, which are impossible. */
module Scheduling {
  import opened Types
  import opened Sorting

  /** `next(node for node in graph.nodes if node.node_id == id)`. */
  function NodeOf(nodes: seq<Node>, id: NodeId): (n: Node)
    requires exists m :: m in nodes && m.id == id
    ensures n in nodes && n.id == id
  {
    if nodes[0].id == id then nodes[0]
    else
      assert nodes == [nodes[0]] + nodes[1..];
      NodeOf(nodes[1..], id)
  }

  ghost predicate UniqueNodes(g: Graph) {
    forall m, n :: m in g.nodes && n in g.nodes && m.id == n.id ==> m == n
  }

  /** The state has a status for every node and for every source of an edge. */
  ghost predicate Tracks(g: Graph, s: State) {
    s.status.Keys == Ids(g) && forall e :: e in g.edges ==> e.src in s.status
  }

  /* ---------- what the scheduler decides ---------- */

  /** The edges into one slot, in graph order. */
  function EdgesInto(edges: seq<Edge>, n: NodeId, slot: Slot): (r: seq<Edge>)
    ensures forall e :: e in r <==> e in edges && Feeds(e, n, slot)
  {
    if edges == [] then []
    else
      var last := edges[|edges| - 1];
      assert edges == edges[..|edges| - 1] + [last];
      var init := EdgesInto(edges[..|edges| - 1], n, slot);
      if Feeds(last, n, slot) then init + [last] else init
  }

  /** The edge is active and its source has a (non-empty) artifact id on that output. */
  predicate Available(s: State, e: Edge) {
    e.id in s.active && e.src in s.outputs && e.out in s.outputs[e.src] && s.outputs[e.src][e.out] != EMPTY_ID
  }

  function FirstAvailable(s: State, edges: seq<Edge>): (r: Option<ArtifactId>)
    ensures r.Some? <==> exists e :: e in edges && Available(s, e)
    ensures r.Some? ==> exists e :: e in edges && Available(s, e) && r.value == s.outputs[e.src][e.out]
  {
    if edges == [] then None
    else if Available(s, edges[0]) then Some(s.outputs[edges[0].src][edges[0].out])
    else
      assert edges == [edges[0]] + edges[1..];
      FirstAvailable(s, edges[1..])
  }

  function ResolvedId(g: Graph, s: State, n: NodeId, slot: Slot): Option<ArtifactId> {
    if slot in s.initial then Some(s.initial[slot]) else FirstAvailable(s, EdgesInto(g.edges, n, slot))
  }

  lemma {:induction false} FirstAppend(s: State, edges: seq<Edge>, e: Edge)
    ensures FirstAvailable(s, edges + [e]) ==
            if FirstAvailable(s, edges).Some? then FirstAvailable(s, edges)
            else if Available(s, e) then Some(s.outputs[e.src][e.out]) else None
  {
    if edges == [] {
      assert [e][1..] == [];
    } else {
      assert (edges + [e])[1..] == edges[1..] + [e];
      FirstAppend(s, edges[1..], e);
    }
  }

  /** The edge at this position feeds the slot, is active, and its source has delivered that output under
      an id. */
  ghost predicate OffersAt(edges: seq<Edge>, s: State, n: NodeId, slot: Slot, i: nat)
    requires i < |edges|
  {
    var e := edges[i];
    && e.dst == n && e.inp == slot && e.id in s.active
    && e.src in s.outputs && e.out in s.outputs[e.src] && s.outputs[e.src][e.out] != EMPTY_ID
  }

  /** No edge before this position does. */
  ghost predicate FirstAt(edges: seq<Edge>, s: State, n: NodeId, slot: Slot, i: nat)
    requires i < |edges|
  {
    OffersAt(edges, s, n, slot, i) && forall j :: 0 <= j < i ==> !OffersAt(edges, s, n, slot, j)
  }

  lemma OffersInit(edges: seq<Edge>, s: State, n: NodeId, slot: Slot, i: nat)
    requires i < |edges| - 1
    ensures OffersAt(edges[..|edges| - 1], s, n, slot, i) <==> OffersAt(edges, s, n, slot, i)
  {
    assert edges[..|edges| - 1][i] == edges[i];
  }

  lemma {:induction false} SomeOffers(edges: seq<Edge>, s: State, n: NodeId, slot: Slot)
    ensures FirstAvailable(s, EdgesInto(edges, n, slot)).Some? <==>
            exists i :: 0 <= i < |edges| && OffersAt(edges, s, n, slot, i)
  {
    if i :| 0 <= i < |edges| && OffersAt(edges, s, n, slot, i) {
      assert edges[i] in EdgesInto(edges, n, slot) && Available(s, edges[i]);
    }
    if FirstAvailable(s, EdgesInto(edges, n, slot)).Some? {
      var e :| e in EdgesInto(edges, n, slot) && Available(s, e);
      var i :| 0 <= i < |edges| && edges[i] == e;
      assert OffersAt(edges, s, n, slot, i);
    }
  }

  lemma {:induction false} FirstInOrder(edges: seq<Edge>, s: State, n: NodeId, slot: Slot, i: nat)
    requires i < |edges| && FirstAt(edges, s, n, slot, i)
    ensures FirstAvailable(s, EdgesInto(edges, n, slot)) == Some(s.outputs[edges[i].src][edges[i].out])
  {
    var last, init := |edges| - 1, edges[..|edges| - 1];
    FirstAppend(s, EdgesInto(init, n, slot), edges[last]);
    if i < last {
      FirstInit(edges, s, n, slot, i);
      FirstInOrder(init, s, n, slot, i);
    } else {
      NoneInit(edges, s, n, slot);
    }
  }

  lemma FirstInit(edges: seq<Edge>, s: State, n: NodeId, slot: Slot, i: nat)
    requires i < |edges| - 1 && FirstAt(edges, s, n, slot, i)
    ensures FirstAt(edges[..|edges| - 1], s, n, slot, i)
  {
    var init := edges[..|edges| - 1];
    OffersInit(edges, s, n, slot, i);
    forall j | 0 <= j < i ensures !OffersAt(init, s, n, slot, j) {
      OffersInit(edges, s, n, slot, j);
    }
  }

  lemma NoneInit(edges: seq<Edge>, s: State, n: NodeId, slot: Slot)
    requires edges != [] && FirstAt(edges, s, n, slot, |edges| - 1)
    ensures FirstAvailable(s, EdgesInto(edges[..|edges| - 1], n, slot)).None?
  {
    var init := edges[..|edges| - 1];
    SomeOffers(init, s, n, slot);
    if j :| 0 <= j < |init| && OffersAt(init, s, n, slot, j) {
      OffersInit(edges, s, n, slot, j);
      assert false;
    }
  }

  /** A slot gets its initial artifact if there is one, and otherwise the output of the first edge in graph order
      that offers one. */
  lemma FirstEdgeWins(g: Graph, s: State, n: NodeId, slot: Slot)
    ensures slot in s.initial ==> ResolvedId(g, s, n, slot) == Some(s.initial[slot])
    ensures ResolvedId(g, s, n, slot).Some? <==>
      slot in s.initial || exists i :: 0 <= i < |g.edges| && OffersAt(g.edges, s, n, slot, i)
    ensures slot !in s.initial ==>
      forall i :: 0 <= i < |g.edges| && FirstAt(g.edges, s, n, slot, i) ==>
        ResolvedId(g, s, n, slot) == Some(s.outputs[g.edges[i].src][g.edges[i].out])
  {
    SomeOffers(g.edges, s, n, slot);
    forall i | 0 <= i < |g.edges| && FirstAt(g.edges, s, n, slot, i) && slot !in s.initial
      ensures ResolvedId(g, s, n, slot) == Some(s.outputs[g.edges[i].src][g.edges[i].out])
    {
      FirstInOrder(g.edges, s, n, slot, i);
    }
  }

  /** Every input slot has an artifact. */
  predicate Fed(g: Graph, s: State, n: Node) {
    forall slot | slot in n.inputs :: ResolvedId(g, s, n.id, slot).Some?
  }

  predicate IsReady(g: Graph, s: State, n: Node)
    requires n.id in s.status
  {
    s.status[n.id] == Pending && Fed(g, s, n)
  }

  ghost function ReadySet(g: Graph, s: State): set<NodeId>
    requires Tracks(g, s)
  {
    set n | n in g.nodes && IsReady(g, s, n) :: n.id
  }

  /** The ready nodes by id, cut to the first k. */
  ghost function ReadyList(g: Graph, s: State, k: int): seq<NodeId>
    requires Tracks(g, s)
  {
    Slice(Sorted(ReadySet(g, s)), k)
  }

  /** The edge will never carry anything. */
  predicate Dead(s: State, e: Edge)
    requires e.src in s.status
  {
    e.id in s.inactive || s.status[e.src] in {Failed, Skipped, Cancelled}
  }

  predicate Starved(g: Graph, s: State, n: NodeId, slot: Slot)
    requires forall e :: e in g.edges ==> e.src in s.status
  {
    && slot !in s.initial
    && EdgesInto(g.edges, n, slot) != []
    && forall e | e in EdgesInto(g.edges, n, slot) :: Dead(s, e)
  }

  predicate IsImpossible(g: Graph, s: State, n: Node)
    requires n.id in s.status && forall e :: e in g.edges ==> e.src in s.status
  {
    s.status[n.id] == Pending && exists slot | slot in n.inputs :: Starved(g, s, n.id, slot)
  }

  ghost function ImpossibleSet(g: Graph, s: State): set<NodeId>
    requires Tracks(g, s)
  {
    set n | n in g.nodes && IsImpossible(g, s, n) :: n.id
  }

  /** The impossible nodes among these, in their order. */
  ghost function ImpossibleOf(g: Graph, s: State, nodes: seq<Node>): (r: seq<NodeId>)
    requires Tracks(g, s) && forall n :: n in nodes ==> n.id in s.status
    ensures forall id :: id in r <==> exists n :: n in nodes && IsImpossible(g, s, n) && n.id == id
  {
    if nodes == [] then []
    else
      var last := nodes[|nodes| - 1];
      assert nodes == nodes[..|nodes| - 1] + [last];
      var init := ImpossibleOf(g, s, nodes[..|nodes| - 1]);
      if IsImpossible(g, s, last) then init + [last.id] else init
  }

  /* ---------- readiness and impossibility, edge by edge ---------- */

  /** A node is ready exactly if it is pending and each slot has an initial artifact or an edge that offers one. */
  lemma ReadyMeans(g: Graph, s: State, n: Node)
    requires n.id in s.status
    ensures IsReady(g, s, n) <==>
      && s.status[n.id] == Pending
      && forall slot :: slot in n.inputs ==>
           slot in s.initial || exists i :: 0 <= i < |g.edges| && OffersAt(g.edges, s, n.id, slot, i)
  {
    forall slot ensures ResolvedId(g, s, n.id, slot).Some? <==>
        slot in s.initial || exists i :: 0 <= i < |g.edges| && OffersAt(g.edges, s, n.id, slot, i)
    {
      FirstEdgeWins(g, s, n.id, slot);
    }
  }

  lemma SomeEdgeInto(edges: seq<Edge>, n: NodeId, slot: Slot)
    ensures EdgesInto(edges, n, slot) != [] <==> exists e :: e in edges && e.dst == n && e.inp == slot
  {
    if EdgesInto(edges, n, slot) != [] {
      assert EdgesInto(edges, n, slot)[0] in EdgesInto(edges, n, slot);
    }
  }

  /** It is impossible exactly if it is pending and some slot has no initial artifact, but edges, each of them
      inactive or from a node that failed or was skipped or cancelled. */
  lemma ImpossibleMeans(g: Graph, s: State, n: Node)
    requires Tracks(g, s) && n.id in s.status
    ensures IsImpossible(g, s, n) <==>
      && s.status[n.id] == Pending
      && exists slot :: slot in n.inputs && slot !in s.initial
           && (exists e :: e in g.edges && e.dst == n.id && e.inp == slot)
           && forall e :: e in g.edges && e.dst == n.id && e.inp == slot ==>
                e.id in s.inactive || s.status[e.src] in {Failed, Skipped, Cancelled}
  {
    forall slot ensures Starved(g, s, n.id, slot) <==>
        && slot !in s.initial
        && (exists e :: e in g.edges && e.dst == n.id && e.inp == slot)
        && forall e :: e in g.edges && e.dst == n.id && e.inp == slot ==>
             e.id in s.inactive || s.status[e.src] in {Failed, Skipped, Cancelled}
    {
      SomeEdgeInto(g.edges, n.id, slot);
    }
  }

  ghost predicate ImpossibleAt(g: Graph, s: State, nodes: seq<Node>, i: nat)
    requires Tracks(g, s) && i < |nodes|
  {
    nodes[i].id in s.status && IsImpossible(g, s, nodes[i])
  }

  /** These are the positions of the impossible nodes. */
  ghost predicate AreImpossible(g: Graph, s: State, nodes: seq<Node>, at: seq<nat>)
    requires Tracks(g, s)
  {
    forall i: nat :: i in at <==> i < |nodes| && ImpossibleAt(g, s, nodes, i)
  }

  lemma ImpossibleNext(g: Graph, s: State, nodes: seq<Node>, at: seq<nat>)
    requires Tracks(g, s) && nodes != [] && AreImpossible(g, s, nodes[..|nodes| - 1], at)
    ensures var last := |nodes| - 1;
      AreImpossible(g, s, nodes, if ImpossibleAt(g, s, nodes, last) then at + [last] else at)
  {
    var init, last := nodes[..|nodes| - 1], |nodes| - 1;
    forall i: nat | i < last ensures ImpossibleAt(g, s, init, i) <==> ImpossibleAt(g, s, nodes, i) {
      assert init[i] == nodes[i];
    }
  }

  /** The impossible nodes are listed in graph order. */
  lemma {:induction false} ImpossibleInOrder(g: Graph, s: State, nodes: seq<Node>) returns (at: seq<nat>)
    requires Tracks(g, s) && forall n :: n in nodes ==> n.id in s.status
    ensures InOrderAt(nodes, ImpossibleOf(g, s, nodes), at) && AreImpossible(g, s, nodes, at)
  {
    at := [];
    if nodes != [] {
      var init, last := nodes[..|nodes| - 1], |nodes| - 1;
      at := ImpossibleInOrder(g, s, init);
      InOrderNext(nodes, ImpossibleOf(g, s, init), at, ImpossibleAt(g, s, nodes, last));
      ImpossibleNext(g, s, nodes, at);
      at := if ImpossibleAt(g, s, nodes, last) then at + [last] else at;
    }
  }

  /** One pass that marks the impossible nodes as skipped. */
  ghost function SkipPass(g: Graph, s: State): (s': State)
    requires Tracks(g, s)
    ensures Tracks(g, s')
  {
    s.(status := map id | id in s.status :: if id in ImpossibleSet(g, s) then Skipped else s.status[id])
  }

  /* ---------- the scheduler ---------- */

  function Lookup(incoming: map<(NodeId, Slot), seq<Edge>>, n: NodeId, slot: Slot): seq<Edge> {
    if (n, slot) in incoming then incoming[(n, slot)] else []
  }

  ghost predicate IncomingOf(edges: seq<Edge>, incoming: map<(NodeId, Slot), seq<Edge>>) {
    forall n, slot :: Lookup(incoming, n, slot) == EdgesInto(edges, n, slot)
  }

  /** The ids a node's slots resolve to; slots without an artifact are absent. */
  function ResolvedInputs(g: Graph, s: State, n: Node): map<Slot, ArtifactId> {
    map slot | slot in n.inputs && ResolvedId(g, s, n.id, slot).Some? :: ResolvedId(g, s, n.id, slot).value
  }

  class Scheduler {
    const maxParallelNodes: int

    constructor (maxParallelNodes: int)
      ensures this.maxParallelNodes == maxParallelNodes
    {
      this.maxParallelNodes := maxParallelNodes;
    }

    method Incoming(g: Graph) returns (incoming: map<(NodeId, Slot), seq<Edge>>)
      ensures IncomingOf(g.edges, incoming)
    {
      incoming := map[];
      var i := 0;
      while i < |g.edges|
        invariant 0 <= i <= |g.edges|
        invariant IncomingOf(g.edges[..i], incoming)
      {
        var e := g.edges[i];
        assert g.edges[..i + 1][..i] == g.edges[..i];
        incoming := incoming[(e.dst, e.inp) := Lookup(incoming, e.dst, e.inp) + [e]];
        i := i + 1;
      }
      assert g.edges[..i] == g.edges;
    }

    /** The scan over one slot's edges, stopping at the first that has an artifact. */
    method ScanEdges(s: State, edges: seq<Edge>) returns (r: Option<ArtifactId>)
      ensures r == FirstAvailable(s, edges)
    {
      var j := 0;
      while j < |edges|
        invariant 0 <= j <= |edges|
        invariant FirstAvailable(s, edges[j..]) == FirstAvailable(s, edges)
      {
        var e := edges[j];
        assert edges[j..][1..] == edges[j + 1..];
        if e.id in s.active {
          var outputs := if e.src in s.outputs then s.outputs[e.src] else map[];
          if e.out in outputs && outputs[e.out] != EMPTY_ID {
            return Some(outputs[e.out]);
          }
        }
        j := j + 1;
      }
      r := None;
    }

    /** An initial artifact wins over the edges. */
    method ResolveSlot(g: Graph, s: State, id: NodeId, slot: Slot, incoming: map<(NodeId, Slot), seq<Edge>>)
      returns (r: Option<ArtifactId>)
      requires IncomingOf(g.edges, incoming)
      ensures r == ResolvedId(g, s, id, slot)
    {
      if slot in s.initial {
        r := Some(s.initial[slot]);
      } else {
        r := ScanEdges(s, Lookup(incoming, id, slot));
      }
    }

    method ResolveInputIds(g: Graph, s: State, id: NodeId) returns (resolved: map<Slot, ArtifactId>)
      requires id in Ids(g)
      ensures resolved == ResolvedInputs(g, s, NodeOf(g.nodes, id))
    {
      var n := NodeOf(g.nodes, id);
      var incoming := Incoming(g);
      resolved := map[];
      var todo := n.inputs.Keys;
      while todo != {}
        invariant todo <= n.inputs.Keys
        invariant ResolvedApartFrom(g, s, n, todo, resolved)
        decreases todo
      {
        var slot :| slot in todo;
        ResolvedStep(g, s, n, todo, resolved, slot);
        var found := ResolveSlot(g, s, id, slot, incoming);
        if found.Some? {
          resolved := resolved[slot := found.value];
        }
        todo := todo - {slot};
      }
      ResolvedAll(g, s, n, resolved);
    }

    method FindReadyNodes(g: Graph, s: State) returns (r: seq<NodeId>)
      requires UniqueNodes(g) && Tracks(g, s)
      ensures r == ReadyList(g, s, maxParallelNodes)
    {
      var ids := Sorted(Ids(g));
      var ready: seq<NodeId> := [];
      ghost var all := ReadySet(g, s);
      var i := 0;
      while i < |ids|
        invariant 0 <= i <= |ids|
        invariant Picked(ids, i, all, ready)
      {
        var id := ids[i];
        assert id in ids;
        var n := NodeOf(g.nodes, id);
        assert IsReady(g, s, n) <==> id in all;
        PickedStep(ids, i, all, ready);
        if s.status[id] == Pending {
          var resolved := ResolveInputIds(g, s, id);
          FedIff(g, s, n);
          if resolved.Keys == n.inputs.Keys {
            ready := ready + [id];
          }
        }
        i := i + 1;
      }
      assert ids[..i] == ids;
      SortedUnique(ready, all);
      r := Slice(ready, maxParallelNodes);
    }

    method ImpossibleNodes(g: Graph, s: State) returns (impossible: seq<NodeId>)
      requires UniqueNodes(g) && Tracks(g, s)
      ensures impossible == ImpossibleOf(g, s, g.nodes)
      ensures forall id :: id in impossible <==> id in ImpossibleSet(g, s)
    {
      var incoming := Incoming(g);
      impossible := [];
      var i := 0;
      while i < |g.nodes|
        invariant 0 <= i <= |g.nodes|
        invariant impossible == ImpossibleOf(g, s, g.nodes[..i])
      {
        var n := g.nodes[i];
        assert g.nodes[..i + 1][..i] == g.nodes[..i];
        if s.status[n.id] == Pending {
          var starved := SomeSlotStarved(g, s, n, incoming);
          if starved {
            impossible := impossible + [n.id];
          }
        }
        i := i + 1;
      }
      assert g.nodes[..i] == g.nodes;
    }

    /** The loop over one node's slots, stopping at the first whose edges are all dead. */
    method SomeSlotStarved(g: Graph, s: State, n: Node, incoming: map<(NodeId, Slot), seq<Edge>>) returns (r: bool)
      requires Tracks(g, s) && IncomingOf(g.edges, incoming)
      ensures r <==> exists slot | slot in n.inputs :: Starved(g, s, n.id, slot)
    {
      var todo := n.inputs.Keys;
      while todo != {}
        invariant todo <= n.inputs.Keys
        invariant forall slot :: slot in n.inputs && slot !in todo ==> !Starved(g, s, n.id, slot)
        decreases todo
      {
        var slot :| slot in todo;
        todo := todo - {slot};
        if slot !in s.initial {
          var edges := Lookup(incoming, n.id, slot);
          assert edges == EdgesInto(g.edges, n.id, slot);
          if edges != [] && forall e | e in edges ::
              e.id in s.inactive || s.status[e.src] in {Failed, Skipped, Cancelled} {
            assert Starved(g, s, n.id, slot);
            return true;
          }
        }
      }
      r := false;
    }

    method CanFinalize(s: State) returns (r: bool)
      ensures r <==> s.final.Some?
    {
      r := s.final != None;
    }
  }

  /** A node is fed exactly if its resolved ids cover its slots. */
  lemma FedIff(g: Graph, s: State, n: Node)
    ensures Fed(g, s, n) <==> ResolvedInputs(g, s, n).Keys == n.inputs.Keys
  {
    if ResolvedInputs(g, s, n).Keys == n.inputs.Keys {
      assert forall slot | slot in n.inputs :: slot in ResolvedInputs(g, s, n).Keys;
    }
  }

  ghost predicate ResolvedApartFrom(g: Graph, s: State, n: Node, todo: set<Slot>, resolved: map<Slot, ArtifactId>) {
    && (forall slot :: slot in resolved <==> slot in n.inputs && slot !in todo && ResolvedId(g, s, n.id, slot).Some?)
    && (forall slot :: slot in resolved ==> resolved[slot] == ResolvedId(g, s, n.id, slot).value)
  }

  lemma ResolvedStep(g: Graph, s: State, n: Node, todo: set<Slot>, resolved: map<Slot, ArtifactId>, slot: Slot)
    requires ResolvedApartFrom(g, s, n, todo, resolved) && slot in todo && slot in n.inputs
    ensures var r := ResolvedId(g, s, n.id, slot);
            ResolvedApartFrom(g, s, n, todo - {slot}, if r.Some? then resolved[slot := r.value] else resolved)
  {
  }

  lemma ResolvedAll(g: Graph, s: State, n: Node, resolved: map<Slot, ArtifactId>)
    requires ResolvedApartFrom(g, s, n, {}, resolved)
    ensures resolved == ResolvedInputs(g, s, n)
  {
  }

  /** The members of `all` among the first i ids, in order. */
  ghost predicate Picked(ids: seq<NodeId>, i: nat, all: set<NodeId>, picked: seq<NodeId>)
    requires i <= |ids|
  {
    Increasing(picked) && forall id :: id in picked <==> id in ids[..i] && id in all
  }

  lemma PickedStep(ids: seq<NodeId>, i: nat, all: set<NodeId>, picked: seq<NodeId>)
    requires i < |ids| && Increasing(ids) && Picked(ids, i, all, picked)
    ensures Picked(ids, i + 1, all, if ids[i] in all then picked + [ids[i]] else picked)
  {
    assert ids[..i + 1] == ids[..i] + [ids[i]];
    AppendNext(picked, ids, i);
  }
}
