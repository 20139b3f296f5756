/** The three lists that a commit returns, against the change it makes to the state, and when a commit raises. */
module Reports {
  import opened Types
  import opened Sorting
  import opened EdgeConditions
  import opened Scheduling
  import opened Committing
  import opened Runs
  import Compiler

  /* ---------- positions in the graph's edge list ---------- */

  /** The ids at these positions, in this order. */
  ghost predicate AreAt(edges: seq<Edge>, list: seq<EdgeId>, at: seq<nat>) {
    |at| == |list| && forall p :: 0 <= p < |at| ==> at[p] < |edges| && edges[at[p]].id == list[p]
  }

  /** By source node, and for one source by position. */
  ghost predicate Before(edges: seq<Edge>, i: nat, j: nat)
    requires i < |edges| && j < |edges|
  {
    edges[i].src < edges[j].src || (edges[i].src == edges[j].src && i < j)
  }

  ghost predicate InSequence(edges: seq<Edge>, at: seq<nat>) {
    && (forall p :: 0 <= p < |at| ==> at[p] < |edges|)
    && forall p, q :: 0 <= p < q < |at| ==> Before(edges, at[p], at[q])
  }

  lemma {:induction false} FiringAt(edges: seq<Edge>, results: Results, n: NodeId) returns (at: seq<nat>)
    ensures AreAt(edges, FiringOf(edges, results, n), at) && Increasing(at)
    ensures forall i: nat :: i in at <==> i < |edges| && edges[i].src == n && Fires(results, edges[i])
  {
    at := [];
    if edges != [] {
      var init, last := edges[..|edges| - 1], edges[|edges| - 1];
      at := FiringAt(init, results, n);
      if last.src == n && Fires(results, last) {
        at := PositionNext(edges, FiringOf(init, results, n), at);
      }
    }
  }

  lemma {:induction false} BlockingAt(edges: seq<Edge>, results: Results, n: NodeId) returns (at: seq<nat>)
    ensures AreAt(edges, BlockingOf(edges, results, n), at) && Increasing(at)
    ensures forall i: nat :: i in at <==> i < |edges| && edges[i].src == n && Blocks(results, edges[i])
  {
    at := [];
    if edges != [] {
      var init, last := edges[..|edges| - 1], edges[|edges| - 1];
      at := BlockingAt(init, results, n);
      if last.src == n && Blocks(results, last) {
        at := PositionNext(edges, BlockingOf(init, results, n), at);
      }
    }
  }

  /** The last edge comes after those found before it. */
  lemma PositionNext(edges: seq<Edge>, list: seq<EdgeId>, at: seq<nat>) returns (at': seq<nat>)
    requires edges != [] && AreAt(edges[..|edges| - 1], list, at) && Increasing(at)
    ensures at' == at + [|edges| - 1]
    ensures AreAt(edges, list + [edges[|edges| - 1].id], at') && Increasing(at')
  {
    at' := at + [|edges| - 1];
    forall p | 0 <= p < |at| ensures at[p] < |edges| - 1 && edges[at[p]].id == list[p] {
      assert edges[..|edges| - 1][at[p]] == edges[at[p]];
    }
  }

  /** The edges of one node come after those of smaller nodes. */
  lemma SequenceNext(edges: seq<Edge>, at: seq<nat>, more: seq<nat>, n: NodeId)
    requires InSequence(edges, at) && Increasing(more)
    requires forall i :: i in at ==> i < |edges| && edges[i].src < n
    requires forall i :: i in more ==> i < |edges| && edges[i].src == n
    ensures InSequence(edges, at + more)
  {
    var all := at + more;
    forall p, q | 0 <= p < q < |all| ensures all[p] < |edges| && all[q] < |edges| && Before(edges, all[p], all[q]) {
      assert all[p] in at || all[p] in more;
      assert all[q] in at || all[q] in more;
      if q < |at| {
        assert Before(edges, at[p], at[q]);
      } else if p < |at| {
        assert all[p] == at[p] && at[p] in at && all[q] == more[q - |at|] && more[q - |at|] in more;
      } else {
        assert all[p] == more[p - |at|] && all[q] == more[q - |at|];
      }
    }
    forall p | 0 <= p < |all| ensures all[p] < |edges| {
      assert all[p] in at || all[p] in more;
    }
  }

  lemma AppendAt(edges: seq<Edge>, list: seq<EdgeId>, at: seq<nat>, list': seq<EdgeId>, at': seq<nat>)
    requires AreAt(edges, list, at) && AreAt(edges, list', at')
    ensures AreAt(edges, list + list', at + at')
  {
  }

  /** The activated edges are those that fire, in sequence. */
  lemma {:induction false} ActivatedAt(g: Graph, results: Results, ids: seq<NodeId>) returns (at: seq<nat>)
    requires Increasing(ids) && forall id :: id in ids ==> id in results
    ensures AreAt(g.edges, ListsOf(g, results, ids).activated, at) && InSequence(g.edges, at)
    ensures forall i: nat :: i in at <==> i < |g.edges| && g.edges[i].src in ids && Fires(results, g.edges[i])
  {
    at := [];
    if ids != [] {
      var init, n := ids[..|ids| - 1], ids[|ids| - 1];
      var before := ActivatedAt(g, results, init);
      var more := FiringAt(g.edges, results, n);
      LastIsGreatest(ids);
      SequenceNext(g.edges, before, more, n);
      AppendAt(g.edges, ListsOf(g, results, init).activated, before, FiringOf(g.edges, results, n), more);
      at := before + more;
    }
  }

  /** The disabled edges are those that block, in sequence. */
  lemma {:induction false} DisabledAt(g: Graph, results: Results, ids: seq<NodeId>) returns (at: seq<nat>)
    requires Increasing(ids) && forall id :: id in ids ==> id in results
    ensures AreAt(g.edges, ListsOf(g, results, ids).disabled, at) && InSequence(g.edges, at)
    ensures forall i: nat :: i in at <==> i < |g.edges| && g.edges[i].src in ids && Blocks(results, g.edges[i])
  {
    at := [];
    if ids != [] {
      var init, n := ids[..|ids| - 1], ids[|ids| - 1];
      var before := DisabledAt(g, results, init);
      var more := BlockingAt(g.edges, results, n);
      LastIsGreatest(ids);
      SequenceNext(g.edges, before, more, n);
      AppendAt(g.edges, ListsOf(g, results, init).disabled, before, BlockingOf(g.edges, results, n), more);
      at := before + more;
    }
  }

  lemma LastIsGreatest(ids: seq<NodeId>)
    requires Increasing(ids) && ids != []
    ensures Increasing(ids[..|ids| - 1])
    ensures var init, last := ids[..|ids| - 1], ids[|ids| - 1];
      (forall id :: id in init ==> id < last) && (forall id :: id in ids <==> id in init || id == last)
  {
    assert ids == ids[..|ids| - 1] + [ids[|ids| - 1]];
  }

  /* ---------- the lists against the state ---------- */

  /** The list names these edges, each once, ordered by source node and then by position in the graph. */
  ghost predicate Tells(g: Graph, list: seq<EdgeId>, ids: set<EdgeId>) {
    && Elements(list) == ids
    && Distinct(list)
    && Ordered(g, list)
  }

  ghost predicate Ordered(g: Graph, list: seq<EdgeId>) {
    forall p, q, i: nat, j: nat ::
      0 <= p < q < |list| && IsAt(g, i, list[p]) && IsAt(g, j, list[q]) ==> Before(g.edges, i, j)
  }

  ghost predicate IsAt(g: Graph, i: nat, id: EdgeId) {
    i < |g.edges| && g.edges[i].id == id
  }

  lemma SequenceNames(g: Graph, list: seq<EdgeId>, at: seq<nat>, ids: set<EdgeId>)
    requires AreAt(g.edges, list, at) && ids <= EdgeIds(g)
    requires forall i: nat :: i < |g.edges| ==> (i in at <==> g.edges[i].id in ids)
    ensures Elements(list) == ids
  {
    forall id | id in list ensures id in ids {
      var p :| 0 <= p < |list| && list[p] == id;
      assert at[p] in at;
    }
    forall id | id in ids ensures id in list {
      var i: nat :| i < |g.edges| && g.edges[i].id == id;
      assert i in at;
      var p :| 0 <= p < |at| && at[p] == i;
      assert list[p] == id;
    }
  }

  lemma SequenceOrdered(g: Graph, list: seq<EdgeId>, at: seq<nat>)
    requires Compiler.DistinctEdges(g) && AreAt(g.edges, list, at) && InSequence(g.edges, at)
    ensures Distinct(list) && Ordered(g, list)
  {
    forall p, q, i: nat, j: nat | 0 <= p < q < |list| && IsAt(g, i, list[p]) && IsAt(g, j, list[q])
      ensures Before(g.edges, i, j)
    {
      assert i == at[p] && j == at[q];
    }
    forall p, q | 0 <= p < q < |list| ensures list[p] != list[q] {
      assert Before(g.edges, at[p], at[q]);
    }
  }

  /** These results are of nodes that had not succeeded before. */
  ghost predicate AreNew(s: State, results: Results) {
    forall n :: n in results ==> n in s.status && s.status[n] != Succeeded
  }

  lemma NewFires(g: Graph, s: State, results: Results, e: Edge)
    requires UniqueEdges(g) && EdgeInv(g, s) && AreNew(s, results) && e in g.edges
    ensures Fires(results, e) <==> e.id in s.active + FiredIds(g, results) && e.id !in s.active
    ensures Blocks(results, e) <==> e.id in s.inactive + BlockedIds(g, results) && e.id !in s.inactive
  {
    assert EdgeStatus(s, e);
    FiredIff(g, results, e);
  }

  lemma EdgesTold(g: Graph, s: State, results: Results, lists: Lists)
    requires Compiler.DistinctEdges(g) && UniqueEdges(g) && EdgeInv(g, s) && AreNew(s, results)
    requires lists == ListsOf(g, results, Sorted(results.Keys))
    ensures Tells(g, lists.activated, s.active + FiredIds(g, results) - s.active)
    ensures Tells(g, lists.disabled, s.inactive + BlockedIds(g, results) - s.inactive)
  {
    var ids := Sorted(results.Keys);
    var at := ActivatedAt(g, results, ids);
    var at' := DisabledAt(g, results, ids);
    var active := s.active + FiredIds(g, results) - s.active;
    var inactive := s.inactive + BlockedIds(g, results) - s.inactive;
    forall i: nat | i < |g.edges|
      ensures i in at <==> g.edges[i].id in active
      ensures i in at' <==> g.edges[i].id in inactive
    {
      NewFires(g, s, results, g.edges[i]);
    }
    SequenceNames(g, lists.activated, at, active);
    SequenceNames(g, lists.disabled, at', inactive);
    SequenceOrdered(g, lists.activated, at);
    SequenceOrdered(g, lists.disabled, at');
  }

  /* ---------- the committed artifacts ---------- */

  /** The nodes of this wave that succeeded. */
  ghost function Winners(results: Results): set<NodeId> {
    set n | n in results && results[n].Success?
  }

  /** Node by node, these are the ids of their outputs. */
  ghost predicate NamesEach(committed: seq<map<Slot, ArtifactId>>, ids: seq<NodeId>,
                            outputs: map<NodeId, map<Slot, ArtifactId>>)
  {
    |committed| == |ids| && forall i :: 0 <= i < |ids| ==> ids[i] in outputs && committed[i] == outputs[ids[i]]
  }

  /** The ids of all that these nodes have put out, in node-id order. */
  ghost predicate NamesOutputs(committed: seq<map<Slot, ArtifactId>>, nodes: set<NodeId>,
                               outputs: map<NodeId, map<Slot, ArtifactId>>)
  {
    NamesEach(committed, Sorted(nodes), outputs)
  }

  lemma {:induction false} CommittedOf(g: Graph, results: Results, ids: seq<NodeId>) returns (won: seq<NodeId>)
    requires Increasing(ids) && forall id :: id in ids ==> id in results
    ensures Increasing(won) && forall n :: n in won <==> n in ids && results[n].Success?
    ensures NamesEach(ListsOf(g, results, ids).committed, won, NewOutputs(results))
  {
    won := [];
    if ids != [] {
      var init, n := ids[..|ids| - 1], ids[|ids| - 1];
      LastIsGreatest(ids);
      won := CommittedOf(g, results, init);
      if results[n].Success? {
        forall i | 0 <= i < |won| ensures won[i] < n {
          assert won[i] in won;
        }
        won := won + [n];
      }
    }
  }

  lemma NamesMore(committed: seq<map<Slot, ArtifactId>>, ids: seq<NodeId>, before: map<NodeId, map<Slot, ArtifactId>>,
                  outputs: map<NodeId, map<Slot, ArtifactId>>)
    requires NamesEach(committed, ids, outputs)
    ensures NamesEach(committed, ids, before + outputs)
  {
  }

  lemma CommittedTold(g: Graph, s: State, results: Results, lists: Lists)
    requires lists == ListsOf(g, results, Sorted(results.Keys))
    ensures NamesOutputs(lists.committed, Winners(results), s.outputs + NewOutputs(results))
  {
    var won := CommittedOf(g, results, Sorted(results.Keys));
    SortedUnique(won, Winners(results));
    NamesMore(lists.committed, won, s.outputs, NewOutputs(results));
  }

  /* ---------- what a commit reports ---------- */

  /** The activated edges are those that have become active, the disabled ones those that have become inactive,
      and the committed artifacts are the new outputs, all in order. */
  ghost predicate Reported(g: Graph, s: State, s': State, lists: Lists) {
    && Tells(g, lists.activated, s'.active - s.active)
    && Tells(g, lists.disabled, s'.inactive - s.inactive)
    && NamesOutputs(lists.committed, s'.outputs.Keys - s.outputs.Keys, s'.outputs)
  }

  /** Edge ids are unique, and edges and outputs stand as between waves, apart from the nodes of this one. */
  ghost predicate Reportable(g: Graph, s: State, results: Results) {
    Compiler.DistinctEdges(g) && EdgeInv(g, s) && OutputInv(s) && AreNew(s, results)
  }

  lemma DistinctEdgesUnique(g: Graph)
    requires Compiler.DistinctEdges(g)
    ensures UniqueEdges(g)
  {
  }

  lemma CommitReported(g: Graph, s: State, results: Results, lists: Lists)
    requires Tracks(g, s) && results.Keys <= s.status.Keys && Reportable(g, s, results)
    requires lists == ListsOf(g, results, Sorted(results.Keys))
    ensures Reported(g, s, Commit(g, s, results), lists)
    ensures Commit(g, s, results).outputs.Keys - s.outputs.Keys == Winners(results)
  {
    DistinctEdgesUnique(g);
    EdgesTold(g, s, results, lists);
    CommittedTold(g, s, results, lists);
    CommitAdds(g, s, results);
  }

  lemma CommitAdds(g: Graph, s: State, results: Results)
    requires Tracks(g, s) && results.Keys <= s.status.Keys && OutputInv(s) && AreNew(s, results)
    ensures var s' := Commit(g, s, results);
      && s'.active == s.active + FiredIds(g, results) && s'.inactive == s.inactive + BlockedIds(g, results)
      && s'.outputs == s.outputs + NewOutputs(results)
      && s'.outputs.Keys - s.outputs.Keys == Winners(results)
  {
    ApplyTracks(g, s, results);
    NewKeys(s, results);
  }

  lemma NewKeys(s: State, results: Results)
    requires OutputInv(s) && AreNew(s, results)
    ensures (s.outputs + NewOutputs(results)).Keys - s.outputs.Keys == Winners(results)
  {
  }

  /* ---------- raising ---------- */

  /** The condition asks for an order between two values that Python cannot order. */
  ghost predicate CannotOrder(c: Condition, payload: map<Key, Json>) {
    && c.operator in {GreaterThan, LessThan}
    && exists found :: LeadsTo(payload, c.path, found) && Incomparable(found, c.value)
  }

  lemma EvaluationCannotOrder(c: Condition, payload: map<Key, Json>)
    ensures Evaluation(c, payload).None? <==> CannotOrder(c, payload)
  {
    EvaluationRaises(c, payload);
    forall found ensures LeadsTo(payload, c.path, found) <==> Walk(Obj(payload), c.path) == Some(found) {
      WalkIff(payload, c.path, found);
    }
  }

  /** A commit raises exactly if a node that has just succeeded has a conditional edge that asks for such an order
      of the artifact on the edge's output. */
  lemma RaisesIff(g: Graph, results: Results)
    ensures Raises(g, results) <==>
      exists e :: e in g.edges && e.cond.Some? && e.src in results && results[e.src].Success?
        && e.out in results[e.src].outputs && CannotOrder(e.cond.value, results[e.src].outputs[e.out].payload)
  {
    forall e | e in g.edges && e.cond.Some? && Carries(results, e)
      ensures RaisesOn(results, e) <==> CannotOrder(e.cond.value, results[e.src].outputs[e.out].payload)
    {
      EvaluationCannotOrder(e.cond.value, results[e.src].outputs[e.out].payload);
    }
  }
}
