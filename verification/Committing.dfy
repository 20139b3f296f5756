/** `WaveCommitter.commit_wave`: what one wave's results do to the state. */
module Committing {
  import opened Types
  import opened Sorting
  import opened EdgeConditions
  import opened Scheduling

  datatype NodeResult = NodeResult(node: NodeId, outcome: Outcome, latency: nat)

  type Results = map<NodeId, Outcome>

  /* ---------- what a wave's results mean, whatever their order ---------- */

  predicate Carries(results: Results, e: Edge) {
    e.src in results && results[e.src].Success? && e.out in results[e.src].outputs
  }

  /** A conditional edge whose source has just succeeded with a payload its condition accepts. */
  predicate Fires(results: Results, e: Edge) {
    e.cond.Some? && Carries(results, e) && Holds(e.cond.value, results[e.src].outputs[e.out].payload)
  }

  /** A conditional edge whose source has just succeeded otherwise. */
  predicate Blocks(results: Results, e: Edge) {
    e.cond.Some? && e.src in results && results[e.src].Success? && !Fires(results, e)
  }

  /** The comparison raises TypeError. */
  predicate RaisesOn(results: Results, e: Edge) {
    e.cond.Some? && Carries(results, e) && Evaluation(e.cond.value, results[e.src].outputs[e.out].payload).None?
  }

  ghost predicate Raises(g: Graph, results: Results) {
    exists e :: e in g.edges && RaisesOn(results, e)
  }

  function Finalists(g: Graph, results: Results): set<NodeId> {
    set n | n in results && results[n].Success? && g.finalSlot in results[n].outputs
  }

  function StatusOf(o: Outcome): Status {
    if o.Success? then Succeeded else Failed
  }

  function Statuses(results: Results): map<NodeId, Status> {
    map n | n in results :: StatusOf(results[n])
  }

  function NewOutputs(results: Results): map<NodeId, map<Slot, ArtifactId>> {
    map n | n in results && results[n].Success? :: IdsOf(results[n].outputs)
  }

  ghost function FiredIds(g: Graph, results: Results): set<EdgeId> {
    set e | e in g.edges && Fires(results, e) :: e.id
  }

  ghost function BlockedIds(g: Graph, results: Results): set<EdgeId> {
    set e | e in g.edges && Blocks(results, e) :: e.id
  }

  /** The first freeze stays; otherwise the smallest node id that delivers the final slot wins. */
  ghost function FinalAfter(g: Graph, s: State, results: Results): Option<ArtifactId> {
    if s.frozen || Finalists(g, results) == {} then s.final
    else Some(results[Min(Finalists(g, results))].outputs[g.finalSlot].id)
  }

  /** Statuses, outputs, edges and the freeze after all results. */
  ghost function Apply(g: Graph, s: State, results: Results): State {
    State(
      s.status + Statuses(results),
      s.outputs + NewOutputs(results),
      s.initial,
      s.active + FiredIds(g, results),
      s.inactive + BlockedIds(g, results),
      FinalAfter(g, s, results),
      s.frozen || Finalists(g, results) != {},
      s.waveId,
      s.checkpointCount)
  }

  lemma ApplyTracks(g: Graph, s: State, results: Results)
    requires Tracks(g, s) && results.Keys <= s.status.Keys
    ensures Tracks(g, Apply(g, s, results))
  {
    assert Apply(g, s, results).status.Keys == s.status.Keys;
  }

  /** One skip pass, and the counters. */
  ghost function Close(g: Graph, s: State): State
    requires Tracks(g, s)
  {
    SkipPass(g, s).(waveId := s.waveId + 1, checkpointCount := s.checkpointCount + 1)
  }

  /** The state after the wave. */
  ghost function Commit(g: Graph, s: State, results: Results): State
    requires Tracks(g, s) && results.Keys <= s.status.Keys
  {
    ApplyTracks(g, s, results);
    Close(g, Apply(g, s, results))
  }

  ghost function ArtifactsOf(results: Results): set<Artifact> {
    set n, slot | n in results && results[n].Success? && slot in results[n].outputs :: results[n].outputs[slot]
  }

  /** The conditional edges of one node that fire, in graph order; then those that block. */
  function FiringOf(edges: seq<Edge>, results: Results, n: NodeId): seq<EdgeId> {
    if edges == [] then []
    else
      var last := edges[|edges| - 1];
      FiringOf(edges[..|edges| - 1], results, n) + if last.src == n && Fires(results, last) then [last.id] else []
  }

  function BlockingOf(edges: seq<Edge>, results: Results, n: NodeId): seq<EdgeId> {
    if edges == [] then []
    else
      var last := edges[|edges| - 1];
      BlockingOf(edges[..|edges| - 1], results, n) + if last.src == n && Blocks(results, last) then [last.id] else []
  }

  /** The lists a commit returns: ids committed (node by node), edges activated, edges disabled. */
  datatype Lists = Lists(committed: seq<map<Slot, ArtifactId>>, activated: seq<EdgeId>, disabled: seq<EdgeId>) {
    function Then(more: Lists): Lists {
      Lists(committed + more.committed, activated + more.activated, disabled + more.disabled)
    }
  }

  /** One node's contribution. */
  function NodeLists(g: Graph, results: Results, n: NodeId): Lists
    requires n in results
  {
    Lists(if results[n].Success? then [IdsOf(results[n].outputs)] else [],
          FiringOf(g.edges, results, n), BlockingOf(g.edges, results, n))
  }

  function ListsOf(g: Graph, results: Results, ids: seq<NodeId>): Lists
    requires forall id :: id in ids ==> id in results
  {
    if ids == [] then Lists([], [], [])
    else ListsOf(g, results, ids[..|ids| - 1]).Then(NodeLists(g, results, ids[|ids| - 1]))
  }

  /* ---------- one result at a time ---------- */

  ghost function Only(results: Results, done: set<NodeId>): Results {
    map n | n in results && n in done :: results[n]
  }

  /** What applying a single further result does. */
  ghost function ApplyOne(g: Graph, s: State, n: NodeId, o: Outcome): State {
    if o.Failure? then s.(status := s.status[n := Failed])
    else
      var r := map[n := o];
      var wins := !s.frozen && g.finalSlot in o.outputs;
      s.(status := s.status[n := Succeeded],
         outputs := s.outputs[n := IdsOf(o.outputs)],
         active := s.active + FiredIds(g, r),
         inactive := s.inactive + BlockedIds(g, r),
         final := if wins then Some(o.outputs[g.finalSlot].id) else s.final,
         frozen := s.frozen || wins)
  }

  lemma OnlyNext(results: Results, done: set<NodeId>, n: NodeId)
    requires n in results && n !in done
    ensures Only(results, done + {n}) == Only(results, done)[n := results[n]]
  {
  }

  /** Applying the results in id order amounts to applying them all at once. */
  lemma ApplyNext(g: Graph, s: State, results: Results, n: NodeId, o: Outcome)
    requires n !in results && forall m :: m in results ==> m < n
    ensures Apply(g, s, results[n := o]) == ApplyOne(g, Apply(g, s, results), n, o)
  {
    ApplyNextMaps(g, s, results, n, o);
    ApplyNextEdges(g, s, results, n, o);
    FreezeNext(g, s, results, n, o);
    AddSets(s.active, FiredIds(g, results), FiredIds(g, map[n := o]));
    AddSets(s.inactive, BlockedIds(g, results), BlockedIds(g, map[n := o]));
  }

  lemma AddSets<T>(a: set<T>, b: set<T>, c: set<T>)
    ensures a + (b + c) == (a + b) + c
    ensures a + {} == a
  {
  }

  lemma AddLast<K, V>(m: map<K, V>, more: map<K, V>, k: K, v: V)
    ensures m + more[k := v] == (m + more)[k := v]
  {
  }

  lemma ApplyNextMaps(g: Graph, s: State, results: Results, n: NodeId, o: Outcome)
    requires n !in results
    ensures s.status + Statuses(results[n := o]) == (s.status + Statuses(results))[n := StatusOf(o)]
    ensures o.Success? ==>
      s.outputs + NewOutputs(results[n := o]) == (s.outputs + NewOutputs(results))[n := IdsOf(o.outputs)]
    ensures o.Failure? ==> NewOutputs(results[n := o]) == NewOutputs(results)
  {
    assert Statuses(results[n := o]) == Statuses(results)[n := StatusOf(o)];
    AddLast(s.status, Statuses(results), n, StatusOf(o));
    if o.Success? {
      assert NewOutputs(results[n := o]) == NewOutputs(results)[n := IdsOf(o.outputs)];
      AddLast(s.outputs, NewOutputs(results), n, IdsOf(o.outputs));
    }
  }

  lemma ApplyNextEdges(g: Graph, s: State, results: Results, n: NodeId, o: Outcome)
    requires n !in results
    ensures FiredIds(g, results[n := o]) == FiredIds(g, results) + FiredIds(g, map[n := o])
    ensures BlockedIds(g, results[n := o]) == BlockedIds(g, results) + BlockedIds(g, map[n := o])
    ensures o.Failure? ==> FiredIds(g, map[n := o]) == {} == BlockedIds(g, map[n := o])
  {
    forall e | e in g.edges
      ensures Fires(results[n := o], e) <==> Fires(results, e) || Fires(map[n := o], e)
      ensures Blocks(results[n := o], e) <==> Blocks(results, e) || Blocks(map[n := o], e)
    {
      EdgeNext(results, n, o, e);
    }
  }

  lemma EdgeNext(results: Results, n: NodeId, o: Outcome, e: Edge)
    requires n !in results
    ensures Fires(results[n := o], e) <==> Fires(results, e) || Fires(map[n := o], e)
    ensures Blocks(results[n := o], e) <==> Blocks(results, e) || Blocks(map[n := o], e)
  {
  }

  lemma FinalistsNext(g: Graph, results: Results, n: NodeId, o: Outcome)
    requires n !in results && forall m :: m in results ==> m < n
    ensures var more := Finalists(g, results[n := o]);
            && more == Finalists(g, results) + (if o.Success? && g.finalSlot in o.outputs then {n} else {})
            && (Finalists(g, results) != {} ==> more != {} && Min(more) == Min(Finalists(g, results)))
  {
    var f, f' := Finalists(g, results), Finalists(g, results[n := o]);
    assert f' == f + if o.Success? && g.finalSlot in o.outputs then {n} else {};
    if f != {} {
      assert Min(f) in f';
      assert Min(f) <= Min(f');
    }
  }

  lemma FreezeNext(g: Graph, s: State, results: Results, n: NodeId, o: Outcome)
    requires n !in results && forall m :: m in results ==> m < n
    ensures Apply(g, s, results[n := o]).final == ApplyOne(g, Apply(g, s, results), n, o).final
    ensures Apply(g, s, results[n := o]).frozen == ApplyOne(g, Apply(g, s, results), n, o).frozen
  {
    FinalistsNext(g, results, n, o);
    if Finalists(g, results) == {} && n in Finalists(g, results[n := o]) {
      assert Finalists(g, results[n := o]) == {n};
      assert Min({n}) == n;
    }
  }
}
