/** `WaveCommitter`: persist the artifacts, apply the results in node-id order, skip once. */
module Committer {
  import opened Types
  import opened Sorting
  import opened EdgeConditions
  import opened Scheduling
  import opened Stores
  import opened Committing
  import opened Reports
  import opened RuntimeStates

  ghost predicate DistinctResults(results: seq<NodeResult>) {
    forall i, j :: 0 <= i < j < |results| ==> results[i].node != results[j].node
  }

  function ResultMap(results: seq<NodeResult>): (m: Results)
    ensures forall n :: n in m <==> exists r :: r in results && r.node == n
    ensures forall n :: n in m ==> exists r :: r in results && r.node == n && m[n] == r.outcome
  {
    if results == [] then map[]
    else
      var last := results[|results| - 1];
      assert results == results[..|results| - 1] + [last];
      ResultMap(results[..|results| - 1])[last.node := last.outcome]
  }

  function LatencyMap(results: seq<NodeResult>): (m: map<NodeId, nat>)
    ensures forall n :: n in m <==> exists r :: r in results && r.node == n
    ensures forall n :: n in m ==> exists r :: r in results && r.node == n && m[n] == r.latency
  {
    if results == [] then map[]
    else
      var last := results[|results| - 1];
      assert results == results[..|results| - 1] + [last];
      LatencyMap(results[..|results| - 1])[last.node := last.latency]
  }

  lemma DistinctMembers(results: seq<NodeResult>, a: NodeResult, b: NodeResult)
    requires DistinctResults(results) && a in results && b in results && a.node == b.node
    ensures a == b
  {
  }

  /** Two orders of the same results commit alike: `CommitWave` promises its new state and its
      three lists in terms of these maps only. */
  lemma CommitIgnoresOrder(p: seq<NodeResult>, q: seq<NodeResult>)
    requires DistinctResults(p) && multiset(p) == multiset(q)
    ensures DistinctResults(q)
    ensures ResultMap(p) == ResultMap(q) && LatencyMap(p) == LatencyMap(q)
  {
    SameMembers(p, q);
    forall i, j | 0 <= i < j < |q| ensures q[i].node != q[j].node {
      StillDistinct(p, q, i, j);
    }
    SameOutcomes(p, q);
    SameLatencies(p, q);
  }

  lemma SameMembers(p: seq<NodeResult>, q: seq<NodeResult>)
    requires multiset(p) == multiset(q)
    ensures forall r :: r in p <==> r in q
  {
    forall r ensures r in p <==> r in q {
      assert r in p <==> r in multiset(p);
    }
  }

  lemma StillDistinct(p: seq<NodeResult>, q: seq<NodeResult>, i: nat, j: nat)
    requires DistinctResults(p) && multiset(p) == multiset(q) && i < j < |q|
    ensures q[i].node != q[j].node
  {
    SameMembers(p, q);
    if q[i].node == q[j].node {
      DistinctMembers(p, q[i], q[j]);
      assert multiset(q)[q[i]] >= 2 by {
        assert q == q[..j] + [q[j]] + q[j + 1..];
        assert q[i] in q[..j];
      }
      TwiceNotDistinct(p, q[i]);
    }
  }

  lemma SameOutcomes(p: seq<NodeResult>, q: seq<NodeResult>)
    requires DistinctResults(p) && forall r :: r in p <==> r in q
    ensures ResultMap(p) == ResultMap(q)
  {
    forall n | n in ResultMap(p) ensures ResultMap(p)[n] == ResultMap(q)[n] {
      var a :| a in p && a.node == n && ResultMap(p)[n] == a.outcome;
      var b :| b in q && b.node == n && ResultMap(q)[n] == b.outcome;
      DistinctMembers(p, a, b);
    }
  }

  lemma SameLatencies(p: seq<NodeResult>, q: seq<NodeResult>)
    requires DistinctResults(p) && forall r :: r in p <==> r in q
    ensures LatencyMap(p) == LatencyMap(q)
  {
    forall n | n in LatencyMap(p) ensures LatencyMap(p)[n] == LatencyMap(q)[n] {
      var a :| a in p && a.node == n && LatencyMap(p)[n] == a.latency;
      var b :| b in q && b.node == n && LatencyMap(q)[n] == b.latency;
      DistinctMembers(p, a, b);
    }
  }

  lemma {:induction false} TwiceNotDistinct(p: seq<NodeResult>, r: NodeResult)
    requires DistinctResults(p)
    ensures multiset(p)[r] <= 1
  {
    if p != [] {
      var init, last := p[..|p| - 1], p[|p| - 1];
      assert p == init + [last];
      TwiceNotDistinct(init, r);
      if r == last {
        assert r !in init;
      }
    }
  }

  /** These nodes are now skipped, and the others are as before. */
  ghost predicate Marked(before: map<NodeId, Status>, ids: seq<NodeId>, now: map<NodeId, Status>) {
    && now.Keys == before.Keys
    && forall id :: id in now ==> now[id] == if id in ids then Skipped else before[id]
  }

  lemma MarkedIsSkipPass(g: Graph, s: State, ids: seq<NodeId>, status: map<NodeId, Status>)
    requires Tracks(g, s) && (forall id :: id in ids <==> id in ImpossibleSet(g, s)) && Marked(s.status, ids, status)
    ensures s.(status := status) == SkipPass(g, s)
  {
    assert status == SkipPass(g, s).status;
  }

  class WaveCommitter {
    const store: FileArtifactStore
    const scheduler: Scheduler

    constructor (store: FileArtifactStore, scheduler: Scheduler)
      ensures this.store == store && this.scheduler == scheduler
    {
      this.store := store;
      this.scheduler := scheduler;
    }

    /** Puts one result's artifacts. */
    method PutOutputs(outputs: map<Slot, Artifact>, ghost before: Files, ghost done: set<Artifact>,
                      ghost arts: set<Artifact>)
      returns (ok: bool, ghost done': set<Artifact>)
      requires FilesStored(before, done, store.files) && done <= arts
      requires forall slot :: slot in outputs ==> outputs[slot] in arts
      modifies store
      ensures ok ==> done' == done + (set slot | slot in outputs :: outputs[slot])
      ensures ok ==> FilesStored(before, done', store.files) && done' <= arts
      ensures FilesPartlyStored(before, arts, store.files)
      ensures !ok ==> forall after :: !FilesStored(before, arts, after)
    {
      done' := done;
      var todo := outputs.Keys;
      while todo != {}
        invariant todo <= outputs.Keys
        invariant forall a :: a in done' <==> a in done || exists slot ::
            slot in outputs && slot !in todo && outputs[slot] == a
        invariant FilesStored(before, done', store.files) && done' <= arts
        decreases todo
      {
        var slot :| slot in todo;
        var a := outputs[slot];
        ghost var files := store.files;
        ok := store.Put(a);
        if !ok {
          forall after ensures !FilesStored(before, arts, after) {
            PutRefused(before, done', files, a, arts, after);
          }
          StoredIsPartly(before, done', files, arts);
          return;
        }
        PutAdds(before, done', files, a);
        done' := done' + {a};
        todo := todo - {slot};
      }
      StoredIsPartly(before, done', store.files, arts);
      ok := true;
    }

    /** The puts of one result. */
    method PutNth(results: seq<NodeResult>, i: nat, ghost before: Files, ghost done: set<Artifact>,
                  ghost arts: set<Artifact>)
      returns (ok: bool, ghost done': set<Artifact>)
      requires DistinctResults(results) && arts == ArtifactsOf(ResultMap(results)) && i < |results|
      requires PutSoFar(results, i, before, done, arts, store.files)
      modifies store
      ensures ok ==> PutSoFar(results, i + 1, before, done', arts, store.files)
      ensures FilesPartlyStored(before, arts, store.files)
      ensures !ok ==> forall after :: !FilesStored(before, arts, after)
    {
      var r := results[i];
      ok, done' := true, done;
      if r.outcome.Success? {
        ResultInMap(results, r);
        ok, done' := PutOutputs(r.outcome.outputs, before, done, arts);
      } else {
        StoredIsPartly(before, done, store.files, arts);
      }
      if ok {
        PutNext(results, i, done, done');
      }
    }

    /** Persist all artifacts before any output is exposed. */
    method PutAll(results: seq<NodeResult>) returns (ok: bool)
      requires DistinctResults(results)
      modifies store
      ensures ok ==> FilesStored(old(store.files), ArtifactsOf(ResultMap(results)), store.files)
      ensures FilesPartlyStored(old(store.files), ArtifactsOf(ResultMap(results)), store.files)
      ensures !ok ==> forall after :: !FilesStored(old(store.files), ArtifactsOf(ResultMap(results)), after)
    {
      ghost var before, arts := store.files, ArtifactsOf(ResultMap(results));
      ghost var done: set<Artifact> := {};
      var i := 0;
      while i < |results|
        invariant 0 <= i <= |results|
        invariant PutSoFar(results, i, before, done, arts, store.files)
      {
        ok, done := PutNth(results, i, before, done, arts);
        if !ok {
          return;
        }
        i := i + 1;
      }
      AllPut(results, before, done, arts, store.files);
      ok := true;
    }

    /** Whether the source's artifact, if there is one, satisfies the condition. */
    method EdgeEnabled(e: Edge, outputs: map<Slot, Artifact>) returns (enabled: Option<bool>)
      requires e.cond.Some?
      ensures enabled.None? <==> RaisesOn(map[e.src := Success(outputs)], e)
      ensures enabled.Some? ==> (enabled.value <==> Fires(map[e.src := Success(outputs)], e))
    {
      enabled := Some(false);
      if e.out in outputs {
        enabled := Evaluate(e.cond.value, outputs[e.out].payload);
      }
    }

    /** One edge of a succeeded node becomes active or inactive if it is conditional. */
    method ResolveEdge(state: RuntimeState, e: Edge, n: NodeId, outputs: map<Slot, Artifact>)
      returns (raised: bool, activated: seq<EdgeId>, disabled: seq<EdgeId>)
      modifies state`activeEdges, state`inactiveEdges
      ensures raised <==> RaisesOn(map[n := Success(outputs)], e)
      ensures !raised ==> activated == (if Fires(map[n := Success(outputs)], e) then [e.id] else [])
      ensures !raised ==> disabled == (if Blocks(map[n := Success(outputs)], e) then [e.id] else [])
      ensures state.activeEdges == old(state.activeEdges) + Elements(activated)
      ensures state.inactiveEdges == old(state.inactiveEdges) + Elements(disabled)
    {
      raised, activated, disabled := false, [], [];
      if e.src != n || e.cond.None? {
        return;
      }
      var enabled := EdgeEnabled(e, outputs);
      if enabled.None? {
        raised := true;
      } else if enabled.value {
        state.activeEdges := state.activeEdges + {e.id};
        activated := [e.id];
      } else {
        state.inactiveEdges := state.inactiveEdges + {e.id};
        disabled := [e.id];
      }
    }

    /** The edges of one succeeded node. */
    method ResolveEdges(g: Graph, state: RuntimeState, n: NodeId, outputs: map<Slot, Artifact>, ghost one: Results)
      returns (raised: bool, activated: seq<EdgeId>, disabled: seq<EdgeId>)
      requires one == map[n := Success(outputs)]
      modifies state`activeEdges, state`inactiveEdges
      ensures raised <==> Raises(g, one)
      ensures !raised ==> state.activeEdges == old(state.activeEdges) + FiredIds(g, one)
      ensures !raised ==> state.inactiveEdges == old(state.inactiveEdges) + BlockedIds(g, one)
      ensures !raised ==> activated == FiringOf(g.edges, one, n)
      ensures !raised ==> disabled == BlockingOf(g.edges, one, n)
    {
      activated, disabled := [], [];
      var i := 0;
      while i < |g.edges|
        invariant 0 <= i <= |g.edges|
        invariant EdgesResolved(g.edges[..i], one, n, old(state.activeEdges), old(state.inactiveEdges),
                                state.activeEdges, state.inactiveEdges, activated, disabled)
      {
        var fires, blocks;
        ghost var active, inactive := state.activeEdges, state.inactiveEdges;
        raised, fires, blocks := ResolveEdge(state, g.edges[i], n, outputs);
        if raised {
          return;
        }
        AmongStep(g.edges, i, one, n, old(state.activeEdges), old(state.inactiveEdges), active, inactive,
                  activated, disabled);
        activated, disabled := activated + fires, disabled + blocks;
        i := i + 1;
      }
      assert g.edges[..i] == g.edges;
      raised := false;
    }

    /** The first artifact delivered to the final slot freezes the state. */
    method Freeze(g: Graph, state: RuntimeState, outputs: map<Slot, Artifact>)
      modifies state`finalOutputArtifactId, state`frozen
      ensures state.frozen == (old(state.frozen) || g.finalSlot in outputs)
      ensures state.finalOutputArtifactId ==
        if !old(state.frozen) && g.finalSlot in outputs then Some(outputs[g.finalSlot].id)
        else old(state.finalOutputArtifactId)
    {
      var todo := outputs.Keys;
      while todo != {}
        invariant todo <= outputs.Keys
        invariant state.frozen == (old(state.frozen) || (g.finalSlot in outputs && g.finalSlot !in todo))
        invariant state.finalOutputArtifactId ==
          if !old(state.frozen) && g.finalSlot in outputs && g.finalSlot !in todo then Some(outputs[g.finalSlot].id)
          else old(state.finalOutputArtifactId)
        decreases todo
      {
        var slot :| slot in todo;
        todo := todo - {slot};
        if slot == g.finalSlot && !state.frozen {
          state.finalOutputArtifactId := Some(outputs[slot].id);
          state.frozen := true;
        }
      }
    }

    /** One result: status, latency, outputs, freeze, edges. */
    method ApplyResult(g: Graph, state: RuntimeState, n: NodeId, outcome: Outcome, latency: nat)
      returns (raised: bool, lists: Lists)
      modifies state
      ensures raised <==> Raises(g, map[n := outcome])
      ensures !raised ==> state.Core() == ApplyOne(g, old(state.Core()), n, outcome)
      ensures !raised ==> state.nodeLatencies == old(state.nodeLatencies)[n := latency]
      ensures !raised ==> lists == NodeLists(g, map[n := outcome], n)
    {
      state.nodeLatencies := state.nodeLatencies[n := latency];
      if outcome.Failure? {
        state.nodeStatus := state.nodeStatus[n := Failed];
        NothingFires(g.edges, n);
        return false, Lists([], [], []);
      }
      raised, lists := ApplySuccess(g, state, n, outcome.outputs, map[n := outcome]);
    }

    method ApplySuccess(g: Graph, state: RuntimeState, n: NodeId, outputs: map<Slot, Artifact>, ghost one: Results)
      returns (raised: bool, lists: Lists)
      requires one == map[n := Success(outputs)]
      modifies state
      ensures raised <==> Raises(g, one)
      ensures !raised ==> state.Core() == ApplyOne(g, old(state.Core()), n, Success(outputs))
      ensures state.nodeLatencies == old(state.nodeLatencies)
      ensures !raised ==> lists == NodeLists(g, one, n)
    {
      state.nodeStatus := state.nodeStatus[n := Succeeded];
      state.nodeOutputs := state.nodeOutputs[n := IdsOf(outputs)];
      Freeze(g, state, outputs);
      var activated, disabled;
      raised, activated, disabled := ResolveEdges(g, state, n, outputs, one);
      lists := Lists([IdsOf(outputs)], activated, disabled);
    }

    /** The skip pass at the end of a commit. */
    method SkipImpossible(g: Graph, state: RuntimeState)
      requires UniqueNodes(g) && Tracks(g, state.Core())
      modifies state`nodeStatus
      ensures state.Core() == SkipPass(g, old(state.Core()))
    {
      ghost var s := state.Core();
      var impossible := scheduler.ImpossibleNodes(g, state.Core());
      MarkImpossible(state, impossible);
      MarkedIsSkipPass(g, s, impossible, state.nodeStatus);
    }

    method MarkImpossible(state: RuntimeState, impossible: seq<NodeId>)
      requires forall id :: id in impossible ==> id in state.nodeStatus
      modifies state`nodeStatus
      ensures Marked(old(state.nodeStatus), impossible, state.nodeStatus)
    {
      var i := 0;
      while i < |impossible|
        invariant 0 <= i <= |impossible|
        invariant Marked(old(state.nodeStatus), impossible[..i], state.nodeStatus)
      {
        assert impossible[..i + 1] == impossible[..i] + [impossible[i]];
        state.nodeStatus := state.nodeStatus[impossible[i] := Skipped];
        i := i + 1;
      }
      assert impossible[..i] == impossible;
    }

    /** The result of the i-th node in id order. */
    method ApplyNth(g: Graph, state: RuntimeState, results: Results, latencies: map<NodeId, nat>, ids: seq<NodeId>,
                    i: nat, before: Lists, ghost core0: State, ghost times0: map<NodeId, nat>)
      returns (raised: bool, lists: Lists)
      requires i < |ids|
      requires SoFar(g, core0, times0, results, latencies, ids, i, state.Core(), state.nodeLatencies, before)
      modifies state
      ensures raised ==> Raises(g, results)
      ensures !raised ==>
        SoFar(g, core0, times0, results, latencies, ids, i + 1, state.Core(), state.nodeLatencies, lists)
    {
      var id := ids[i];
      assert id in ids;
      ghost var core, times := state.Core(), state.nodeLatencies;
      raised, lists := ApplyResult(g, state, id, results[id], latencies[id]);
      RaisesAlone(g, results, id);
      if !raised {
        SoFarStep(g, core0, times0, results, latencies, ids, i, core, times, before);
        lists := before.Then(lists);
      }
    }

    /** The results in node-id order. */
    method ApplyResults(g: Graph, state: RuntimeState, results: Results, latencies: map<NodeId, nat>, ids: seq<NodeId>)
      returns (raised: bool, lists: Lists)
      requires ids == Sorted(results.Keys) && latencies.Keys == results.Keys
      modifies state
      ensures raised ==> Raises(g, results)
      ensures !raised ==> Applied(g, old(state.Core()), old(state.nodeLatencies), results, latencies,
                                  state.Core(), state.nodeLatencies, lists)
    {
      lists := Lists([], [], []);
      ghost var core0, times0 := state.Core(), state.nodeLatencies;
      SoFarStart(g, core0, times0, results, latencies, ids);
      var i := 0;
      while i < |ids|
        invariant 0 <= i <= |ids|
        invariant SoFar(g, core0, times0, results, latencies, ids, i, state.Core(), state.nodeLatencies, lists)
      {
        raised, lists := ApplyNth(g, state, results, latencies, ids, i, lists, core0, times0);
        if raised {
          return;
        }
        i := i + 1;
      }
      AllApplied(g, core0, times0, results, latencies, ids, state.Core(), state.nodeLatencies, lists);
      raised := false;
    }

    /** The part of the commit that only touches the copied state. */
    method Finish(g: Graph, state: RuntimeState, results: Results, latencies: map<NodeId, nat>)
      returns (raised: bool, lists: Lists)
      requires UniqueNodes(g) && Tracks(g, state.Core()) && results.Keys <= state.nodeStatus.Keys
      requires latencies.Keys == results.Keys
      modifies state
      ensures raised <==> Raises(g, results)
      ensures !raised ==> state.Core() == Commit(g, old(state.Core()), results)
      ensures !raised ==> state.nodeLatencies == old(state.nodeLatencies) + latencies
      ensures !raised ==> lists == ListsOf(g, results, Sorted(results.Keys))
    {
      ApplyTracks(g, state.Core(), results);
      raised, lists := ApplyResults(g, state, results, latencies, Sorted(results.Keys));
      if raised {
        return;
      }
      CloseWave(g, state);
    }

    /** The skip pass and the counters. */
    method CloseWave(g: Graph, state: RuntimeState)
      requires UniqueNodes(g) && Tracks(g, state.Core())
      modifies state`nodeStatus, state`waveId, state`checkpointCount
      ensures state.Core() == Close(g, old(state.Core()))
      ensures state.nodeLatencies == old(state.nodeLatencies)
    {
      SkipImpossible(g, state);
      Count(state);
    }

    method Count(state: RuntimeState)
      modifies state`waveId, state`checkpointCount
      ensures state.Core() == old(state.Core()).(waveId := old(state.waveId) + 1,
                                                 checkpointCount := old(state.checkpointCount) + 1)
    {
      state.waveId := state.waveId + 1;
      state.checkpointCount := state.checkpointCount + 1;
    }

    /** `commit_wave`. The previous state is copied, never changed; the artifacts are all in the
        store before the new state exists; no state results if a put or a comparison raises. */
    method CommitWave(g: Graph, previous: RuntimeState, results: seq<NodeResult>)
      returns (r: Option<RuntimeState>, lists: Lists)
      requires UniqueNodes(g) && Tracks(g, previous.Core()) && DistinctResults(results)
      requires ResultMap(results).Keys <= previous.nodeStatus.Keys
      modifies store
      ensures FilesPartlyStored(old(store.files), ArtifactsOf(ResultMap(results)), store.files)
      ensures r.Some? ==> FilesStored(old(store.files), ArtifactsOf(ResultMap(results)), store.files)
      ensures r.Some? <==> !Raises(g, ResultMap(results)) &&
                           exists after :: FilesStored(old(store.files), ArtifactsOf(ResultMap(results)), after)
      ensures r.Some? ==> fresh(r.value) && r.value.ToRecord() == CommittedRecord(g, previous.ToRecord(), results)
      ensures r.Some? ==> lists == ListsOf(g, ResultMap(results), Sorted(ResultMap(results).Keys))
      ensures r.Some? && Reportable(g, previous.Core(), ResultMap(results)) ==>
        Reported(g, previous.Core(), r.value.Core(), lists)
    {
      lists := Lists([], [], []);
      var state := previous.ModelCopy();
      var ok := PutAll(results);
      if !ok {
        return None, lists;
      }
      var outcomes, latencies := ResultMap(results), LatencyMap(results);
      assert latencies.Keys == outcomes.Keys;
      var raised;
      raised, lists := Finish(g, state, outcomes, latencies);
      r := if raised then None else Some(state);
      if !raised && Reportable(g, previous.Core(), outcomes) {
        CommitReported(g, previous.Core(), outcomes, lists);
      }
    }
  }

  /** The whole record after a wave. */
  ghost function CommittedRecord(g: Graph, before: Record, results: seq<NodeResult>): Record
    requires Tracks(g, before.state) && ResultMap(results).Keys <= before.state.status.Keys
  {
    before.(state := Commit(g, before.state, ResultMap(results)), latencies := before.latencies + LatencyMap(results))
  }

  lemma {:induction false} NothingFires(edges: seq<Edge>, n: NodeId)
    ensures FiringOf(edges, map[n := Failure], n) == [] == BlockingOf(edges, map[n := Failure], n)
  {
    if edges != [] {
      NothingFires(edges[..|edges| - 1], n);
    }
  }

  lemma ApplyNone(g: Graph, s: State)
    ensures Apply(g, s, map[]) == s
  {
    assert Statuses(map[]) == map[] && NewOutputs(map[]) == map[];
    assert FiredIds(g, map[]) == {} && BlockedIds(g, map[]) == {} && Finalists(g, map[]) == {};
    assert s.status + map[] == s.status && s.outputs + map[] == s.outputs;
    assert s.active + {} == s.active && s.inactive + {} == s.inactive;
  }

  lemma RaisesAlone(g: Graph, results: Results, n: NodeId)
    requires n in results
    ensures Raises(g, map[n := results[n]]) <==> exists e :: e in g.edges && e.src == n && RaisesOn(results, e)
  {
    forall e | e in g.edges ensures RaisesOn(map[n := results[n]], e) <==> e.src == n && RaisesOn(results, e) {
    }
  }

  ghost function OnlyTimes(latencies: map<NodeId, nat>, done: set<NodeId>): map<NodeId, nat> {
    map n | n in latencies && n in done :: latencies[n]
  }

  /** What the loop over the results has made of the state when those in `done` are applied. */
  ghost predicate Progress(g: Graph, s0: State, times0: map<NodeId, nat>, results: Results, latencies: map<NodeId, nat>,
                           done: set<NodeId>, s: State, times: map<NodeId, nat>)
  {
    && (forall e :: e in g.edges && e.src in done ==> !RaisesOn(results, e))
    && s == Apply(g, s0, Only(results, done))
    && times == times0 + OnlyTimes(latencies, done)
  }

  lemma {:induction false} AloneSame(edges: seq<Edge>, results: Results, n: NodeId)
    requires n in results
    ensures FiringOf(edges, map[n := results[n]], n) == FiringOf(edges, results, n)
    ensures BlockingOf(edges, map[n := results[n]], n) == BlockingOf(edges, results, n)
  {
    if edges != [] {
      AloneSame(edges[..|edges| - 1], results, n);
    }
  }

  lemma ProgressStart(g: Graph, s: State, times: map<NodeId, nat>, results: Results, latencies: map<NodeId, nat>)
    ensures Progress(g, s, times, results, latencies, {}, s, times)
  {
    assert Only(results, {}) == map[] && OnlyTimes(latencies, {}) == map[];
    ApplyNone(g, s);
    assert times + map[] == times;
  }

  lemma ProgressStep(g: Graph, s0: State, times0: map<NodeId, nat>, results: Results, latencies: map<NodeId, nat>,
                     done: set<NodeId>, id: NodeId, s: State, times: map<NodeId, nat>)
    requires id in results && latencies.Keys == results.Keys && forall m :: m in done ==> m < id
    requires Progress(g, s0, times0, results, latencies, done, s, times)
    requires forall e :: e in g.edges && e.src == id ==> !RaisesOn(results, e)
    ensures Progress(g, s0, times0, results, latencies, done + {id}, ApplyOne(g, s, id, results[id]),
                     times[id := latencies[id]])
  {
    OnlyNext(results, done, id);
    ApplyNext(g, s0, Only(results, done), id, results[id]);
    TimesNext(times0, latencies, done, id);
  }

  lemma TimesNext(times0: map<NodeId, nat>, latencies: map<NodeId, nat>, done: set<NodeId>, id: NodeId)
    requires id in latencies && id !in done
    ensures times0 + OnlyTimes(latencies, done + {id}) == (times0 + OnlyTimes(latencies, done))[id := latencies[id]]
  {
    assert OnlyTimes(latencies, done + {id}) == OnlyTimes(latencies, done)[id := latencies[id]];
    AddLast(times0, OnlyTimes(latencies, done), id, latencies[id]);
  }

  /** Where the loop stands after the first i ids: the state, and the lists collected. */
  ghost predicate SoFar(g: Graph, s0: State, times0: map<NodeId, nat>, results: Results, latencies: map<NodeId, nat>,
                        ids: seq<NodeId>, i: nat, s: State, times: map<NodeId, nat>, lists: Lists)
    requires i <= |ids|
  {
    && ids == Sorted(results.Keys) && latencies.Keys == results.Keys
    && Progress(g, s0, times0, results, latencies, Elements(ids[..i]), s, times)
    && lists == ListsOf(g, results, ids[..i])
  }

  lemma SoFarStart(g: Graph, s: State, times: map<NodeId, nat>, results: Results, latencies: map<NodeId, nat>,
                   ids: seq<NodeId>)
    requires ids == Sorted(results.Keys) && latencies.Keys == results.Keys
    ensures SoFar(g, s, times, results, latencies, ids, 0, s, times, Lists([], [], []))
  {
    ProgressStart(g, s, times, results, latencies);
    assert Elements(ids[..0]) == {};
  }

  lemma SoFarStep(g: Graph, s0: State, times0: map<NodeId, nat>, results: Results, latencies: map<NodeId, nat>,
                  ids: seq<NodeId>, i: nat, s: State, times: map<NodeId, nat>, lists: Lists)
    requires i < |ids| && ids[i] in results
    requires SoFar(g, s0, times0, results, latencies, ids, i, s, times, lists)
    requires forall e :: e in g.edges && e.src == ids[i] ==> !RaisesOn(results, e)
    ensures SoFar(g, s0, times0, results, latencies, ids, i + 1, ApplyOne(g, s, ids[i], results[ids[i]]),
                  times[ids[i] := latencies[ids[i]]], lists.Then(NodeLists(g, map[ids[i] := results[ids[i]]], ids[i])))
  {
    NextElement(ids, i);
    ProgressStep(g, s0, times0, results, latencies, Elements(ids[..i]), ids[i], s, times);
    ListsNext(g, results, ids, i);
  }

  lemma NextElement(ids: seq<NodeId>, i: nat)
    requires i < |ids| && Increasing(ids)
    ensures Elements(ids[..i + 1]) == Elements(ids[..i]) + {ids[i]}
    ensures forall m :: m in Elements(ids[..i]) ==> m < ids[i]
  {
    assert ids[..i + 1] == ids[..i] + [ids[i]];
  }

  lemma ListsNext(g: Graph, results: Results, ids: seq<NodeId>, i: nat)
    requires i < |ids| && forall id :: id in ids ==> id in results
    ensures ids[i] in results && forall id :: id in ids[..i] || id in ids[..i + 1] ==> id in results
    ensures ListsOf(g, results, ids[..i + 1]) ==
            ListsOf(g, results, ids[..i]).Then(NodeLists(g, map[ids[i] := results[ids[i]]], ids[i]))
  {
    assert ids[i] in ids;
    assert ids[..i + 1][..i] == ids[..i];
    AloneSame(g.edges, results, ids[i]);
  }

  lemma ProgressAll(g: Graph, s0: State, times0: map<NodeId, nat>, results: Results, latencies: map<NodeId, nat>,
                    s: State, times: map<NodeId, nat>)
    requires Progress(g, s0, times0, results, latencies, results.Keys, s, times) && latencies.Keys == results.Keys
    ensures s == Apply(g, s0, results) && times == times0 + latencies && !Raises(g, results)
  {
    assert Only(results, results.Keys) == results;
    assert OnlyTimes(latencies, results.Keys) == latencies;
  }

  /** Every result is applied and none raised. */
  ghost predicate Applied(g: Graph, s0: State, times0: map<NodeId, nat>, results: Results, latencies: map<NodeId, nat>,
                          s: State, times: map<NodeId, nat>, lists: Lists)
  {
    && !Raises(g, results)
    && s == Apply(g, s0, results)
    && times == times0 + latencies
    && lists == ListsOf(g, results, Sorted(results.Keys))
  }

  lemma WholeList(ids: seq<NodeId>, all: set<NodeId>)
    requires ids == Sorted(all)
    ensures ids[..|ids|] == ids && Elements(ids) == all
  {
  }

  lemma AllApplied(g: Graph, s0: State, times0: map<NodeId, nat>, results: Results, latencies: map<NodeId, nat>,
                   ids: seq<NodeId>, s: State, times: map<NodeId, nat>, lists: Lists)
    requires SoFar(g, s0, times0, results, latencies, ids, |ids|, s, times, lists)
    ensures Applied(g, s0, times0, results, latencies, s, times, lists)
  {
    WholeList(ids, results.Keys);
    ProgressAll(g, s0, times0, results, latencies, s, times);
  }

  ghost predicate OutputsIn(o: Outcome, arts: set<Artifact>) {
    o.Success? ==> forall slot :: slot in o.outputs ==> o.outputs[slot] in arts
  }

  ghost function FiredAmong(edges: seq<Edge>, results: Results): set<EdgeId> {
    set e | e in edges && Fires(results, e) :: e.id
  }

  ghost function BlockedAmong(edges: seq<Edge>, results: Results): set<EdgeId> {
    set e | e in edges && Blocks(results, e) :: e.id
  }

  ghost predicate EdgesResolved(edges: seq<Edge>, one: Results, n: NodeId, active0: set<EdgeId>, inactive0: set<EdgeId>,
                                active: set<EdgeId>, inactive: set<EdgeId>, activated: seq<EdgeId>,
                                disabled: seq<EdgeId>)
  {
    && (forall e :: e in edges ==> !RaisesOn(one, e))
    && active == active0 + FiredAmong(edges, one)
    && inactive == inactive0 + BlockedAmong(edges, one)
    && activated == FiringOf(edges, one, n)
    && disabled == BlockingOf(edges, one, n)
  }

  lemma AmongStep(edges: seq<Edge>, i: nat, one: Results, n: NodeId, active0: set<EdgeId>, inactive0: set<EdgeId>,
                  active: set<EdgeId>, inactive: set<EdgeId>, activated: seq<EdgeId>, disabled: seq<EdgeId>)
    requires i < |edges| && one.Keys == {n} && !RaisesOn(one, edges[i])
    requires EdgesResolved(edges[..i], one, n, active0, inactive0, active, inactive, activated, disabled)
    ensures var e := edges[i];
            var fires, blocks := if Fires(one, e) then [e.id] else [], if Blocks(one, e) then [e.id] else [];
            EdgesResolved(edges[..i + 1], one, n, active0, inactive0, active + Elements(fires),
                          inactive + Elements(blocks), activated + fires, disabled + blocks)
  {
    assert edges[..i + 1] == edges[..i] + [edges[i]];
    assert edges[..i + 1][..i] == edges[..i];
  }

  lemma ResultInMap(results: seq<NodeResult>, r: NodeResult)
    requires DistinctResults(results) && r in results
    ensures r.node in ResultMap(results) && ResultMap(results)[r.node] == r.outcome
    ensures r.node in LatencyMap(results) && LatencyMap(results)[r.node] == r.latency
    ensures r.outcome.Success? ==>
      forall slot :: slot in r.outcome.outputs ==> r.outcome.outputs[slot] in ArtifactsOf(ResultMap(results))
  {
    var m := ResultMap(results);
    var q :| q in results && q.node == r.node && m[r.node] == q.outcome;
    DistinctMembers(results, q, r);
    var q' :| q' in results && q'.node == r.node && LatencyMap(results)[r.node] == q'.latency;
    DistinctMembers(results, q', r);
  }

  /** The artifacts of the first i results have been put. */
  ghost predicate PutSoFar(results: seq<NodeResult>, i: nat, before: Files, done: set<Artifact>, arts: set<Artifact>,
                           files: Files)
    requires i <= |results|
  {
    && FilesStored(before, done, files) && done <= arts
    && forall j :: 0 <= j < i ==> OutputsIn(results[j].outcome, done)
  }

  lemma PutNext(results: seq<NodeResult>, i: nat, done: set<Artifact>, done': set<Artifact>)
    requires i < |results| && done <= done' && OutputsIn(results[i].outcome, done')
    requires forall j :: 0 <= j < i ==> OutputsIn(results[j].outcome, done)
    ensures forall j :: 0 <= j < i + 1 ==> OutputsIn(results[j].outcome, done')
  {
  }

  lemma AllPut(results: seq<NodeResult>, before: Files, done: set<Artifact>, arts: set<Artifact>, files: Files)
    requires DistinctResults(results) && arts == ArtifactsOf(ResultMap(results))
    requires PutSoFar(results, |results|, before, done, arts, files)
    ensures FilesStored(before, arts, files) && FilesPartlyStored(before, arts, files)
  {
    assert forall r :: r in results ==> OutputsIn(r.outcome, done);
    AllDone(results, done);
    StoredIsPartly(before, done, files, arts);
  }

  lemma AllDone(results: seq<NodeResult>, done: set<Artifact>)
    requires DistinctResults(results)
    requires forall r :: r in results ==> OutputsIn(r.outcome, done)
    ensures ArtifactsOf(ResultMap(results)) <= done
  {
    var m := ResultMap(results);
    forall n, slot | n in m && m[n].Success? && slot in m[n].outputs ensures m[n].outputs[slot] in done {
      var r :| r in results && r.node == n && m[n] == r.outcome;
      assert OutputsIn(r.outcome, done);
    }
  }
}
