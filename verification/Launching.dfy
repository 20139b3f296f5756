/** One wave of the execute loop on values: what launching the ready nodes does to the state, and when
    a commit completes a step. */
module Launching {
  import opened Types
  import opened Sorting
  import opened Scheduling
  import opened Stores
  import opened Committing
  import opened Committer
  import opened Reports
  import opened Runs
  import opened Endings
  import opened References
  import opened Resume
  import Compiler

  /* ---------- launching ---------- */

  /** The ready nodes marked as running. */
  ghost function Launch(s: State, ids: set<NodeId>): State {
    s.(status := s.status + map id | id in ids :: Running)
  }

  lemma LaunchAnother(s: State, ids: set<NodeId>, id: NodeId)
    ensures Launch(s, ids + {id}).status == Launch(s, ids).status[id := Running]
  {
  }

  lemma LaunchTracks(g: Graph, s: State, ids: set<NodeId>)
    requires Tracks(g, s) && ids <= s.status.Keys
    ensures Tracks(g, Launch(s, ids)) && Launch(s, ids).status.Keys == s.status.Keys
  {
    assert Launch(s, ids).status.Keys == s.status.Keys;
  }

  /** The running marks are gone after the commit. */
  lemma LaunchInvisible(g: Graph, s: State, results: Results)
    requires Tracks(g, s) && results.Keys <= s.status.Keys
    requires Tracks(g, Launch(s, results.Keys)) && results.Keys <= Launch(s, results.Keys).status.Keys
    ensures Commit(g, Launch(s, results.Keys), results) == Commit(g, s, results)
  {
    var l := Launch(s, results.Keys);
    assert l.status + Statuses(results) == s.status + Statuses(results);
    assert Apply(g, l, results) == Apply(g, s, results);
  }

  /** The launched nodes are running; nothing else has changed. */
  lemma LaunchMarks(s: State, ids: set<NodeId>, n: NodeId)
    ensures var l := Launch(s, ids);
            && l == s.(status := l.status)
            && (n in l.status <==> n in s.status || n in ids)
            && (n in ids ==> l.status[n] == Running)
            && (n in s.status && n !in ids ==> l.status[n] == s.status[n])
  {
  }

  /** So what the loop hands to the committer can be reported. */
  lemma LaunchReportable(g: Graph, initial: map<Slot, ArtifactId>, s: State, results: Results)
    requires Compiler.DistinctEdges(g) && StateInv(g, initial, s) && GoodResults(s, results)
    ensures Reportable(g, Launch(s, results.Keys), results)
  {
    var l := Launch(s, results.Keys);
    forall e | e in g.edges ensures EdgeStatus(l, e) {
      assert EdgeStatus(s, e);
    }
  }

  /** The states differ at most in the nodes' statuses. */
  ghost predicate SameData(s: State, s': State) {
    s.active == s'.active && s.outputs == s'.outputs && s.initial == s'.initial && s.waveId == s'.waveId
  }

  lemma {:induction false} FirstSame(s: State, s': State, edges: seq<Edge>)
    requires SameData(s, s')
    ensures FirstAvailable(s, edges) == FirstAvailable(s', edges)
  {
    if edges != [] {
      FirstSame(s, s', edges[1..]);
    }
  }

  /** Marking nodes as running does not change what the others are given. */
  lemma DeliveredSame(g: Graph, s: State, s': State, store: Store, n: Node)
    requires SameData(s, s')
    ensures Delivered(g, s, store, n) == Delivered(g, s', store, n)
  {
    forall slot ensures ResolvedId(g, s, n.id, slot) == ResolvedId(g, s', n.id, slot) {
      FirstSame(s, s', EdgesInto(g.edges, n.id, slot));
    }
  }

  lemma NamesSame(s: State, s': State, store: Store)
    requires SameData(s, s') && Referenced(s, store)
    ensures Referenced(s', store)
  {
    forall id | Names(s', id) ensures id in store {
      assert Names(s, id);
    }
  }

  /** The ids that a node's slots resolve to are all readable. */
  lemma ResolvedReadable(g: Graph, s: State, n: Node, store: Store)
    requires Referenced(s, store)
    ensures forall slot :: slot in ResolvedInputs(g, s, n) ==> ResolvedInputs(g, s, n)[slot] in store
  {
    forall slot | slot in ResolvedInputs(g, s, n) ensures ResolvedInputs(g, s, n)[slot] in store {
      ResolvedIsNamed(g, s, n.id, slot);
    }
  }

  lemma LoadedAll(g: Graph, s: State, store: Store, n: Node, resolved: map<Slot, ArtifactId>, ins: Inputs)
    requires resolved == ResolvedInputs(g, s, n) && ins.Keys == resolved.Keys
    requires forall slot :: slot in ins ==> resolved[slot] in store && ins[slot] == store[resolved[slot]]
    ensures ins == Delivered(g, s, store, n)
  {
  }

  /** This is what the executor returned for the node, and how long it took in this wave. */
  ghost predicate ResultOf(g: Graph, a: Attempt, s: State, store: Store, id: NodeId, r: NodeResult) {
    && r.node == id && id in Ids(g)
    && r.outcome == a.run(id, Delivered(g, s, store, NodeOf(g.nodes, id)))
    && r.latency == a.clock(s.waveId, id)
  }

  /** The results so far are those of the first i ready nodes. */
  ghost predicate ResultsFor(g: Graph, a: Attempt, s: State, store: Store, ready: seq<NodeId>,
                             results: seq<NodeResult>)
  {
    |results| <= |ready| && forall i :: 0 <= i < |results| ==> ResultOf(g, a, s, store, ready[i], results[i])
  }

  /** The ready nodes exist, and every artifact the state names can be read. */
  ghost predicate Startable(g: Graph, s: State, files: Files, task: TaskId, ready: seq<NodeId>) {
    Elements(ready) <= Ids(g) && Referenced(s, Readable(files, task))
  }

  function Started(results: seq<NodeResult>): set<NodeId> {
    set r | r in results :: r.node
  }

  /** Where the launch loop stands when it has these results. */
  ghost predicate Launched(g: Graph, a: Attempt, s: State, files: Files, task: TaskId, ready: seq<NodeId>,
                           results: seq<NodeResult>, s': State)
  {
    && Startable(g, s, files, task, ready)
    && ResultsFor(g, a, s, TaskFiles(files, task), ready, results)
    && s' == Launch(s, Started(results))
  }

  lemma ResultSame(g: Graph, a: Attempt, s: State, s': State, store: Store, id: NodeId, r: NodeResult)
    requires SameData(s, s') && ResultOf(g, a, s, store, id, r)
    ensures ResultOf(g, a, s', store, id, r)
  {
    DeliveredSame(g, s, s', store, NodeOf(g.nodes, id));
  }

  lemma ResultsNext(g: Graph, a: Attempt, s: State, store: Store, ready: seq<NodeId>, results: seq<NodeResult>,
                    r: NodeResult)
    requires ResultsFor(g, a, s, store, ready, results) && |results| < |ready|
    requires ResultOf(g, a, s, store, ready[|results|], r)
    ensures ResultsFor(g, a, s, store, ready, results + [r])
  {
  }

  lemma LaunchedReferenced(g: Graph, a: Attempt, s: State, files: Files, task: TaskId, ready: seq<NodeId>,
                           results: seq<NodeResult>, s': State)
    requires Launched(g, a, s, files, task, ready, results, s') && |results| < |ready|
    ensures Referenced(s', Readable(files, task)) && ready[|results|] in Ids(g)
  {
    NamesSame(s, s', Readable(files, task));
  }

  lemma LaunchNone(g: Graph, a: Attempt, s: State, files: Files, task: TaskId, ready: seq<NodeId>)
    requires Startable(g, s, files, task, ready)
    ensures Launched(g, a, s, files, task, ready, [], s)
  {
    assert s.status + (map id | id in Started([]) :: Running) == s.status;
  }

  lemma LaunchedNext(g: Graph, a: Attempt, s: State, files: Files, task: TaskId, ready: seq<NodeId>,
                     results: seq<NodeResult>, now: State, r: NodeResult, next: State)
    requires Launched(g, a, s, files, task, ready, results, now) && |results| < |ready|
    requires ResultOf(g, a, now, TaskFiles(files, task), ready[|results|], r)
    requires next == now.(status := now.status[ready[|results|] := Running])
    ensures Launched(g, a, s, files, task, ready, results + [r], next)
  {
    LaunchedResults(g, a, s, files, task, ready, results, now, r);
    StartedNext(results, r);
    LaunchAnother(s, Started(results), r.node);
  }

  lemma StartedNext(results: seq<NodeResult>, r: NodeResult)
    ensures Started(results + [r]) == Started(results) + {r.node}
  {
  }

  lemma LaunchedResults(g: Graph, a: Attempt, s: State, files: Files, task: TaskId, ready: seq<NodeId>,
                        results: seq<NodeResult>, now: State, r: NodeResult)
    requires Launched(g, a, s, files, task, ready, results, now) && |results| < |ready|
    requires ResultOf(g, a, now, TaskFiles(files, task), ready[|results|], r)
    ensures ResultsFor(g, a, s, TaskFiles(files, task), ready, results + [r])
  {
    var store := TaskFiles(files, task);
    ResultSame(g, a, now, s, store, ready[|results|], r);
    ResultsNext(g, a, s, store, ready, results, r);
  }

  ghost predicate NodesAre(results: seq<NodeResult>, ready: seq<NodeId>) {
    |results| == |ready| && forall i :: 0 <= i < |ready| ==> results[i].node == ready[i]
  }

  lemma ResultNodes(g: Graph, a: Attempt, s: State, store: Store, ready: seq<NodeId>, results: seq<NodeResult>)
    requires ResultsFor(g, a, s, store, ready, results) && |results| == |ready|
    ensures NodesAre(results, ready)
  {
  }

  lemma HasResult(results: seq<NodeResult>, ready: seq<NodeId>, id: NodeId)
    requires NodesAre(results, ready)
    ensures (exists r :: r in results && r.node == id) <==> id in ready
  {
    if r :| r in results && r.node == id {
      var i :| 0 <= i < |results| && results[i] == r;
      assert ready[i] == id;
    }
    if id in ready {
      var i :| 0 <= i < |ready| && ready[i] == id;
      assert results[i] in results;
    }
  }

  lemma ResultIs(g: Graph, a: Attempt, s: State, store: Store, ready: seq<NodeId>, results: seq<NodeResult>,
                 r: NodeResult)
    requires ResultsFor(g, a, s, store, ready, results) && r in results
    ensures ResultOf(g, a, s, store, r.node, r)
  {
  }

  lemma ResultsAreOutcomes(g: Graph, a: Attempt, s: State, store: Store, ready: seq<NodeId>, results: seq<NodeResult>)
    requires ResultsFor(g, a, s, store, ready, results) && NodesAre(results, ready)
    ensures ResultMap(results) == Outcomes(g, a.run, s, store, ready)
  {
    var m := ResultMap(results);
    forall id ensures id in m <==> id in ready {
      HasResult(results, ready, id);
    }
    forall id | id in m ensures id in Ids(g) && m[id] == a.run(id, Delivered(g, s, store, NodeOf(g.nodes, id))) {
      var r :| r in results && r.node == id && m[id] == r.outcome;
      ResultIs(g, a, s, store, ready, results, r);
    }
    AreOutcomes(g, a, s, store, ready, m);
  }

  lemma AreOutcomes(g: Graph, a: Attempt, s: State, store: Store, ready: seq<NodeId>, m: Results)
    requires forall id :: id in m <==> id in ready
    requires forall id :: id in m ==>
        id in Ids(g) && m[id] == a.run(id, Delivered(g, s, store, NodeOf(g.nodes, id)))
    ensures m == Outcomes(g, a.run, s, store, ready)
  {
    var o := Outcomes(g, a.run, s, store, ready);
    forall id ensures id in m <==> id in o {
    }
  }

  /** What the clock says of these nodes in this wave. */
  ghost function Times(a: Attempt, wave: nat, ids: set<NodeId>): map<NodeId, nat> {
    map id | id in ids :: a.clock(wave, id)
  }

  /** Every ready node has run: they are marked, and the results are what the executors return, timed by
      the clock. */
  ghost predicate Ran(g: Graph, a: Attempt, s: State, store: Store, ready: seq<NodeId>, results: seq<NodeResult>,
                      s': State)
  {
    && s' == Launch(s, Elements(ready))
    && DistinctResults(results)
    && ResultMap(results) == Outcomes(g, a.run, s, store, ready)
    && LatencyMap(results) == Times(a, s.waveId, Elements(ready))
  }

  lemma AllStarted(results: seq<NodeResult>, ready: seq<NodeId>)
    requires NodesAre(results, ready)
    ensures Started(results) == Elements(ready)
  {
    forall id ensures id in Started(results) <==> id in ready {
      HasResult(results, ready, id);
    }
  }

  lemma LaunchedAll(g: Graph, a: Attempt, s: State, files: Files, task: TaskId, ready: seq<NodeId>,
                    results: seq<NodeResult>, s': State)
    requires Launched(g, a, s, files, task, ready, results, s') && |results| == |ready| && Distinct(ready)
    ensures Ran(g, a, s, TaskFiles(files, task), ready, results, s')
  {
    ResultNodes(g, a, s, TaskFiles(files, task), ready, results);
    AllStarted(results, ready);
    ResultsAreOutcomes(g, a, s, TaskFiles(files, task), ready, results);
    NodesDistinct(results, ready);
    ResultTimes(g, a, s, TaskFiles(files, task), ready, results);
  }

  lemma NodesDistinct(results: seq<NodeResult>, ready: seq<NodeId>)
    requires NodesAre(results, ready) && Distinct(ready)
    ensures DistinctResults(results)
  {
    forall i, j | 0 <= i < j < |results| ensures results[i].node != results[j].node {
      assert results[i].node == ready[i] && results[j].node == ready[j];
    }
  }

  lemma ResultTimes(g: Graph, a: Attempt, s: State, store: Store, ready: seq<NodeId>, results: seq<NodeResult>)
    requires ResultsFor(g, a, s, store, ready, results) && NodesAre(results, ready)
    ensures LatencyMap(results) == Times(a, s.waveId, Elements(ready))
  {
    var m := LatencyMap(results);
    forall id ensures id in m <==> id in ready {
      HasResult(results, ready, id);
    }
    forall id | id in m ensures m[id] == a.clock(s.waveId, id) {
      var r :| r in results && r.node == id && m[id] == r.latency;
      TimeIs(g, a, s, store, ready, results, r);
    }
  }

  lemma TimeIs(g: Graph, a: Attempt, s: State, store: Store, ready: seq<NodeId>, results: seq<NodeResult>,
               r: NodeResult)
    requires ResultsFor(g, a, s, store, ready, results) && r in results
    ensures r.latency == a.clock(s.waveId, r.node)
  {
  }

  /* ---------- committing ---------- */

  /** What the loop keeps true of the in-memory state and the disk, between waves. */
  ghost predicate Steady(g: Graph, initial: map<Slot, ArtifactId>, a: Attempt, task: TaskId, files: Files, s: State) {
    && StateInv(g, initial, s)
    && Referenced(s, Readable(files, task))
    && OwnOutputs(files, task, a.run)
  }

  ghost predicate SameButState(before: Record, after: Record) {
    && after.task == before.task && after.graphHash == before.graphHash && after.contractHash == before.contractHash
    && after.latencies == before.latencies
  }

  /** The results can be handed to the committer. */
  lemma RanCommittable(g: Graph, a: Attempt, s: State, store: Store, ready: seq<NodeId>, results: seq<NodeResult>,
                       s': State)
    requires Tracks(g, s) && Elements(ready) <= s.status.Keys && Elements(ready) <= Ids(g)
    requires Ran(g, a, s, store, ready, results, s')
    ensures Tracks(g, s') && DistinctResults(results) && ResultMap(results).Keys <= s'.status.Keys
  {
    LaunchTracks(g, s, Elements(ready));
  }

  lemma RanCommitted(g: Graph, a: Attempt, store: Store, ready: seq<NodeId>, results: seq<NodeResult>, record: Record,
                     launched: Record, before: Files, after: Files, next: Record)
    requires Tracks(g, record.state) && Elements(ready) <= record.state.status.Keys && Elements(ready) <= Ids(g)
    requires Ran(g, a, record.state, store, ready, results, launched.state) && SameButState(record, launched)
    requires Tracks(g, launched.state) && ResultMap(results).Keys <= launched.state.status.Keys
    requires next == CommittedRecord(g, launched, results)
    requires !Raises(g, ResultMap(results)) && FilesStored(before, ArtifactsOf(ResultMap(results)), after)
    ensures WaveDone(g, a, record, Outcomes(g, a.run, record.state, store, ready), before, after, next)
  {
    RanKeys(g, a, record.state, store, ready, results, launched.state);
    LaunchInvisible(g, record.state, ResultMap(results));
  }

  lemma RanKeys(g: Graph, a: Attempt, s: State, store: Store, ready: seq<NodeId>, results: seq<NodeResult>, s': State)
    requires Ran(g, a, s, store, ready, results, s') && Elements(ready) <= Ids(g)
    ensures ResultMap(results).Keys == Elements(ready)
  {
  }

  /** These outcomes cannot all be stored, or a comparison raises on one of them. */
  ghost predicate Refused(g: Graph, outcomes: Results, files: Files) {
    Raises(g, outcomes) || forall after :: !FilesStored(files, ArtifactsOf(outcomes), after)
  }

  /** These outcomes are stored and committed, and exactly they are timed, by the clock in this wave. */
  ghost predicate WaveDone(g: Graph, a: Attempt, record: Record, outcomes: Results, before: Files, after: Files,
                           next: Record)
  {
    && Tracks(g, record.state) && outcomes.Keys <= record.state.status.Keys
    && !Raises(g, outcomes)
    && FilesStored(before, ArtifactsOf(outcomes), after)
    && next.state == Commit(g, record.state, outcomes)
    && next.task == record.task && next.graphHash == record.graphHash && next.contractHash == record.contractHash
    && next.latencies == record.latencies + Times(a, record.state.waveId, outcomes.Keys)
  }

  /* ---------- one iteration ---------- */

  /** Memory and disk at the top of the loop, not yet frozen. */
  ghost predicate AtTop(g: Graph, task: TaskId, files: Files, c: Config) {
    && Tracks(g, c.st) && Referenced(c.st, Readable(files, task)) && c.store == TaskFiles(files, task)
    && !c.st.frozen && c.st.final.None?
  }

  /** After the skip pass, with the ready nodes found. */
  ghost predicate Poised(g: Graph, k: int, task: TaskId, files: Files, c: Config, s: State, ready: seq<NodeId>) {
    && AtTop(g, task, files, c)
    && s == SkipPass(g, c.st)
    && ready == ReadyList(g, SkipPass(g, c.st), k)
  }

  ghost function AfterSkip(g: Graph, record: Record): Record
    requires Tracks(g, record.state)
  {
    record.(state := SkipPass(g, record.state))
  }

  /** What a wave is made of. */
  lemma WaveFacts(g: Graph, a: Attempt, c: Config, files: Files, task: TaskId, ready: seq<NodeId>)
    requires Tracks(g, c.st) && Referenced(c.st, Readable(files, task)) && c.store == TaskFiles(files, task)
    requires ready == ReadyList(g, SkipPass(g, c.st), a.limit)
    ensures Distinct(ready) && Startable(g, SkipPass(g, c.st), files, task, ready)
    ensures IsOutcome(g, a, SkipPass(g, c.st), files, task, ready, WaveResults(g, a.limit, a.run, c))
  {
    WaveResultsKeys(g, a.limit, a.run, c);
    SliceIncreasing(Sorted(ReadySet(g, SkipPass(g, c.st))), a.limit);
    SkipReferenced(g, c.st, Readable(files, task));
    assert forall id :: id in ready ==> id in WaveResults(g, a.limit, a.run, c).Keys;
  }

  /** What the executors return for the ready nodes, all of them known. */
  ghost predicate IsOutcome(g: Graph, a: Attempt, s: State, files: Files, task: TaskId, ready: seq<NodeId>,
                            outcomes: Results)
  {
    && outcomes == Outcomes(g, a.run, s, TaskFiles(files, task), ready)
    && outcomes.Keys == Elements(ready) <= s.status.Keys
  }

  /** The wave is launched, but a put or a comparison fails. */
  ghost predicate Aborts(g: Graph, a: Attempt, c: Config, before: Files, after: Files) {
    && Launches(g, a.limit, c.st)
    && Refused(g, WaveResults(g, a.limit, a.run, c), before)
    && FilesPartlyStored(before, ArtifactsOf(WaveResults(g, a.limit, a.run, c)), after)
  }

  /** The wave goes through. */
  ghost predicate IsNext(g: Graph, a: Attempt, c: Config, before: Files, after: Files, record: Record,
                         next: Record)
  {
    && Tracks(g, c.st) && !c.st.frozen && record.state == c.st && ReadyList(g, SkipPass(g, c.st), a.limit) != []
    && WaveDone(g, a, AfterSkip(g, record), WaveResults(g, a.limit, a.run, c), before, after, next)
  }

  /** Then it is a step, and leaves memory and disk steady. */
  lemma NextIsStep(g: Graph, initial: map<Slot, ArtifactId>, a: Attempt, c: Config, record: Record,
                   before: Files, after: Files, next: Record)
    requires Wired(g) && Steady(g, initial, a, record.task, before, c.st)
    requires AtTop(g, record.task, before, c) && IsNext(g, a, c, before, after, record, next)
    ensures Step(g, a.limit, a.run, c, At(next.state, after, record.task))
    ensures Steady(g, initial, a, record.task, after, next.state)
  {
    WaveIsOwn(g, a.limit, a.run, c, before, record.task);
    PutsExtend(before, ArtifactsOf(WaveResults(g, a.limit, a.run, c)), after, record.task);
    WaveIsStep(g, a, c, record, before, after, next);
    StepInv(g, initial, a.limit, a.run, c, At(next.state, after, record.task));
    OwnStays(before, after, record.task, a.run);
    NextReferenced(g, initial, a.limit, a.run, c, Readable(before, record.task), Readable(after, record.task));
  }

  lemma WaveIsStep(g: Graph, a: Attempt, c: Config, record: Record, before: Files, after: Files, next: Record)
    requires AtTop(g, record.task, before, c) && IsNext(g, a, c, before, after, record, next)
    requires Stored(c.store, ArtifactsOf(WaveResults(g, a.limit, a.run, c)), TaskFiles(after, record.task))
    ensures Step(g, a.limit, a.run, c, At(next.state, after, record.task))
  {
  }

  /** How a call of `execute` comes back. */
  datatype Ending =
    | Finished(record: Record, totalLatency: nat, criticalLatency: nat)
    | DeadlockError(report: map<NodeId, Status>)
    | DriftError
    | Raised

  /** The loop ends here: a deadlock, reported after the skip pass, or an exception in the wave. */
  ghost predicate Stops(g: Graph, a: Attempt, c: Config, before: Files, after: Files, out: Ending) {
    match out
    case DeadlockError(report) => Deadlocks(g, a.limit, c.st) && report == SkipPass(g, c.st).status && after == before
    case Raised => Aborts(g, a, c, before, after)
    case _ => false
  }
}
