/** `NativeAsyncRuntime.execute`: the loop itself, against the transition system of module Runs. */
module Runtime {
  import opened Types
  import opened Sorting
  import opened Layering
  import opened Scheduling
  import opened Stores
  import opened Committing
  import opened RuntimeStates
  import opened Committer
  import opened Runs
  import opened Endings
  import opened References
  import opened Resume
  import opened Launching
  import opened Execution
  import opened CriticalPath

  class NativeAsyncRuntime {
    const artifacts: FileArtifactStore
    const checkpoints: CheckpointStore
    /** The executors' answers, and how long they take in each wave. */
    const run: Oracle
    const clock: Clock

    constructor (artifacts: FileArtifactStore, checkpoints: CheckpointStore, run: Oracle, clock: Clock)
      ensures this.artifacts == artifacts && this.checkpoints == checkpoints && this.run == run && this.clock == clock
    {
      this.artifacts, this.checkpoints, this.run, this.clock := artifacts, checkpoints, run, clock;
    }

    /** It runs with these executors and this clock. */
    ghost predicate RunsAs(a: Attempt) {
      a.run == run && a.clock == clock
    }

    /** Fetches the artifact of every slot. */
    method FetchAll(resolved: map<Slot, ArtifactId>, ghost task: TaskId) returns (ins: Inputs)
      requires forall slot :: slot in resolved ==> resolved[slot] in Readable(artifacts.files, task)
      ensures ins.Keys == resolved.Keys
      ensures forall slot :: slot in ins ==> resolved[slot] in TaskFiles(artifacts.files, task)
                                             && ins[slot] == TaskFiles(artifacts.files, task)[resolved[slot]]
    {
      ins := map[];
      ghost var files := artifacts.files;
      var todo := resolved.Keys;
      while todo != {}
        invariant todo <= resolved.Keys
        invariant forall slot :: slot in ins <==> slot in resolved && slot !in todo
        invariant forall slot :: slot in ins ==> resolved[slot] in TaskFiles(files, task)
                                                 && ins[slot] == TaskFiles(files, task)[resolved[slot]]
        decreases todo
      {
        var slot :| slot in todo;
        ReadableFetches(files, task, resolved[slot]);
        var a := artifacts.Get(resolved[slot]);
        ins := ins[slot := a.value];
        todo := todo - {slot};
      }
    }

    /** `_load_inputs`. Every id a readable state names can be fetched. */
    method LoadInputs(g: Graph, s: State, id: NodeId, scheduler: Scheduler, ghost task: TaskId) returns (ins: Inputs)
      requires id in Ids(g) && Referenced(s, Readable(artifacts.files, task))
      ensures ins == Delivered(g, s, TaskFiles(artifacts.files, task), NodeOf(g.nodes, id))
    {
      var resolved := scheduler.ResolveInputIds(g, s, id);
      ResolvedReadable(g, s, NodeOf(g.nodes, id), Readable(artifacts.files, task));
      ins := FetchAll(resolved, task);
      LoadedAll(g, s, TaskFiles(artifacts.files, task), NodeOf(g.nodes, id), resolved, ins);
    }

    /** Marks one node as running, loads its inputs and runs it. */
    method LaunchOne(g: Graph, state: RuntimeState, id: NodeId, scheduler: Scheduler, ghost a: Attempt,
                     ghost task: TaskId, ghost files: Files)
      returns (r: NodeResult)
      requires RunsAs(a)
      requires id in Ids(g) && Referenced(state.Core(), Readable(files, task)) && files == artifacts.files
      modifies state`nodeStatus
      ensures state.Core() == old(state.Core()).(status := old(state.nodeStatus)[id := Running])
      ensures ResultOf(g, a, old(state.Core()), TaskFiles(files, task), id, r)
    {
      ghost var s := state.Core();
      state.nodeStatus := state.nodeStatus[id := Running];
      NamesSame(s, state.Core(), Readable(files, task));
      var ins := LoadInputs(g, state.Core(), id, scheduler, task);
      DeliveredSame(g, s, state.Core(), TaskFiles(files, task), NodeOf(g.nodes, id));
      r := NodeResult(id, run(id, ins), clock(state.waveId, id));
    }

    /** One round of the launch loop. */
    method LaunchNext(g: Graph, state: RuntimeState, ready: seq<NodeId>, before: seq<NodeResult>, scheduler: Scheduler,
                      ghost a: Attempt, ghost s: State, ghost task: TaskId, ghost files: Files)
      returns (r: NodeResult)
      requires RunsAs(a) && |before| < |ready| && files == artifacts.files
      requires Launched(g, a, s, files, task, ready, before, state.Core())
      modifies state`nodeStatus
      ensures Launched(g, a, s, files, task, ready, before + [r], state.Core())
    {
      ghost var now := state.Core();
      LaunchedReferenced(g, a, s, files, task, ready, before, now);
      r := LaunchOne(g, state, ready[|before|], scheduler, a, task, files);
      LaunchedNext(g, a, s, files, task, ready, before, now, r, state.Core());
    }

    /** The ready nodes one after the other; what a node is given does not depend on the order. */
    method LaunchReady(g: Graph, state: RuntimeState, ready: seq<NodeId>, scheduler: Scheduler, ghost a: Attempt,
                       ghost task: TaskId, ghost files: Files)
      returns (results: seq<NodeResult>)
      requires RunsAs(a)
      requires Startable(g, state.Core(), files, task, ready) && files == artifacts.files
      modifies state`nodeStatus
      ensures Launched(g, a, old(state.Core()), files, task, ready, results, state.Core())
      ensures |results| == |ready|
    {
      results := [];
      ghost var s := state.Core();
      LaunchNone(g, a, s, files, task, ready);
      while |results| < |ready|
        invariant |results| <= |ready|
        invariant Launched(g, a, s, files, task, ready, results, state.Core())
      {
        var r := LaunchNext(g, state, ready, results, scheduler, a, s, task, files);
        results := results + [r];
      }
    }

    /** The results of the ready nodes, as a map. */
    method RunReady(g: Graph, state: RuntimeState, ready: seq<NodeId>, scheduler: Scheduler, ghost a: Attempt,
                    ghost files: Files)
      returns (results: seq<NodeResult>)
      requires RunsAs(a)
      requires Startable(g, state.Core(), files, state.taskId, ready) && Distinct(ready) && files == artifacts.files
      modifies state`nodeStatus
      ensures Ran(g, a, old(state.Core()), TaskFiles(files, state.taskId), ready, results, state.Core())
      ensures state.nodeLatencies == old(state.nodeLatencies)
    {
      ghost var s := state.Core();
      results := LaunchReady(g, state, ready, scheduler, a, state.taskId, files);
      assert state.nodeLatencies == old(state.nodeLatencies);
      LaunchedAll(g, a, s, files, state.taskId, ready, results, state.Core());
    }

    /** Runs the ready nodes and commits their results. */
    method RunAndCommit(g: Graph, state: RuntimeState, ready: seq<NodeId>, scheduler: Scheduler,
                        committer: WaveCommitter, ghost a: Attempt, ghost files: Files, ghost outcomes: Results)
      returns (next: Option<RuntimeState>)
      requires RunsAs(a)
      requires Startable(g, state.Core(), files, state.taskId, ready) && Distinct(ready) && files == artifacts.files
      requires committer.store == artifacts && UniqueNodes(g) && Tracks(g, state.Core())
      requires IsOutcome(g, a, state.Core(), files, state.taskId, ready, outcomes)
      modifies artifacts, state`nodeStatus
      ensures FilesPartlyStored(files, ArtifactsOf(outcomes), artifacts.files)
      ensures next.None? ==> Refused(g, outcomes, files)
      ensures next.Some? ==> fresh(next.value)
      ensures next.Some? ==>
        WaveDone(g, a, old(state.ToRecord()), outcomes, files, artifacts.files, next.value.ToRecord())
    {
      ghost var record := state.ToRecord();
      var results := RunReady(g, state, ready, scheduler, a, files);
      ghost var launched := state.ToRecord();
      assert SameButState(record, launched);
      RanCommittable(g, a, record.state, TaskFiles(files, state.taskId), ready, results, launched.state);
      var lists;
      next, lists := committer.CommitWave(g, state, results);
      if next.Some? {
        RanCommitted(g, a, TaskFiles(files, state.taskId), ready, results, record, launched, files, artifacts.files,
                     next.value.ToRecord());
      }
    }

    /** The skip pass at the top of the loop, and the nodes that are ready after it. */
    method SkipAndFind(g: Graph, state: RuntimeState, scheduler: Scheduler, committer: WaveCommitter, ghost s: State)
      returns (ready: seq<NodeId>)
      requires UniqueNodes(g) && Tracks(g, s) && state.Core() == s
      modifies state`nodeStatus
      ensures state.ToRecord() == AfterSkip(g, old(state.ToRecord()))
      ensures ready == ReadyList(g, SkipPass(g, s), scheduler.maxParallelNodes)
    {
      committer.SkipImpossible(g, state);
      ready := scheduler.FindReadyNodes(g, state.Core());
    }

    /** The wave that a state with ready nodes launches. */
    method RunWave(g: Graph, state: RuntimeState, ready: seq<NodeId>, scheduler: Scheduler, committer: WaveCommitter,
                   ghost a: Attempt, ghost c: Config, ghost files: Files)
      returns (next: Option<RuntimeState>)
      requires RunsAs(a)
      requires committer.store == artifacts && UniqueNodes(g) && files == artifacts.files
      requires Poised(g, a.limit, state.taskId, files, c, state.Core(), ready) && ready != []
      modifies artifacts, state`nodeStatus
      ensures next.None? ==> Aborts(g, a, c, files, artifacts.files)
      ensures next.Some? ==> fresh(next.value)
      ensures next.Some? ==> WaveDone(g, a, old(state.ToRecord()), WaveResults(g, a.limit, a.run, c), files,
                                      artifacts.files, next.value.ToRecord())
    {
      ghost var outcomes := WaveResults(g, a.limit, a.run, c);
      WaveFacts(g, a, c, files, state.taskId, ready);
      next := RunAndCommit(g, state, ready, scheduler, committer, a, files, outcomes);
    }

    /** Nothing is ready. A final artifact would have frozen the state, so this is a deadlock. */
    method NothingReady(g: Graph, state: RuntimeState, scheduler: Scheduler, ghost a: Attempt, ghost c: Config,
                        ghost files: Files) returns (out: Ending)
      requires Poised(g, a.limit, state.taskId, files, c, state.Core(), []) && (c.st.final.Some? ==> c.st.frozen)
      ensures Stops(g, a, c, files, files, out)
    {
      var can := scheduler.CanFinalize(state.Core());
      if can {
        assert false;
      }
      out := DeadlockError(state.nodeStatus);
    }

    /** One iteration of the loop: skip, find the ready nodes, and run them or report the deadlock. */
    method Iterate(g: Graph, state: RuntimeState, scheduler: Scheduler, committer: WaveCommitter, ghost a: Attempt,
                   ghost c: Config, ghost files: Files)
      returns (next: Option<RuntimeState>, out: Ending)
      requires RunsAs(a) && a.limit == scheduler.maxParallelNodes
      requires committer.store == artifacts && UniqueNodes(g) && files == artifacts.files && state.Core() == c.st
      requires AtTop(g, state.taskId, files, c)
      modifies artifacts, state`nodeStatus
      ensures next.None? ==> Stops(g, a, c, files, artifacts.files, out)
      ensures next.Some? ==> fresh(next.value)
      ensures next.Some? ==>
        IsNext(g, a, c, files, artifacts.files, old(state.ToRecord()), next.value.ToRecord())
    {
      var ready := SkipAndFind(g, state, scheduler, committer, c.st);
      if ready == [] {
        next := None;
        out := NothingReady(g, state, scheduler, a, c, files);
      } else {
        next := RunWave(g, state, ready, scheduler, committer, a, c, files);
        out := Raised;
      }
    }

    /** One iteration, and the checkpoint after it. */
    method Advance(g: Graph, state: RuntimeState, scheduler: Scheduler, committer: WaveCommitter, ghost a: Attempt,
                   ghost now: Stage)
      returns (next: Option<RuntimeState>, out: Ending)
      requires RunsAs(a) && a.limit == scheduler.maxParallelNodes
      requires committer.store == artifacts && UniqueNodes(g)
      requires now == Stage(state.ToRecord(), artifacts.files) && AtTop(g, now.record.task, now.files, now.Top())
      modifies artifacts, checkpoints, state`nodeStatus
      ensures next.None? ==> unchanged(checkpoints)
      ensures next.None? ==> Stops(g, a, now.Top(), now.files, artifacts.files, out)
      ensures next.Some? ==> fresh(next.value)
      ensures next.Some? ==> checkpoints.saved == old(checkpoints.saved)[next.value.taskId := next.value.ToRecord()]
      ensures next.Some? ==> Follows(g, a, now, Stage(next.value.ToRecord(), artifacts.files))
    {
      next, out := Iterate(g, state, scheduler, committer, a, now.Top(), now.files);
      assert unchanged(checkpoints);
      if next.Some? {
        checkpoints.Save(next.value.ToRecord());
      }
    }

    /** The same, seen from the stages so far. */
    method AdvanceFrom(g: Graph, state: RuntimeState, scheduler: Scheduler, committer: WaveCommitter,
                       ghost a: Attempt, ghost stages: seq<Stage>, ghost saved: map<TaskId, Record>)
      returns (next: Option<RuntimeState>, out: Ending, ghost stages': seq<Stage>)
      requires RunsAs(a) && a.limit == scheduler.maxParallelNodes
      requires committer.store == artifacts && Wired(g) && !state.frozen
      requires Stages(g, a, stages)
      requires Last(stages) == Stage(state.ToRecord(), artifacts.files)
      requires checkpoints.saved == SavedAfter(saved, stages)
      modifies artifacts, checkpoints, state`nodeStatus
      ensures |stages'| >= 1 && checkpoints.saved == SavedAfter(saved, stages')
      ensures next.None? ==> stages' == stages
      ensures next.None? ==> Stops(g, a, Last(stages).Top(), Last(stages).files,
                                   artifacts.files, out)
      ensures next.Some? ==> fresh(next.value)
      ensures next.Some? ==> stages' == stages + [Stage(next.value.ToRecord(), artifacts.files)]
      ensures Stages(g, a, stages')
      ensures next.Some? ==> |PendingSet(Last(stages').record.state)| < |PendingSet(Last(stages).record.state)|
    {
      stages' := stages;
      LastIsTop(g, a, stages);
      next, out := Advance(g, state, scheduler, committer, a, Last(stages));
      if next.Some? {
        ghost var after := Stage(next.value.ToRecord(), artifacts.files);
        NextDrops(g, a, stages, after);
        StagesNext(g, a, stages, after);
        FollowsTask(g, a, Last(stages), after);
        SavedNext(saved, stages, after);
        stages' := stages + [after];
      }
    }

    /** The loop. Each iteration settles at least one node, so it ends: frozen, or stopped by a
        deadlock or an exception. */
    method Loop(g: Graph, first: RuntimeState, scheduler: Scheduler, committer: WaveCommitter, ghost a: Attempt)
      returns (state: RuntimeState, stopped: Option<Ending>, ghost stages: seq<Stage>)
      requires RunsAs(a) && a.limit == scheduler.maxParallelNodes
      requires committer.store == artifacts && Wired(g)
      requires Stages(g, a, [Stage(first.ToRecord(), artifacts.files)])
      modifies artifacts, checkpoints, first`nodeStatus
      ensures Stages(g, a, stages)
      ensures stages[0] == Stage(old(first.ToRecord()), old(artifacts.files))
      ensures checkpoints.saved == SavedAfter(old(checkpoints.saved), stages)
      ensures stopped.None? ==> Last(stages) == Stage(state.ToRecord(), artifacts.files) && state.frozen
      ensures stopped.Some? ==> Stops(g, a, Last(stages).Top(), Last(stages).files,
                                      artifacts.files, stopped.value)
    {
      state, stopped, stages := first, None, [Stage(first.ToRecord(), artifacts.files)];
      while !state.frozen
        invariant state == first || fresh(state)
        invariant Stages(g, a, stages) && stages[0] == Stage(old(first.ToRecord()), old(artifacts.files))
        invariant Last(stages) == Stage(state.ToRecord(), artifacts.files)
        invariant checkpoints.saved == SavedAfter(old(checkpoints.saved), stages)
        decreases |PendingSet(Last(stages).record.state)|
      {
        var next, out;
        next, out, stages := AdvanceFrom(g, state, scheduler, committer, a, stages, old(checkpoints.saved));
        if next.None? {
          stopped := Some(out);
          return;
        }
        state := next.value;
      }
    }

    /** The check at resume. */
    method CheckReferenced(s: State) returns (ok: bool)
      ensures ok <==> CanResume(artifacts.files, s)
    {
      var todo := NameSet(s);
      ghost var files := artifacts.files;
      while todo != {}
        invariant todo <= NameSet(s)
        invariant forall id :: id in NameSet(s) && id !in todo ==> CanFetch(files, id)
        decreases todo
      {
        var id :| id in todo;
        var a := artifacts.Get(id);
        if a.None? {
          assert !CanFetch(files, id);
          return false;
        }
        assert CanFetch(files, id);
        todo := todo - {id};
      }
      ok := true;
    }

    /** Without a checkpoint: the bundle is put, and every node is pending. */
    method StartNew(g: Graph, bundle: map<Slot, Artifact>, ctx: Context, committer: WaveCommitter, ghost a: Attempt)
      returns (state: Option<RuntimeState>)
      requires RunsAs(a) && a.bundle == bundle
      requires committer.store == artifacts && Wired(g)
      requires OwnOutputs(artifacts.files, ctx.task, run) && OwnBundle(artifacts.files, ctx.task, bundle)
      modifies artifacts
      ensures state.None? ==> StartFails(bundle, NoCheckpoint, old(artifacts.files), artifacts.files)
      ensures state.Some? ==> fresh(state.value) && Starts(g, a, ctx, NoCheckpoint, old(artifacts.files),
                                                           artifacts.files, state.value.ToRecord())
    {
      ghost var before := artifacts.files;
      var ok;
      ghost var done;
      ok, done := committer.PutOutputs(bundle, before, {}, BundleArtifacts(bundle));
      if !ok {
        return None;
      }
      assert done == BundleArtifacts(bundle);
      var head := Record(ctx.task, g.contentHash, ctx.contractHash, InitState(g, bundle), map[]);
      StartFresh(g, a, ctx, before, artifacts.files, head);
      var first := new RuntimeState.FromRecord(head);
      state := Some(first);
    }

    /** From a checkpoint: its state, provided that all it names can still be fetched. */
    method StartFrom(g: Graph, bundle: map<Slot, Artifact>, ctx: Context, record: Record, ghost a: Attempt)
      returns (state: Option<RuntimeState>)
      requires RunsAs(a) && a.bundle == bundle
      requires OwnOutputs(artifacts.files, ctx.task, run)
      requires Resumable(g, artifacts.files, ctx.task, Checkpoint(record))
      ensures state.None? ==> StartFails(bundle, Checkpoint(record), artifacts.files, artifacts.files)
      ensures state.Some? ==> fresh(state.value) && Starts(g, a, ctx, Checkpoint(record), artifacts.files,
                                                           artifacts.files, state.value.ToRecord())
    {
      var ok := CheckReferenced(record.state);
      if !ok {
        return None;
      }
      StartResumed(g, a, ctx, artifacts.files, record);
      var first := new RuntimeState.FromRecord(record);
      state := Some(first);
    }

    method Start(g: Graph, bundle: map<Slot, Artifact>, ctx: Context, committer: WaveCommitter, loaded: Loaded,
                 ghost a: Attempt)
      returns (state: Option<RuntimeState>)
      requires RunsAs(a) && a.bundle == bundle
      requires committer.store == artifacts && Wired(g) && !loaded.ConfigDrift?
      requires OwnOutputs(artifacts.files, ctx.task, run) && OwnBundle(artifacts.files, ctx.task, bundle)
      requires Resumable(g, artifacts.files, ctx.task, loaded)
      modifies artifacts
      ensures state.None? ==> StartFails(bundle, loaded, old(artifacts.files), artifacts.files)
      ensures state.Some? ==> fresh(state.value) && Starts(g, a, ctx, loaded, old(artifacts.files),
                                                           artifacts.files, state.value.ToRecord())
    {
      if loaded.NoCheckpoint? {
        state := StartNew(g, bundle, ctx, committer, a);
      } else {
        state := StartFrom(g, bundle, ctx, loaded.record, a);
      }
    }

    /** `_result` for a frozen state. */
    method Result(cg: CompiledGraph, state: RuntimeState, ghost a: Attempt, ghost stages: seq<Stage>)
      returns (out: Ending)
      requires Wired(cg.graph) && Stages(cg.graph, a, stages)
      requires Closed(Ids(cg.graph), cg.graph.edges) && IsLayering(Ids(cg.graph), cg.graph.edges, cg.waves)
      requires Last(stages) == Stage(state.ToRecord(), artifacts.files) && state.frozen
      ensures out.Finished? && Returns(cg.graph, a, stages, artifacts.files, out)
    {
      LastTimes(cg.graph, a, stages);
      var total, critical := LatencyFigures(cg.graph, cg.waves, state.nodeLatencies);
      out := Finished(state.ToRecord(), total, critical);
    }

    /** The loop and the result, from a started state. */
    method RunToEnd(cg: CompiledGraph, first: RuntimeState, scheduler: Scheduler, committer: WaveCommitter,
                    ghost a: Attempt)
      returns (out: Ending, ghost stages: seq<Stage>)
      requires RunsAs(a) && a.limit == scheduler.maxParallelNodes
      requires committer.store == artifacts && Wired(cg.graph)
      requires Closed(Ids(cg.graph), cg.graph.edges) && IsLayering(Ids(cg.graph), cg.graph.edges, cg.waves)
      requires Stages(cg.graph, a, [Stage(first.ToRecord(), artifacts.files)])
      modifies artifacts, checkpoints, first`nodeStatus
      ensures Stages(cg.graph, a, stages)
      ensures stages[0] == Stage(old(first.ToRecord()), old(artifacts.files))
      ensures checkpoints.saved == SavedAfter(old(checkpoints.saved), stages)
      ensures Returns(cg.graph, a, stages, artifacts.files, out)
    {
      var state, stopped;
      state, stopped, stages := Loop(cg.graph, first, scheduler, committer, a);
      if stopped.Some? {
        out := stopped.value;
      } else {
        out := Result(cg, state, a, stages);
      }
    }

    /** `execute`, for a compiled graph. The waves it commits are those of module Runs. */
    method Execute(cg: CompiledGraph, bundle: map<Slot, Artifact>, ctx: Context)
      returns (out: Ending, ghost loaded: Loaded, ghost stages: seq<Stage>)
      requires Wired(cg.graph)
      requires Closed(Ids(cg.graph), cg.graph.edges) && IsLayering(Ids(cg.graph), cg.graph.edges, cg.waves)
      requires OwnOutputs(artifacts.files, ctx.task, run) && OwnBundle(artifacts.files, ctx.task, bundle)
      requires forall r ::
          Loads(checkpoints.saved, ctx.task, cg.graph.contentHash, ctx.contractHash, ctx.allowDrift, r) ==>
                 Resumable(cg.graph, artifacts.files, ctx.task, r)
      modifies artifacts, checkpoints
      ensures Executes(cg.graph, Attempt(ctx.maxParallelNodes, run, bundle, clock), ctx, loaded, old(artifacts.files),
                       artifacts.files, old(checkpoints.saved), checkpoints.saved, stages, out)
    {
      ghost var a := Attempt(ctx.maxParallelNodes, run, bundle, clock);
      var scheduler := new Scheduler(ctx.maxParallelNodes);
      var committer := new WaveCommitter(artifacts, scheduler);
      stages := [];
      var found := checkpoints.Load(ctx.task, cg.graph.contentHash, ctx.contractHash, ctx.allowDrift);
      loaded := found;
      if found.ConfigDrift? {
        return DriftError, loaded, [];
      }
      ghost var before := artifacts.files;
      var started := Start(cg.graph, bundle, ctx, committer, found, a);
      if started.None? {
        return Raised, loaded, [];
      }
      ghost var first := Stage(started.value.ToRecord(), artifacts.files);
      StartsStages(cg.graph, a, ctx, loaded, before, first);
      out, stages := RunToEnd(cg, started.value, scheduler, committer, a);
    }
  }
}
