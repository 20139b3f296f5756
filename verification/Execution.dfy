/** Whole calls of `execute` on values: how they start, the runs they perform and how they end. */
module Execution {
  import opened Types
  import opened Stores
  import opened Runs
  import opened Endings
  import opened References
  import opened Resume
  import opened Launching
  import opened CriticalPath

  datatype Context = Context(task: TaskId, contractHash: Digest, maxParallelNodes: int, allowDrift: bool)

  /* ---------- starting ---------- */

  /** The ids a state names, collected. */
  function NameSet(s: State): (ids: set<ArtifactId>)
    ensures forall id :: id in ids <==> Names(s, id)
  {
    (set slot | slot in s.initial :: s.initial[slot]) +
    (set n, slot | n in s.outputs && slot in s.outputs[n] :: s.outputs[n][slot])
  }

  /** The checkpoint, if there is one, is a state between waves of this graph. */
  ghost predicate Resumable(g: Graph, files: Files, task: TaskId, loaded: Loaded) {
    loaded.Checkpoint? ==>
      && loaded.record.task == task && loaded.record.latencies.Keys <= Ids(g)
      && StateInv(g, loaded.record.state.initial, loaded.record.state)
      && OwnNames(files, task, loaded.record.state)
  }

  /** The disk as module Resume sees it. */
  ghost function DiskOf(files: Files, loaded: Loaded): Disk {
    Disk(files, if loaded.Checkpoint? then Some(loaded.record.state) else None)
  }

  /** A call starts from the record it has loaded, or from a fresh one, which carries both hashes and
      times nothing. */
  ghost predicate Starts(g: Graph, a: Attempt, ctx: Context, loaded: Loaded, before: Files, after: Files,
                         head: Record)
  {
    && Boots(g, a.bundle, DiskOf(before, loaded), head.state, after)
    && Steady(g, head.state.initial, a, ctx.task, after, head.state)
    && head.task == ctx.task && head.latencies.Keys <= Ids(g)
    && (loaded.Checkpoint? ==> head == loaded.record)
    && (loaded.NoCheckpoint? ==>
          head.graphHash == g.contentHash && head.contractHash == ctx.contractHash && head.latencies == map[])
  }

  /** Starting fails: an artifact of the bundle is refused, or the check at resume fails. */
  ghost predicate StartFails(bundle: map<Slot, Artifact>, loaded: Loaded, before: Files, after: Files) {
    match loaded
    case NoCheckpoint =>
      && (forall files :: !FilesStored(before, BundleArtifacts(bundle), files))
      && FilesPartlyStored(before, BundleArtifacts(bundle), after)
    case Checkpoint(record) => !CanResume(before, record.state) && after == before
    case ConfigDrift => false
  }

  lemma StartFresh(g: Graph, a: Attempt, ctx: Context, before: Files, after: Files, head: Record)
    requires Wired(g) && OwnOutputs(before, ctx.task, a.run) && OwnBundle(before, ctx.task, a.bundle)
    requires FilesStored(before, BundleArtifacts(a.bundle), after)
    requires head == Record(ctx.task, g.contentHash, ctx.contractHash, InitState(g, a.bundle), map[])
    ensures Starts(g, a, ctx, NoCheckpoint, before, after, head)
  {
    InitProper(g, ctx.task, a.bundle, before, after);
    OwnStays(before, after, ctx.task, a.run);
  }

  lemma StartResumed(g: Graph, a: Attempt, ctx: Context, files: Files, record: Record)
    requires OwnOutputs(files, ctx.task, a.run) && Resumable(g, files, ctx.task, Checkpoint(record))
    requires CanResume(files, record.state)
    ensures Starts(g, a, ctx, Checkpoint(record), files, files, record)
  {
    ResumeReadable(files, ctx.task, record.state);
  }

  /* ---------- looping ---------- */

  /** Memory and disk at the top of the loop. */
  datatype Stage = Stage(record: Record, files: Files) {
    ghost function Top(): Config {
      At(record.state, files, record.task)
    }
  }

  /** An iteration turns the one into the other. */
  ghost predicate Follows(g: Graph, a: Attempt, now: Stage, next: Stage) {
    IsNext(g, a, now.Top(), now.files, next.files, now.record, next.record)
  }

  /** The first stage is a proper start; each later one is what an iteration makes of the one before. */
  ghost predicate StageAt(g: Graph, a: Attempt, stages: seq<Stage>, i: nat)
    requires i < |stages|
  {
    var now := stages[i];
    if i == 0 then
      Steady(g, now.record.state.initial, a, now.record.task, now.files, now.record.state)
      && now.record.latencies.Keys <= Ids(g)
    else
      Follows(g, a, stages[i - 1], now)
  }

  /** The stages of one process, one for each time it came to the top of the loop. */
  ghost predicate Stages(g: Graph, a: Attempt, stages: seq<Stage>) {
    |stages| >= 1 && forall i {:trigger StageAt(g, a, stages, i)} :: 0 <= i < |stages| ==>
        StageAt(g, a, stages, i)
  }

  ghost function Last(stages: seq<Stage>): Stage
    requires |stages| >= 1
  {
    stages[|stages| - 1]
  }

  lemma StagesStart(g: Graph, a: Attempt, stage: Stage)
    requires Steady(g, stage.record.state.initial, a, stage.record.task, stage.files, stage.record.state)
    requires stage.record.latencies.Keys <= Ids(g)
    ensures Stages(g, a, [stage])
  {
    assert StageAt(g, a, [stage], 0);
  }

  /** What every stage satisfies. */
  ghost predicate Sound(g: Graph, a: Attempt, first: Record, now: Stage) {
    && Steady(g, first.state.initial, a, first.task, now.files, now.record.state)
    && now.record.task == first.task && now.record.latencies.Keys <= Ids(g)
    && now.record.graphHash == first.graphHash && now.record.contractHash == first.contractHash
  }

  lemma {:induction false} StageSound(g: Graph, a: Attempt, stages: seq<Stage>, i: nat)
    requires Wired(g) && Stages(g, a, stages) && i < |stages|
    ensures Sound(g, a, stages[0].record, stages[i])
  {
    if i == 0 {
      FirstSound(g, a, stages);
    } else {
      StageSound(g, a, stages, i - 1);
      LaterSound(g, a, stages, i);
    }
  }

  lemma LaterSound(g: Graph, a: Attempt, stages: seq<Stage>, i: nat)
    requires Wired(g) && Stages(g, a, stages) && 0 < i < |stages|
    requires Sound(g, a, stages[0].record, stages[i - 1])
    ensures Sound(g, a, stages[0].record, stages[i])
  {
    var now, next := stages[i - 1], stages[i];
    LaterStage(g, a, stages, i);
    NextSound(g, a, stages[0].record, now, next);
  }

  lemma FirstSound(g: Graph, a: Attempt, stages: seq<Stage>)
    requires Stages(g, a, stages)
    ensures Sound(g, a, stages[0].record, stages[0])
  {
    assert StageAt(g, a, stages, 0);
  }

  lemma LaterStage(g: Graph, a: Attempt, stages: seq<Stage>, i: nat)
    requires Stages(g, a, stages) && 0 < i < |stages|
    ensures Follows(g, a, stages[i - 1], stages[i])
  {
    assert StageAt(g, a, stages, i);
  }

  lemma NextSound(g: Graph, a: Attempt, first: Record, now: Stage, next: Stage)
    requires Wired(g) && Sound(g, a, first, now)
    requires Follows(g, a, now, next)
    ensures Sound(g, a, first, next)
    ensures Step(g, a.limit, a.run, now.Top(), next.Top())
  {
    SoundTop(g, a, first, now, next);
    NextTimes(g, a, now.Top(), now.files, next.files, now.record, next.record);
    NextIsStep(g, first.state.initial, a, now.Top(), now.record, now.files, next.files, next.record);
  }

  lemma SoundTop(g: Graph, a: Attempt, first: Record, now: Stage, next: Stage)
    requires Wired(g) && Sound(g, a, first, now)
    requires Follows(g, a, now, next)
    ensures AtTop(g, now.record.task, now.files, now.Top())
  {
  }

  lemma NextTimes(g: Graph, a: Attempt, c: Config, before: Files, after: Files, record: Record, next: Record)
    requires IsNext(g, a, c, before, after, record, next) && record.latencies.Keys <= Ids(g)
    requires c.st.status.Keys == Ids(g)
    ensures next.task == record.task && next.latencies.Keys <= Ids(g)
    ensures next.graphHash == record.graphHash && next.contractHash == record.contractHash
  {
    WaveResultsKeys(g, a.limit, a.run, c);
  }

  /** An unfrozen last stage can be iterated. */
  lemma LastIsTop(g: Graph, a: Attempt, stages: seq<Stage>)
    requires Wired(g) && Stages(g, a, stages) && !Last(stages).record.state.frozen
    ensures AtTop(g, Last(stages).record.task, Last(stages).files, Last(stages).Top())
  {
    LastSound(g, a, stages);
    SoundIsTop(g, a, stages[0].record, Last(stages));
  }

  lemma SoundIsTop(g: Graph, a: Attempt, first: Record, now: Stage)
    requires Wired(g) && Sound(g, a, first, now) && !now.record.state.frozen
    ensures AtTop(g, now.record.task, now.files, now.Top())
  {
    WiredTracks(g, now.record.state);
  }

  lemma StagesNext(g: Graph, a: Attempt, stages: seq<Stage>, next: Stage)
    requires Stages(g, a, stages) && Follows(g, a, Last(stages), next)
    ensures Stages(g, a, stages + [next])
  {
    var longer := stages + [next];
    forall i {:trigger StageAt(g, a, longer, i)} | 0 <= i < |longer| ensures StageAt(g, a, longer, i) {
      StageStays(g, a, stages, next, i);
    }
  }

  lemma StageStays(g: Graph, a: Attempt, stages: seq<Stage>, next: Stage, i: nat)
    requires Stages(g, a, stages) && Follows(g, a, Last(stages), next) && i <= |stages|
    ensures StageAt(g, a, stages + [next], i)
  {
    if i < |stages| {
      assert StageAt(g, a, stages, i);
      SameStage(g, a, stages, stages + [next], i);
    } else {
      StageAdded(g, a, stages, next, i);
    }
  }

  lemma SameStage(g: Graph, a: Attempt, stages: seq<Stage>, longer: seq<Stage>, i: nat)
    requires i < |stages| && i < |longer| && StageAt(g, a, stages, i)
    requires longer[i] == stages[i] && (i > 0 ==> longer[i - 1] == stages[i - 1])
    ensures StageAt(g, a, longer, i)
  {
  }

  lemma StageAdded(g: Graph, a: Attempt, stages: seq<Stage>, next: Stage, i: nat)
    requires |stages| >= 1 && Follows(g, a, Last(stages), next) && i == |stages|
    ensures StageAt(g, a, stages + [next], i)
  {
  }

  lemma LastTimes(g: Graph, a: Attempt, stages: seq<Stage>)
    requires Wired(g) && Stages(g, a, stages)
    ensures Last(stages).record.latencies.Keys <= Ids(g)
  {
    LastSound(g, a, stages);
  }

  /** Each iteration settles at least one node. */
  lemma NextDrops(g: Graph, a: Attempt, stages: seq<Stage>, next: Stage)
    requires Wired(g) && Stages(g, a, stages) && Follows(g, a, Last(stages), next)
    ensures |PendingSet(next.record.state)| < |PendingSet(Last(stages).record.state)|
  {
    LastSound(g, a, stages);
    SoundDrops(g, a, stages[0].record, Last(stages), next);
  }

  lemma LastSound(g: Graph, a: Attempt, stages: seq<Stage>)
    requires Wired(g) && Stages(g, a, stages)
    ensures Sound(g, a, stages[0].record, Last(stages))
  {
    StageSound(g, a, stages, |stages| - 1);
  }

  lemma SoundDrops(g: Graph, a: Attempt, first: Record, now: Stage, next: Stage)
    requires Wired(g) && Sound(g, a, first, now) && Follows(g, a, now, next)
    ensures |PendingSet(next.record.state)| < |PendingSet(now.record.state)|
  {
    NextSound(g, a, first, now, next);
    PendingDrops(g, first.state.initial, a.limit, a.run, now.Top(), next.Top());
  }

  /** The last checkpoint is the record of the last stage, once a wave has been committed. */
  ghost function SavedAfter(saved: map<TaskId, Record>, stages: seq<Stage>): map<TaskId, Record>
    requires |stages| >= 1
  {
    if |stages| == 1 then saved else saved[Last(stages).record.task := Last(stages).record]
  }

  lemma SavedNext(saved: map<TaskId, Record>, stages: seq<Stage>, next: Stage)
    requires |stages| >= 1 && next.record.task == Last(stages).record.task
    ensures SavedAfter(saved, stages)[next.record.task := next.record] == SavedAfter(saved, stages + [next])
  {
    assert Last(stages + [next]) == next;
  }

  lemma FollowsTask(g: Graph, a: Attempt, now: Stage, next: Stage)
    requires Follows(g, a, now, next)
    ensures next.record.task == now.record.task
  {
  }

  /** How a call that came to the loop ends: with the frozen record and its latency figures, or
      stopped by a deadlock or an exception. */
  ghost predicate Returns(g: Graph, a: Attempt, stages: seq<Stage>, files: Files, out: Ending)
    requires |stages| >= 1
  {
    match out
    case Finished(record, total, critical) =>
      Last(stages) == Stage(record, files) && record.state.frozen && AreFigures(g, record.latencies, total, critical)
    case _ => Stops(g, a, Last(stages).Top(), Last(stages).files, files, out)
  }

  /** The whole contract of a call, from the checkpoint it loads to the answer, the files and the
      checkpoints it leaves. */
  ghost predicate Executes(g: Graph, a: Attempt, ctx: Context, loaded: Loaded, before: Files, after: Files,
                           saved: map<TaskId, Record>, saved': map<TaskId, Record>, stages: seq<Stage>, out: Ending)
  {
    && Loads(saved, ctx.task, g.contentHash, ctx.contractHash, ctx.allowDrift, loaded)
    && if loaded.ConfigDrift? then
         out == DriftError && after == before && saved' == saved
       else if stages == [] then
         out == Raised && StartFails(a.bundle, loaded, before, after) && saved' == saved
       else
         && Starts(g, a, ctx, loaded, before, stages[0].files, stages[0].record)
         && Stages(g, a, stages)
         && Returns(g, a, stages, after, out)
         && saved' == SavedAfter(saved, stages)
  }

  lemma StartsStages(g: Graph, a: Attempt, ctx: Context, loaded: Loaded, before: Files, stage: Stage)
    requires Starts(g, a, ctx, loaded, before, stage.files, stage.record)
    ensures Stages(g, a, [stage])
  {
    StagesStart(g, a, stage);
  }

  /* ---------- the runs of module Runs ---------- */

  ghost function Tops(stages: seq<Stage>): (trace: seq<Config>)
    ensures |trace| == |stages| && forall i :: 0 <= i < |stages| ==> trace[i] == stages[i].Top()
  {
    seq(|stages|, i requires 0 <= i < |stages| => stages[i].Top())
  }

  lemma StageStep(g: Graph, a: Attempt, stages: seq<Stage>, i: nat)
    requires Wired(g) && Stages(g, a, stages) && i + 1 < |stages|
    ensures Step(g, a.limit, a.run, stages[i].Top(), stages[i + 1].Top())
  {
    var now, next := stages[i], stages[i + 1];
    StageSound(g, a, stages, i);
    LaterStage(g, a, stages, i + 1);
    NextSound(g, a, stages[0].record, now, next);
  }

  /** The turns that the call's waves take. */
  ghost function TurnsOf(a: Attempt, stages: seq<Stage>): (turns: seq<Turn>)
    requires |stages| >= 1
    ensures |turns| == |stages| - 1
    ensures forall i :: 0 <= i < |turns| ==> turns[i] == Turn(a.limit, a.run, stages[i].Top().store)
  {
    seq(|stages| - 1, i requires 0 <= i < |stages| - 1 => Turn(a.limit, a.run, stages[i].Top().store))
  }

  /** What any call does, fresh or resumed, is a run in the sense of module Runs, so everything proved
      about runs holds of it. */
  lemma StagesAreRun(g: Graph, a: Attempt, stages: seq<Stage>)
    requires Wired(g) && Stages(g, a, stages)
    ensures IsRun(g, stages[0].record.state.initial, TurnsOf(a, stages), Tops(stages))
  {
    var initial, turns, trace := stages[0].record.state.initial, TurnsOf(a, stages), Tops(stages);
    FirstSound(g, a, stages);
    forall i {:trigger PointAt(g, initial, turns, trace, i)} | 0 <= i <= |turns|
      ensures PointAt(g, initial, turns, trace, i)
    {
      if i < |turns| {
        StageStep(g, a, stages, i);
        assert TopAt(turns, trace, i) == stages[i].Top();
      }
    }
  }
}
