/** What the records that calls save carry besides the state: the hashes they are checked against, and how
    long each node took. */
module Records {
  import opened Types
  import opened Scheduling
  import opened Stores
  import opened Committing
  import opened Runs
  import opened Endings
  import opened Resume
  import opened Launching
  import opened Execution

  /* ---------- times, wave by wave ---------- */

  ghost predicate HasRun(s: State, n: NodeId) {
    n in s.status && s.status[n] in {Succeeded, Failed}
  }

  /** Exactly the nodes that have run are timed. */
  ghost predicate TimesSettled(record: Record) {
    forall n :: n in record.latencies <==> HasRun(record.state, n)
  }

  lemma FreshSettled(g: Graph, bundle: map<Slot, Artifact>, record: Record)
    requires record.state == InitState(g, bundle) && record.latencies == map[]
    ensures TimesSettled(record)
  {
  }

  lemma SkipRuns(g: Graph, s: State, n: NodeId)
    requires Tracks(g, s)
    ensures HasRun(SkipPass(g, s), n) <==> HasRun(s, n)
  {
    if n in s.status && n in ImpossibleSet(g, s) {
      assert s.status[n] == Pending;
    }
  }

  /** A commit runs exactly the nodes that have results. */
  lemma CommitRuns(g: Graph, s: State, results: Results, n: NodeId)
    requires Tracks(g, s) && results.Keys <= s.status.Keys
    ensures HasRun(Commit(g, s, results), n) <==> HasRun(s, n) || n in results
  {
    ApplyTracks(g, s, results);
    SkipRuns(g, Apply(g, s, results), n);
  }

  /** Once these have run, n has the clock's time if it is one of them, where it had none before, and otherwise
      what it had. */
  ghost predicate TimedAnew(a: Attempt, wave: nat, ran: set<NodeId>, before: map<NodeId, nat>, after: map<NodeId, nat>,
                            n: NodeId)
  {
    if n in ran then n !in before && n in after && after[n] == a.clock(wave, n)
    else if n in before then n in after && after[n] == before[n]
    else n !in after
  }

  lemma WaveTimes(g: Graph, a: Attempt, record: Record, results: Results, before: Files, after: Files, next: Record,
                  n: NodeId)
    requires WaveDone(g, a, record, results, before, after, next)
    requires TimesSettled(record) && GoodResults(record.state, results)
    ensures n in next.latencies <==> HasRun(next.state, n)
    ensures TimedAnew(a, record.state.waveId, results.Keys, record.latencies, next.latencies, n)
  {
    CommitRuns(g, record.state, results, n);
  }

  lemma SkipSettled(g: Graph, record: Record)
    requires Tracks(g, record.state) && TimesSettled(record)
    ensures TimesSettled(AfterSkip(g, record))
  {
    forall n ensures n in record.latencies <==> HasRun(SkipPass(g, record.state), n) {
      SkipRuns(g, record.state, n);
    }
  }

  /** The nodes launched from here. */
  ghost function WaveFrom(g: Graph, a: Attempt, now: Stage): set<NodeId> {
    if Tracks(g, now.record.state) then WaveResults(g, a.limit, a.run, now.Top()).Keys else {}
  }

  /** n has the clock's time if it is launched from here, where it had none before, and otherwise what it had. */
  ghost predicate TimedBetween(g: Graph, a: Attempt, now: Stage, after: map<NodeId, nat>, n: NodeId) {
    TimedAnew(a, now.record.state.waveId, WaveFrom(g, a, now), now.record.latencies, after, n)
  }

  /** One wave times the nodes it launches and no others. */
  lemma NextTime(g: Graph, a: Attempt, now: Stage, next: Stage, n: NodeId)
    requires Wired(g) && Follows(g, a, now, next) && TimesSettled(now.record)
    ensures n in next.record.latencies <==> HasRun(next.record.state, n)
    ensures TimedBetween(g, a, now, next.record.latencies, n)
  {
    var record, results := AfterSkip(g, now.record), WaveResults(g, a.limit, a.run, now.Top());
    SkipSettled(g, now.record);
    WaveIsGood(g, a.limit, a.run, now.Top());
    WaveTimes(g, a, record, results, now.files, next.files, next.record, n);
  }

  lemma LaterTime(g: Graph, a: Attempt, stages: seq<Stage>, i: nat, n: NodeId)
    requires Wired(g) && Stages(g, a, stages) && 0 < i < |stages| && TimesSettled(stages[i - 1].record)
    ensures n in stages[i].record.latencies <==> HasRun(stages[i].record.state, n)
    ensures TimedBetween(g, a, stages[i - 1], stages[i].record.latencies, n)
  {
    LaterStage(g, a, stages, i);
    NextTime(g, a, stages[i - 1], stages[i], n);
  }

  lemma LaterSettled(g: Graph, a: Attempt, stages: seq<Stage>, i: nat)
    requires Wired(g) && Stages(g, a, stages) && 0 < i < |stages| && TimesSettled(stages[i - 1].record)
    ensures TimesSettled(stages[i].record)
  {
    forall n ensures n in stages[i].record.latencies <==> HasRun(stages[i].record.state, n) {
      LaterTime(g, a, stages, i, n);
    }
  }

  lemma {:induction false} StageSettled(g: Graph, a: Attempt, stages: seq<Stage>, i: nat)
    requires Wired(g) && Stages(g, a, stages) && i < |stages| && TimesSettled(stages[0].record)
    ensures TimesSettled(stages[i].record)
  {
    if i > 0 {
      StageSettled(g, a, stages, i - 1);
      LaterSettled(g, a, stages, i);
    }
  }

  /* ---------- times over a whole call ---------- */

  /** The time is what the clock said in the wave, one of the first i, that launched the node. */
  ghost predicate Clocked(g: Graph, a: Attempt, stages: seq<Stage>, i: nat, n: NodeId, time: nat)
    requires i < |stages|
  {
    exists j :: 0 <= j < i && n in WaveFrom(g, a, stages[j]) && time == a.clock(stages[j].record.state.waveId, n)
  }

  /** Where the node's time in the i-th record comes from: the first record, or the clock. */
  ghost predicate TimedBy(g: Graph, a: Attempt, stages: seq<Stage>, i: nat, n: NodeId)
    requires i < |stages|
  {
    var first, times := stages[0].record.latencies, stages[i].record.latencies;
    if n in first then n in times && times[n] == first[n]
    else n in times ==> Clocked(g, a, stages, i, n, times[n])
  }

  lemma {:induction false} TimeOrigin(g: Graph, a: Attempt, stages: seq<Stage>, i: nat, n: NodeId)
    requires Wired(g) && Stages(g, a, stages) && i < |stages| && TimesSettled(stages[0].record)
    ensures TimedBy(g, a, stages, i, n)
  {
    if i > 0 {
      TimeOrigin(g, a, stages, i - 1, n);
      StageSettled(g, a, stages, i - 1);
      LaterTime(g, a, stages, i, n);
      OriginNext(g, a, stages, i, n);
    }
  }

  lemma OriginNext(g: Graph, a: Attempt, stages: seq<Stage>, i: nat, n: NodeId)
    requires 0 < i < |stages| && TimedBetween(g, a, stages[i - 1], stages[i].record.latencies, n)
    requires TimedBy(g, a, stages, i - 1, n)
    ensures TimedBy(g, a, stages, i, n)
  {
    var first, times := stages[0].record.latencies, stages[i].record.latencies;
    if n in times && n !in first {
      if n in WaveFrom(g, a, stages[i - 1]) {
        assert Clocked(g, a, stages, i, n, times[n]);
      } else {
        ClockedLonger(g, a, stages, i, n, times[n]);
      }
    }
  }

  lemma ClockedLonger(g: Graph, a: Attempt, stages: seq<Stage>, i: nat, n: NodeId, time: nat)
    requires 0 < i < |stages| && Clocked(g, a, stages, i - 1, n, time)
    ensures Clocked(g, a, stages, i, n, time)
  {
  }

  /** A time, once taken, stays. */
  lemma {:induction false} TimeStays(g: Graph, a: Attempt, stages: seq<Stage>, j: nat, i: nat, n: NodeId)
    requires Wired(g) && Stages(g, a, stages) && j <= i < |stages| && TimesSettled(stages[0].record)
    requires n in stages[j].record.latencies
    ensures n in stages[i].record.latencies && stages[i].record.latencies[n] == stages[j].record.latencies[n]
  {
    if j < i {
      TimeStays(g, a, stages, j, i - 1, n);
      StageSettled(g, a, stages, i - 1);
      LaterTime(g, a, stages, i, n);
    }
  }

  /** What the j-th wave launches ends up timed by the clock in that wave. */
  ghost predicate TimedInWave(g: Graph, a: Attempt, stages: seq<Stage>, j: nat, n: NodeId)
    requires j < |stages|
  {
    var times := Last(stages).record.latencies;
    n in WaveFrom(g, a, stages[j]) ==> n in times && times[n] == a.clock(stages[j].record.state.waveId, n)
  }

  lemma LaunchIsTimed(g: Graph, a: Attempt, stages: seq<Stage>, j: nat, n: NodeId)
    requires Wired(g) && Stages(g, a, stages) && TimesSettled(stages[0].record) && j + 1 < |stages|
    ensures TimedInWave(g, a, stages, j, n)
  {
    if n in WaveFrom(g, a, stages[j]) {
      LaunchTime(g, a, stages, j, n);
      TimeLasts(g, a, stages, j + 1, n);
    }
  }

  lemma TimeLasts(g: Graph, a: Attempt, stages: seq<Stage>, j: nat, n: NodeId)
    requires Wired(g) && Stages(g, a, stages) && j < |stages| && TimesSettled(stages[0].record)
    requires n in stages[j].record.latencies
    ensures var times := Last(stages).record.latencies; n in times && times[n] == stages[j].record.latencies[n]
  {
    TimeStays(g, a, stages, j, |stages| - 1, n);
  }

  lemma LaunchTime(g: Graph, a: Attempt, stages: seq<Stage>, j: nat, n: NodeId)
    requires Wired(g) && Stages(g, a, stages) && j + 1 < |stages| && TimesSettled(stages[0].record)
    requires n in WaveFrom(g, a, stages[j])
    ensures var times := stages[j + 1].record.latencies;
      n in times && times[n] == a.clock(stages[j].record.state.waveId, n)
  {
    StageSettled(g, a, stages, j);
    LaterTime(g, a, stages, j + 1, n);
  }

  lemma WaveNumber(g: Graph, a: Attempt, stages: seq<Stage>, j: nat)
    requires Wired(g) && Stages(g, a, stages) && j < |stages|
    ensures stages[j].record.state.waveId == stages[0].record.state.waveId + j
  {
    StagesAreRun(g, a, stages);
    WavesAreFinite(g, stages[0].record.state.initial, TurnsOf(a, stages), Tops(stages), j);
  }

  /** The stages count the waves from the first on. */
  ghost predicate Numbered(stages: seq<Stage>) {
    forall j :: 0 <= j < |stages| ==> stages[j].record.state.waveId == stages[0].record.state.waveId + j
  }

  lemma StagesNumbered(g: Graph, a: Attempt, stages: seq<Stage>)
    requires Wired(g) && Stages(g, a, stages)
    ensures Numbered(stages)
  {
    forall j | 0 <= j < |stages| ensures stages[j].record.state.waveId == stages[0].record.state.waveId + j {
      WaveNumber(g, a, stages, j);
    }
  }

  /* ---------- what a call saves ---------- */

  /** The record is this task's, is checked against these hashes, and times exactly the nodes that have run. */
  ghost predicate Bears(g: Graph, contractHash: Digest, task: TaskId, r: Record) {
    && r.task == task && r.graphHash == g.contentHash && r.contractHash == contractHash
    && TimesSettled(r)
  }

  ghost predicate AllBear(g: Graph, contractHash: Digest, task: TaskId, saved: map<TaskId, Record>) {
    task in saved ==> Bears(g, contractHash, task, saved[task])
  }

  /** A process that finds no checkpoint brings this contract hash. */
  ghost predicate Founds(contractHash: Digest, ctx: Context, saved: map<TaskId, Record>) {
    ctx.task !in saved ==> ctx.contractHash == contractHash
  }

  /** The process has come to its loop, and these are its stages so far. */
  ghost predicate Begins(g: Graph, a: Attempt, ctx: Context, saved: map<TaskId, Record>, before: Files,
                         loaded: Loaded, stages: seq<Stage>)
  {
    && Loads(saved, ctx.task, g.contentHash, ctx.contractHash, ctx.allowDrift, loaded) && !loaded.ConfigDrift?
    && Stages(g, a, stages)
    && Starts(g, a, ctx, loaded, before, stages[0].files, stages[0].record)
  }

  lemma StartBears(g: Graph, h: Digest, a: Attempt, ctx: Context, saved: map<TaskId, Record>, before: Files,
                   after: Files, loaded: Loaded, head: Record)
    requires Loads(saved, ctx.task, g.contentHash, ctx.contractHash, ctx.allowDrift, loaded) && !loaded.ConfigDrift?
    requires Starts(g, a, ctx, loaded, before, after, head)
    requires AllBear(g, h, ctx.task, saved) && Founds(h, ctx, saved)
    ensures Bears(g, h, ctx.task, head)
  {
    if loaded.NoCheckpoint? {
      FreshSettled(g, a.bundle, head);
    }
  }

  lemma StageBears(g: Graph, h: Digest, a: Attempt, task: TaskId, stages: seq<Stage>, i: nat)
    requires Wired(g) && Stages(g, a, stages) && i < |stages| && Bears(g, h, task, stages[0].record)
    ensures Bears(g, h, task, stages[i].record)
  {
    StageSound(g, a, stages, i);
    StageSettled(g, a, stages, i);
  }

  lemma BeginBears(g: Graph, h: Digest, a: Attempt, ctx: Context, saved: map<TaskId, Record>, before: Files,
                   loaded: Loaded, stages: seq<Stage>)
    requires Begins(g, a, ctx, saved, before, loaded, stages)
    requires AllBear(g, h, ctx.task, saved) && Founds(h, ctx, saved)
    ensures Bears(g, h, ctx.task, stages[0].record)
  {
    StartBears(g, h, a, ctx, saved, before, stages[0].files, loaded, stages[0].record);
  }

  lemma StagesBear(g: Graph, h: Digest, a: Attempt, task: TaskId, saved: map<TaskId, Record>, stages: seq<Stage>)
    requires Wired(g) && Stages(g, a, stages) && Bears(g, h, task, stages[0].record)
    requires AllBear(g, h, task, saved)
    ensures AllBear(g, h, task, SavedAfter(saved, stages))
  {
    StageBears(g, h, a, task, stages, |stages| - 1);
  }

  /** Whatever a process saves before it returns or dies carries the hashes of the record it has loaded, or
      those it was started with. */
  lemma SavesBear(g: Graph, h: Digest, a: Attempt, ctx: Context, saved: map<TaskId, Record>, before: Files,
                  loaded: Loaded, stages: seq<Stage>)
    requires Wired(g) && Begins(g, a, ctx, saved, before, loaded, stages)
    requires AllBear(g, h, ctx.task, saved) && Founds(h, ctx, saved)
    ensures Bears(g, h, ctx.task, stages[0].record) && AllBear(g, h, ctx.task, SavedAfter(saved, stages))
  {
    BeginBears(g, h, a, ctx, saved, before, loaded, stages);
    StagesBear(g, h, a, ctx.task, saved, stages);
  }
}
