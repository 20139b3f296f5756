/** Histories of one task: calls that return, processes that die anywhere, and work on other tasks in
    between. What the checkpoint then carries, and what the next call makes of it. */
module Histories {
  import opened Types
  import opened Stores
  import opened Runs
  import opened Endings
  import opened Resume
  import opened Launching
  import opened Execution
  import opened CriticalPath
  import opened Records
  import opened Calls
  import opened Answers
  import Compiler

  /** All that is on disk. */
  datatype World = World(files: Files, saved: map<TaskId, Record>)

  ghost function DiskFor(w: World, task: TaskId): Disk {
    DiskIn(w.files, w.saved, task)
  }

  /** A process of this kind works on the task; if it finds no checkpoint, it has this contract hash. */
  ghost predicate Works(h: Digest, task: TaskId, who: Attempt -> bool, a: Attempt, ctx: Context, w: World) {
    ctx.task == task && who(a) && OwnAttempt(DiskFor(w, task), task, a) && Founds(h, ctx, w.saved)
  }

  /** It makes this call, which returns. */
  ghost predicate Completes(g: Graph, a: Attempt, c: Call, w: World, w': World) {
    IsCall(g, a, c) && World(c.before, c.saved) == w && World(c.after, c.saved') == w'
  }

  /** It dies while its bundle is being put. */
  ghost predicate DiesEarly(a: Attempt, task: TaskId, w: World, w': World) {
    w'.saved == w.saved && DiesStarting(a, DiskFor(w, task), DiskFor(w', task))
  }

  /** It dies in its loop, after these stages. */
  ghost predicate DiesLater(g: Graph, a: Attempt, ctx: Context, loaded: Loaded, stages: seq<Stage>, w: World, w': World)
  {
    && Begins(g, a, ctx, w.saved, w.files, loaded, stages)
    && Halts(g, a, Last(stages), w'.files) && w'.saved == SavedAfter(w.saved, stages)
  }

  /** Only other tasks are written. */
  ghost predicate Elsewhere(task: TaskId, w: World, w': World) {
    && OthersWrite(task, DiskFor(w, task), DiskFor(w', task))
    && (task in w'.saved <==> task in w.saved)
    && (task in w.saved ==> w'.saved[task] == w.saved[task])
  }

  ghost predicate Happening(g: Graph, task: TaskId, a: Attempt, ctx: Context, w: World, w': World) {
    || (exists c: Call :: c.ctx == ctx && Completes(g, a, c, w, w'))
    || DiesEarly(a, task, w, w')
    || (exists loaded, stages :: DiesLater(g, a, ctx, loaded, stages, w, w'))
    || Elsewhere(task, w, w')
  }

  ghost predicate HappensAt(g: Graph, h: Digest, task: TaskId, who: Attempt -> bool, worlds: seq<World>, i: nat)
    requires i + 1 < |worlds|
  {
    exists a, ctx :: Works(h, task, who, a, ctx, worlds[i]) && Happening(g, task, a, ctx, worlds[i], worlds[i + 1])
  }

  /** Any number of processes of this kind, whatever becomes of them. Those that start afresh have one
      contract hash. */
  ghost predicate IsHistory(g: Graph, h: Digest, task: TaskId, who: Attempt -> bool, worlds: seq<World>) {
    && |worlds| >= 1 && task !in worlds[0].saved
    && forall i {:trigger HappensAt(g, h, task, who, worlds, i)} :: 0 <= i < |worlds| - 1 ==>
        HappensAt(g, h, task, who, worlds, i)
  }

  /* ---------- what every history keeps ---------- */

  /** The disk is one that the crash model reaches, and the checkpoint carries the hashes of the graph and of
      the process that started it, and the times of exactly the nodes that have run. */
  ghost predicate Stands(g: Graph, h: Digest, task: TaskId, who: Attempt -> bool, w: World) {
    Left(g, task, who, DiskFor(w, task)) && AllBear(g, h, task, w.saved)
  }

  lemma FirstStands(g: Graph, h: Digest, task: TaskId, who: Attempt -> bool, w: World)
    requires task !in w.saved
    ensures Stands(g, h, task, who, w)
  {
    LeftThen(g, task, who, [], [DiskFor(w, task)], DiskFor(w, task));
  }

  lemma CallBegins(g: Graph, a: Attempt, c: Call)
    requires IsCall(g, a, c) && Looped(c)
    ensures Begins(g, a, c.ctx, c.saved, c.before, c.loaded, c.stages) && c.saved' == SavedAfter(c.saved, c.stages)
  {
  }

  lemma CallBears(g: Graph, h: Digest, a: Attempt, c: Call)
    requires Wired(g) && IsCall(g, a, c) && AllBear(g, h, c.ctx.task, c.saved) && Founds(h, c.ctx, c.saved)
    ensures AllBear(g, h, c.ctx.task, c.saved')
    ensures Looped(c) ==> Bears(g, h, c.ctx.task, c.stages[0].record)
  {
    if Looped(c) {
      CallBegins(g, a, c);
      SavesBear(g, h, a, c.ctx, c.saved, c.before, c.loaded, c.stages);
    }
  }

  lemma CallStands(g: Graph, h: Digest, task: TaskId, who: Attempt -> bool, a: Attempt, c: Call, w: World, w': World)
    requires Wired(g) && Stands(g, h, task, who, w) && Works(h, task, who, a, c.ctx, w) && Completes(g, a, c, w, w')
    ensures Stands(g, h, task, who, w')
  {
    CallLeaves(g, who, a, c);
    CallBears(g, h, a, c);
  }

  lemma EarlyStands(g: Graph, h: Digest, task: TaskId, who: Attempt -> bool, a: Attempt, ctx: Context, w: World,
                    w': World)
    requires Stands(g, h, task, who, w) && Works(h, task, who, a, ctx, w) && DiesEarly(a, task, w, w')
    ensures Stands(g, h, task, who, w')
  {
    LeftNext(g, task, who, a, DiskFor(w, task), DiskFor(w', task));
  }

  lemma ElsewhereStands(g: Graph, h: Digest, task: TaskId, who: Attempt -> bool, a: Attempt, ctx: Context, w: World,
                        w': World)
    requires Stands(g, h, task, who, w) && Works(h, task, who, a, ctx, w) && Elsewhere(task, w, w')
    ensures Stands(g, h, task, who, w')
  {
    LeftNext(g, task, who, a, DiskFor(w, task), DiskFor(w', task));
  }

  lemma BeginEnters(g: Graph, a: Attempt, ctx: Context, w: World, loaded: Loaded, stages: seq<Stage>)
    requires Begins(g, a, ctx, w.saved, w.files, loaded, stages) && OwnAttempt(DiskFor(w, ctx.task), ctx.task, a)
    ensures Enters(g, a, DiskFor(w, ctx.task), stages) && stages[0].record.task == ctx.task
  {
    assert DiskFor(w, ctx.task) == DiskOf(w.files, loaded);
  }

  lemma LaterStands(g: Graph, h: Digest, task: TaskId, who: Attempt -> bool, a: Attempt, ctx: Context, loaded: Loaded,
                    stages: seq<Stage>, w: World, w': World)
    requires Wired(g) && Stands(g, h, task, who, w) && Works(h, task, who, a, ctx, w)
    requires DiesLater(g, a, ctx, loaded, stages, w, w')
    ensures Stands(g, h, task, who, w')
  {
    BeginEnters(g, a, ctx, w, loaded, stages);
    StagesLeave(g, who, a, DiskFor(w, task), stages, w'.files);
    LeftIsSaved(g, a, DiskFor(w, task), stages, w.saved, w'.files);
    SavesBear(g, h, a, ctx, w.saved, w.files, loaded, stages);
  }

  lemma NextStands(g: Graph, h: Digest, task: TaskId, who: Attempt -> bool, a: Attempt, ctx: Context, w: World,
                   w': World)
    requires Wired(g) && Stands(g, h, task, who, w) && Works(h, task, who, a, ctx, w)
    requires Happening(g, task, a, ctx, w, w')
    ensures Stands(g, h, task, who, w')
  {
    if c: Call :| c.ctx == ctx && Completes(g, a, c, w, w') {
      CallStands(g, h, task, who, a, c, w, w');
    } else if DiesEarly(a, task, w, w') {
      EarlyStands(g, h, task, who, a, ctx, w, w');
    } else if loaded, stages :| DiesLater(g, a, ctx, loaded, stages, w, w') {
      LaterStands(g, h, task, who, a, ctx, loaded, stages, w, w');
    } else {
      ElsewhereStands(g, h, task, who, a, ctx, w, w');
    }
  }

  lemma {:induction false} HistoryStands(g: Graph, h: Digest, task: TaskId, who: Attempt -> bool, worlds: seq<World>,
                                         i: nat)
    requires Wired(g) && IsHistory(g, h, task, who, worlds) && i < |worlds|
    ensures Stands(g, h, task, who, worlds[i])
  {
    if i == 0 {
      FirstStands(g, h, task, who, worlds[0]);
    } else {
      HistoryStands(g, h, task, who, worlds, i - 1);
      LaterWorldStands(g, h, task, who, worlds, i);
    }
  }

  lemma LaterWorldStands(g: Graph, h: Digest, task: TaskId, who: Attempt -> bool, worlds: seq<World>, i: nat)
    requires Wired(g) && IsHistory(g, h, task, who, worlds) && 0 < i < |worlds|
    requires Stands(g, h, task, who, worlds[i - 1])
    ensures Stands(g, h, task, who, worlds[i])
  {
    assert HappensAt(g, h, task, who, worlds, i - 1);
    var a, ctx :| Works(h, task, who, a, ctx, worlds[i - 1])
                  && Happening(g, task, a, ctx, worlds[i - 1], worlds[i - 1 + 1]);
    NextStands(g, h, task, who, a, ctx, worlds[i - 1], worlds[i]);
  }

  lemma StandingFits(g: Graph, h: Digest, task: TaskId, who: Attempt -> bool, w: World)
    requires Wired(g) && Stands(g, h, task, who, w)
    ensures Fits(g, w.saved, task)
  {
    if task in w.saved {
      var attempts, disks :| LeftBy(g, task, who, attempts, disks, DiskFor(w, task));
      DisksProper(g, task, attempts, disks, |attempts|);
    }
  }

  /** So `Execute` can be called after any history: what it asks of the checkpoint it loads is met. */
  lemma HistoryResumable(g: Graph, h: Digest, task: TaskId, who: Attempt -> bool, worlds: seq<World>, i: nat,
                         ctx: Context, loaded: Loaded)
    requires Wired(g) && IsHistory(g, h, task, who, worlds) && i < |worlds|
    requires Loads(worlds[i].saved, task, g.contentHash, ctx.contractHash, ctx.allowDrift, loaded)
    ensures Resumable(g, worlds[i].files, task, loaded)
  {
    HistoryStands(g, h, task, who, worlds, i);
    StandingFits(g, h, task, who, worlds[i]);
    LeftIsResumable(g, who, task, worlds[i].files, worlds[i].saved, loaded);
  }

  /* ---------- drift ---------- */

  /** After any history, whatever died in it, what the next call loads has drifted exactly if there is a
      checkpoint, drift is not allowed, and the call is for another graph or brings another contract hash than
      the process that started the task. */
  lemma DriftIff(g: Graph, h: Digest, task: TaskId, who: Attempt -> bool, worlds: seq<World>, i: nat,
                 graphHash: Digest, contractHash: Digest, allowDrift: bool, loaded: Loaded)
    requires Wired(g) && IsHistory(g, h, task, who, worlds) && i < |worlds|
    requires Loads(worlds[i].saved, task, graphHash, contractHash, allowDrift, loaded)
    ensures loaded.ConfigDrift? <==>
      task in worlds[i].saved && !allowDrift && (graphHash != g.contentHash || contractHash != h)
  {
    HistoryStands(g, h, task, who, worlds, i);
  }

  /** A process of this kind makes this call here. */
  ghost predicate CallAt(g: Graph, h: Digest, task: TaskId, who: Attempt -> bool, a: Attempt, c: Call, w: World) {
    Works(h, task, who, a, c.ctx, w) && IsCall(g, a, c) && c.before == w.files && c.saved == w.saved
  }

  /** The call happens in the sense of module Calls, on a checkpoint that carries what it should. */
  ghost predicate Comes(g: Graph, h: Digest, who: Attempt -> bool, a: Attempt, c: Call) {
    Happens(g, who, a, c) && Informed(g, h, a, c)
  }

  ghost predicate Informed(g: Graph, h: Digest, a: Attempt, c: Call) {
    IsCall(g, a, c) && AllBear(g, h, c.ctx.task, c.saved) && Founds(h, c.ctx, c.saved)
  }

  lemma StandingComes(g: Graph, h: Digest, task: TaskId, who: Attempt -> bool, a: Attempt, c: Call, w: World)
    requires Stands(g, h, task, who, w) && CallAt(g, h, task, who, a, c, w)
    ensures Comes(g, h, who, a, c)
  {
  }

  lemma NextComes(g: Graph, h: Digest, task: TaskId, who: Attempt -> bool, worlds: seq<World>, i: nat, a: Attempt,
                  c: Call)
    requires Wired(g) && IsHistory(g, h, task, who, worlds) && i < |worlds| && CallAt(g, h, task, who, a, c, worlds[i])
    ensures Comes(g, h, who, a, c)
  {
    HistoryStands(g, h, task, who, worlds, i);
    StandingComes(g, h, task, who, a, c, worlds[i]);
  }

  /** After any history, all that is proved in modules Calls and Answers holds of the next call, and it returns
      a drift error exactly if there is a checkpoint, drift is not allowed and its contract hash is not that of
      the process that started the task. */
  lemma NextCallHappens(g: Graph, h: Digest, task: TaskId, who: Attempt -> bool, worlds: seq<World>, i: nat, a: Attempt,
                        c: Call)
    requires Wired(g) && IsHistory(g, h, task, who, worlds) && i < |worlds| && CallAt(g, h, task, who, a, c, worlds[i])
    ensures Happens(g, who, a, c)
    ensures c.out.DriftError? <==> c.ctx.task in c.saved && !c.ctx.allowDrift && c.ctx.contractHash != h
  {
    NextComes(g, h, task, who, worlds, i, a, c);
    ComingDrifts(g, h, a, c);
  }

  lemma ComingDrifts(g: Graph, h: Digest, a: Attempt, c: Call)
    requires Informed(g, h, a, c)
    ensures c.loaded.ConfigDrift? <==> c.ctx.task in c.saved && !c.ctx.allowDrift && c.ctx.contractHash != h
    ensures c.out.DriftError? <==> c.loaded.ConfigDrift?
  {
    LoadingDrifts(g, h, c.ctx, c.saved, c.loaded);
    DriftIsReported(g, a, c);
  }

  lemma LoadingDrifts(g: Graph, h: Digest, ctx: Context, saved: map<TaskId, Record>, loaded: Loaded)
    requires AllBear(g, h, ctx.task, saved)
    requires Loads(saved, ctx.task, g.contentHash, ctx.contractHash, ctx.allowDrift, loaded)
    ensures loaded.ConfigDrift? <==> ctx.task in saved && !ctx.allowDrift && ctx.contractHash != h
  {
  }

  lemma DriftIsReported(g: Graph, a: Attempt, c: Call)
    requires IsCall(g, a, c)
    ensures c.out.DriftError? <==> c.loaded.ConfigDrift?
  {
    if Looped(c) {
      CallReturns(g, a, c);
      LoopNeverDrifts(g, a, c.stages, c.after, c.out);
    }
  }

  lemma CallReturns(g: Graph, a: Attempt, c: Call)
    requires IsCall(g, a, c) && Looped(c)
    ensures Returns(g, a, c.stages, c.after, c.out)
  {
  }

  lemma LoopNeverDrifts(g: Graph, a: Attempt, stages: seq<Stage>, files: Files, out: Ending)
    requires |stages| >= 1 && Returns(g, a, stages, files, out)
    ensures !out.DriftError?
  {
  }

  /** Without conditional edges and failures, and if all that the process may put can be stored, the next call
      returns a frozen result, whatever died before it, provided that its contract hash is that of the process
      that started the task or drift is allowed. */
  lemma HistoryFinishes(g: Graph, level: map<NodeId, nat>, h: Digest, task: TaskId, who: Attempt -> bool,
                        worlds: seq<World>, i: nat, a: Attempt, c: Call)
    requires Wired(g) && Increases(g, level) && Unconditional(g) && Compiler.ProducerIds(g) != {}
    requires AllProvide(g, who) && AllFinish(g, who) && Answers.AllSucceed(who) && a.limit >= 1
    requires IsHistory(g, h, task, who, worlds) && i < |worlds| && CallAt(g, h, task, who, a, c, worlds[i])
    requires Harmless(c.before, a, c.loaded.NoCheckpoint?)
    requires c.ctx.contractHash == h || c.ctx.allowDrift
    ensures c.out.Finished? && c.out.record.state.frozen
  {
    NextComes(g, h, task, who, worlds, i, a, c);
    ComingDrifts(g, h, a, c);
    UnconditionalFinishes(g, level, who, a, c);
  }

  /* ---------- times ---------- */

  /** The last record times exactly the nodes that have run: those that the first record times as it does, and
      the others by the clock in the wave that launched them, the waves being numbered from the first on. */
  ghost predicate AreTimed(g: Graph, a: Attempt, stages: seq<Stage>, n: NodeId)
    requires |stages| >= 1
  {
    && TimesSettled(Last(stages).record)
    && TimedBy(g, a, stages, |stages| - 1, n)
    && Numbered(stages)
  }

  lemma StagesTimed(g: Graph, a: Attempt, stages: seq<Stage>, n: NodeId)
    requires Wired(g) && Stages(g, a, stages) && TimesSettled(stages[0].record)
    ensures AreTimed(g, a, stages, n)
  {
    StageSettled(g, a, stages, |stages| - 1);
    TimeOrigin(g, a, stages, |stages| - 1, n);
    StagesNumbered(g, a, stages);
  }

  lemma LoopIsTimed(g: Graph, h: Digest, a: Attempt, c: Call)
    requires Wired(g) && Informed(g, h, a, c) && Looped(c)
    ensures Stages(g, a, c.stages) && TimesSettled(c.stages[0].record)
  {
    CallBears(g, h, a, c);
  }

  lemma LoopReturns(g: Graph, a: Attempt, c: Call)
    requires IsCall(g, a, c) && Looped(c)
    ensures c.stages[0].record.latencies == if c.ctx.task in c.saved then c.saved[c.ctx.task].latencies else map[]
    ensures c.ctx.task !in c.saved ==> c.stages[0].record.state.waveId == 0
    ensures c.out.Finished? ==>
      c.out.record == Last(c.stages).record
      && AreFigures(g, c.out.record.latencies, c.out.totalLatency, c.out.criticalLatency)
  {
  }

  /** In every call after any history, the nodes timed in the loaded record keep their times, every other node
      that has run has what the clock said in the wave that launched it, and the figures reported are over these
      times. A fresh call starts without times, at wave 0. */
  lemma CallTimes(g: Graph, h: Digest, task: TaskId, who: Attempt -> bool, worlds: seq<World>, i: nat, a: Attempt,
                  c: Call, n: NodeId)
    requires Wired(g) && IsHistory(g, h, task, who, worlds) && i < |worlds| && CallAt(g, h, task, who, a, c, worlds[i])
    requires Looped(c)
    ensures c.stages[0].record.latencies == if c.ctx.task in c.saved then c.saved[c.ctx.task].latencies else map[]
    ensures c.ctx.task !in c.saved ==> c.stages[0].record.state.waveId == 0
    ensures AreTimed(g, a, c.stages, n)
    ensures c.out.Finished? ==>
      c.out.record == Last(c.stages).record
      && AreFigures(g, c.out.record.latencies, c.out.totalLatency, c.out.criticalLatency)
  {
    NextComes(g, h, task, who, worlds, i, a, c);
    LoopReturns(g, a, c);
    LoopIsTimed(g, h, a, c);
    StagesTimed(g, a, c.stages, n);
  }

  /** Conversely, what a wave of the call launches ends up timed by the clock in that wave. */
  lemma CallClocks(g: Graph, h: Digest, task: TaskId, who: Attempt -> bool, worlds: seq<World>, i: nat, a: Attempt,
                   c: Call, j: nat, n: NodeId)
    requires Wired(g) && IsHistory(g, h, task, who, worlds) && i < |worlds| && CallAt(g, h, task, who, a, c, worlds[i])
    requires Looped(c) && j + 1 < |c.stages|
    ensures TimedInWave(g, a, c.stages, j, n)
  {
    NextComes(g, h, task, who, worlds, i, a, c);
    LoopIsTimed(g, h, a, c);
    LaunchIsTimed(g, a, c.stages, j, n);
  }
}
