/** Whole calls of `execute` as stretches of the crash model: what a call finds and leaves on disk,
    whatever happened before it. */
module Calls {
  import opened Types
  import opened Stores
  import opened Runs
  import opened Resume
  import opened Launching
  import opened Execution

  /* ---------- calls leave reachable disks ---------- */

  ghost predicate LeftBy(g: Graph, task: TaskId, who: Attempt -> bool, attempts: seq<Attempt>, disks: seq<Disk>,
                         d: Disk)
  {
    && IsDiskRun(g, task, attempts, disks)
    && (forall i :: 0 <= i < |attempts| ==> who(attempts[i]))
    && disks[|attempts|] == d
  }

  /** Processes of this kind, one after the other and dying anywhere, can leave this disk. */
  ghost predicate Left(g: Graph, task: TaskId, who: Attempt -> bool, d: Disk) {
    exists attempts, disks :: LeftBy(g, task, who, attempts, disks, d)
  }

  lemma LeftNext(g: Graph, task: TaskId, who: Attempt -> bool, a: Attempt, d: Disk, d': Disk)
    requires Left(g, task, who, d) && who(a) && OwnAttempt(d, task, a) && DiskStep(g, task, a, d, d')
    ensures Left(g, task, who, d')
  {
    var attempts, disks :| LeftBy(g, task, who, attempts, disks, d);
    LeftByNext(g, task, who, attempts, disks, a, d, d');
    LeftThen(g, task, who, attempts + [a], disks + [d'], d');
  }

  lemma LeftThen(g: Graph, task: TaskId, who: Attempt -> bool, attempts: seq<Attempt>, disks: seq<Disk>, d: Disk)
    requires LeftBy(g, task, who, attempts, disks, d)
    ensures Left(g, task, who, d)
  {
  }

  lemma LeftByNext(g: Graph, task: TaskId, who: Attempt -> bool, attempts: seq<Attempt>, disks: seq<Disk>, a: Attempt,
                   d: Disk, d': Disk)
    requires LeftBy(g, task, who, attempts, disks, d) && who(a)
    requires OwnAttempt(d, task, a) && DiskStep(g, task, a, d, d')
    ensures LeftBy(g, task, who, attempts + [a], disks + [d'], d')
  {
    var attempts', disks' := attempts + [a], disks + [d'];
    forall i {:trigger DiskAt(g, task, attempts', disks', i)} | 0 <= i < |attempts'|
      ensures DiskAt(g, task, attempts', disks', i)
    {
      DiskStays(g, task, attempts, disks, a, d', i);
    }
  }

  lemma DiskStays(g: Graph, task: TaskId, attempts: seq<Attempt>, disks: seq<Disk>, a: Attempt, d': Disk, i: nat)
    requires IsDiskRun(g, task, attempts, disks) && i <= |attempts|
    requires i == |attempts| ==> OwnAttempt(disks[i], task, a) && DiskStep(g, task, a, disks[i], d')
    ensures DiskAt(g, task, attempts + [a], disks + [d'], i)
  {
    var attempts', disks' := attempts + [a], disks + [d'];
    if i < |attempts| {
      DiskStepAt(g, task, attempts, disks, i);
      assert attempts'[i] == attempts[i] && disks'[i] == disks[i] && disks'[i + 1] == disks[i + 1];
    } else {
      assert attempts'[i] == a && disks'[i] == disks[i] && disks'[i + 1] == d';
    }
  }

  /** One process keeps going on this disk. */
  ghost predicate GoesOnAt(g: Graph, task: TaskId, a: Attempt, disks: seq<Disk>, i: nat)
    requires i + 1 < |disks|
  {
    OwnAttempt(disks[i], task, a) && DiskStep(g, task, a, disks[i], disks[i + 1])
  }

  ghost predicate GoesOn(g: Graph, task: TaskId, a: Attempt, disks: seq<Disk>) {
    |disks| >= 1 && forall i {:trigger GoesOnAt(g, task, a, disks, i)} :: 0 <= i < |disks| - 1 ==>
        GoesOnAt(g, task, a, disks, i)
  }

  lemma {:induction false} GoingOnLeaves(g: Graph, task: TaskId, who: Attempt -> bool, a: Attempt, disks: seq<Disk>,
                                         i: nat)
    requires GoesOn(g, task, a, disks) && i < |disks| && Left(g, task, who, disks[0]) && who(a)
    ensures Left(g, task, who, disks[i])
  {
    if i > 0 {
      GoingOnLeaves(g, task, who, a, disks, i - 1);
      assert GoesOnAt(g, task, a, disks, i - 1);
      LeftNext(g, task, who, a, disks[i - 1], disks[i]);
    }
  }

  /** The disk when the process comes to the top of its loop for the i-th time. */
  ghost function DiskBy(d: Disk, stages: seq<Stage>, i: nat): Disk
    requires i < |stages|
  {
    if i == 0 then d else Disk(stages[i].files, Some(stages[i].record.state))
  }

  /** These disks, and the one that the end of the call leaves. */
  ghost function DisksOf(d: Disk, stages: seq<Stage>, files: Files): (disks: seq<Disk>)
    requires |stages| >= 1
    ensures |disks| == |stages| + 1
    ensures forall i :: 0 <= i < |stages| ==> disks[i] == DiskBy(d, stages, i)
    ensures disks[|stages|] == Disk(files, DiskBy(d, stages, |stages| - 1).checkpoint)
  {
    seq(|stages|, i requires 0 <= i < |stages| => DiskBy(d, stages, i)) +
    [Disk(files, DiskBy(d, stages, |stages| - 1).checkpoint)]
  }

  /** The call comes to its loop from this disk. */
  ghost predicate Enters(g: Graph, a: Attempt, d: Disk, stages: seq<Stage>) {
    && Stages(g, a, stages)
    && Boots(g, a.bundle, d, stages[0].record.state, stages[0].files)
    && OwnAttempt(d, stages[0].record.task, a)
  }

  lemma StageCommits(g: Graph, a: Attempt, first: Record, now: Stage, next: Stage, d: Disk)
    requires Wired(g) && Sound(g, a, first, now) && Follows(g, a, now, next)
    requires d == Disk(next.files, Some(next.record.state))
    ensures Commits(g, first.task, a, now.record.state, now.files, d)
  {
    NextSound(g, a, first, now, next);
  }

  lemma CommitSaves(g: Graph, task: TaskId, a: Attempt, d: Disk, s: State, files: Files, d': Disk)
    requires Boots(g, a.bundle, d, s, files) && Commits(g, task, a, s, files, d')
    ensures Saves(g, task, a, d, d')
  {
  }

  lemma SaveGoesOn(g: Graph, task: TaskId, a: Attempt, d: Disk, d': Disk)
    requires Saves(g, task, a, d, d')
    ensures DiskStep(g, task, a, d, d')
  {
  }

  lemma SoundSaves(g: Graph, a: Attempt, first: Record, now: Stage, next: Stage, d: Disk, d': Disk)
    requires Wired(g) && Sound(g, a, first, now) && Follows(g, a, now, next)
    requires Boots(g, a.bundle, d, now.record.state, now.files) && d' == Disk(next.files, Some(next.record.state))
    ensures Saves(g, first.task, a, d, d')
  {
    StageCommits(g, a, first, now, next, d');
    CommitSaves(g, first.task, a, d, now.record.state, now.files, d');
  }

  lemma StageBoots(g: Graph, a: Attempt, d: Disk, stages: seq<Stage>, i: nat)
    requires Enters(g, a, d, stages) && i < |stages|
    ensures Boots(g, a.bundle, DiskBy(d, stages, i), stages[i].record.state, stages[i].files)
  {
  }

  /** Every iteration of any call, fresh or resumed, is one saving step on that disk. */
  lemma StageSaves(g: Graph, a: Attempt, d: Disk, stages: seq<Stage>, i: nat)
    requires Wired(g) && Enters(g, a, d, stages) && i + 1 < |stages|
    ensures Saves(g, stages[0].record.task, a, DiskBy(d, stages, i), DiskBy(d, stages, i + 1))
  {
    StageBoots(g, a, d, stages, i);
    StageSound(g, a, stages, i);
    LaterStage(g, a, stages, i + 1);
    SoundSaves(g, a, stages[0].record, stages[i], stages[i + 1], DiskBy(d, stages, i), DiskBy(d, stages, i + 1));
  }

  lemma StageIsOwn(g: Graph, a: Attempt, d: Disk, stages: seq<Stage>, i: nat)
    requires Wired(g) && Enters(g, a, d, stages) && i < |stages|
    ensures OwnAttempt(DiskBy(d, stages, i), stages[0].record.task, a)
    ensures stages[i].record.task == stages[0].record.task
  {
    StageSound(g, a, stages, i);
  }

  /** The process goes no further, by itself or because it dies: it has put no artifact since, or some of
      the wave it was about to commit. */
  ghost predicate Halts(g: Graph, a: Attempt, last: Stage, files: Files) {
    || files == last.files
    || (Launches(g, a.limit, last.record.state)
        && FilesPartlyStored(last.files, WaveArtifacts(g, last.record.task, a, last.record.state, last.files), files))
  }

  lemma ReturnHalts(g: Graph, a: Attempt, stages: seq<Stage>, files: Files, out: Ending)
    requires |stages| >= 1 && Returns(g, a, stages, files, out)
    ensures Halts(g, a, Last(stages), files)
  {
  }

  /** Going no further is a step of the crash model. */
  lemma HaltIsStep(g: Graph, task: TaskId, a: Attempt, d: Disk, last: Stage, files: Files)
    requires Halts(g, a, last, files) && last.record.task == task
    requires Boots(g, a.bundle, d, last.record.state, last.files)
    ensures DiskStep(g, task, a, d, Disk(files, d.checkpoint))
  {
    var d' := Disk(files, d.checkpoint);
    if files != last.files {
      assert PutsSome(g, task, a, last.record.state, last.files, d');
      assert DiesInWave(g, task, a, d, d');
    } else if d.checkpoint.None? {
      StoredIsPartly(d.files, BundleArtifacts(a.bundle), files, BundleArtifacts(a.bundle));
      assert DiesStarting(a, d, d');
    } else {
      assert OthersWrite(task, d, d');
    }
  }

  lemma LastBoots(g: Graph, a: Attempt, d: Disk, stages: seq<Stage>)
    requires Wired(g) && Enters(g, a, d, stages)
    ensures Boots(g, a.bundle, DiskBy(d, stages, |stages| - 1), Last(stages).record.state, Last(stages).files)
    ensures Last(stages).record.task == stages[0].record.task
  {
    StageIsOwn(g, a, d, stages, |stages| - 1);
    StageBoots(g, a, d, stages, |stages| - 1);
  }

  lemma LastStops(g: Graph, a: Attempt, d: Disk, stages: seq<Stage>, files: Files, now: Disk)
    requires Wired(g) && Enters(g, a, d, stages) && Halts(g, a, Last(stages), files)
    requires now == DiskBy(d, stages, |stages| - 1)
    ensures DiskStep(g, stages[0].record.task, a, now, Disk(files, now.checkpoint))
  {
    LastBoots(g, a, d, stages);
    HaltIsStep(g, stages[0].record.task, a, now, Last(stages), files);
  }

  /** So a call is a stretch of the crash model, whether it returns or dies on the way. */
  lemma CallGoesOn(g: Graph, a: Attempt, d: Disk, stages: seq<Stage>, files: Files)
    requires Wired(g) && Enters(g, a, d, stages) && Halts(g, a, Last(stages), files)
    ensures GoesOn(g, stages[0].record.task, a, DisksOf(d, stages, files))
  {
    var task, disks := stages[0].record.task, DisksOf(d, stages, files);
    forall i {:trigger GoesOnAt(g, task, a, disks, i)} | 0 <= i < |disks| - 1 ensures GoesOnAt(g, task, a, disks, i) {
      StageIsOwn(g, a, d, stages, i);
      if i + 1 < |stages| {
        StageSaves(g, a, d, stages, i);
        SaveGoesOn(g, task, a, disks[i], disks[i + 1]);
      } else {
        LastStops(g, a, d, stages, files, disks[i]);
      }
    }
  }

  /** What the process leaves where it goes no further. */
  ghost function LeftDisk(d: Disk, stages: seq<Stage>, files: Files): Disk
    requires |stages| >= 1
  {
    Disk(files, DiskBy(d, stages, |stages| - 1).checkpoint)
  }

  lemma StagesLeave(g: Graph, who: Attempt -> bool, a: Attempt, d: Disk, stages: seq<Stage>, files: Files)
    requires Wired(g) && Enters(g, a, d, stages) && Halts(g, a, Last(stages), files)
    requires Left(g, stages[0].record.task, who, d) && who(a)
    ensures Left(g, stages[0].record.task, who, LeftDisk(d, stages, files))
  {
    CallGoesOn(g, a, d, stages, files);
    GoingOnLeaves(g, stages[0].record.task, who, a, DisksOf(d, stages, files), |stages|);
  }

  /* ---------- calls of `execute` ---------- */

  /** What a call finds, what it goes through and what it leaves. */
  datatype Call = Call(
    ctx: Context,
    loaded: Loaded,
    before: Files,
    after: Files,
    saved: map<TaskId, Record>,
    saved': map<TaskId, Record>,
    stages: seq<Stage>,
    out: Ending)

  ghost predicate IsCall(g: Graph, a: Attempt, c: Call) {
    Executes(g, a, c.ctx, c.loaded, c.before, c.after, c.saved, c.saved', c.stages, c.out)
  }

  /** What is there for a task. */
  ghost function DiskIn(files: Files, saved: map<TaskId, Record>, task: TaskId): Disk {
    Disk(files, if task in saved then Some(saved[task].state) else None)
  }

  ghost function Found(c: Call): Disk {
    DiskIn(c.before, c.saved, c.ctx.task)
  }

  ghost function Leaves(c: Call): Disk {
    DiskIn(c.after, c.saved', c.ctx.task)
  }

  /** The call is made by a process of this kind, after any history of such processes. */
  ghost predicate Happens(g: Graph, who: Attempt -> bool, a: Attempt, c: Call) {
    && IsCall(g, a, c) && OwnAttempt(Found(c), c.ctx.task, a)
    && who(a) && Left(g, c.ctx.task, who, Found(c))
  }

  /** It came to its loop. */
  ghost predicate Looped(c: Call) {
    !c.loaded.ConfigDrift? && c.stages != []
  }

  lemma CallEnters(g: Graph, a: Attempt, c: Call)
    requires IsCall(g, a, c) && OwnAttempt(Found(c), c.ctx.task, a) && Looped(c)
    ensures Enters(g, a, Found(c), c.stages) && c.stages[0].record.task == c.ctx.task
    ensures Returns(g, a, c.stages, c.after, c.out)
  {
    assert Found(c) == DiskOf(c.before, c.loaded);
  }

  /** A refused bundle is a death while it is being put. */
  lemma FailedStartLeaves(g: Graph, who: Attempt -> bool, a: Attempt, c: Call)
    requires Happens(g, who, a, c) && !c.loaded.ConfigDrift? && c.stages == []
    ensures Left(g, c.ctx.task, who, Leaves(c))
  {
    if c.loaded.NoCheckpoint? {
      assert DiesStarting(a, Found(c), Leaves(c));
      LeftNext(g, c.ctx.task, who, a, Found(c), Leaves(c));
    }
  }

  /** That disk holds what the process has saved. */
  lemma LeftIsSaved(g: Graph, a: Attempt, d: Disk, stages: seq<Stage>, saved: map<TaskId, Record>, files: Files)
    requires Wired(g) && Stages(g, a, stages) && d.checkpoint == DiskIn(files, saved, stages[0].record.task).checkpoint
    ensures LeftDisk(d, stages, files) == DiskIn(files, SavedAfter(saved, stages), stages[0].record.task)
  {
    LastSound(g, a, stages);
  }

  lemma LoopLeaves(g: Graph, who: Attempt -> bool, a: Attempt, c: Call)
    requires Wired(g) && Happens(g, who, a, c) && Looped(c)
    ensures Left(g, c.ctx.task, who, Leaves(c))
  {
    CallEnters(g, a, c);
    ReturnHalts(g, a, c.stages, c.after, c.out);
    StagesLeave(g, who, a, Found(c), c.stages, c.after);
    LeftIsSaved(g, a, Found(c), c.stages, c.saved, c.after);
  }

  /** Whatever a call comes to, and wherever processes died before it: what it leaves on a disk that the
      crash model reaches is again such a disk. So all that module Resume proves holds before and after
      every call, in any sequence of calls and deaths. */
  lemma CallLeaves(g: Graph, who: Attempt -> bool, a: Attempt, c: Call)
    requires Wired(g) && Happens(g, who, a, c)
    ensures Left(g, c.ctx.task, who, Leaves(c))
  {
    if Looped(c) {
      LoopLeaves(g, who, a, c);
    } else if !c.loaded.ConfigDrift? {
      FailedStartLeaves(g, who, a, c);
    }
  }

  /** The record is this task's, and times nodes of this graph. */
  ghost predicate Fits(g: Graph, saved: map<TaskId, Record>, task: TaskId) {
    task in saved ==> saved[task].task == task && saved[task].latencies.Keys <= Ids(g)
  }

  /** Calls keep it so. */
  lemma CallFits(g: Graph, a: Attempt, c: Call)
    requires Wired(g) && IsCall(g, a, c) && Fits(g, c.saved, c.ctx.task)
    ensures Fits(g, c.saved', c.ctx.task)
  {
    if Looped(c) {
      LastSound(g, a, c.stages);
    }
  }

  /** What `Execute` asks of a checkpoint is met by all that such calls and deaths leave. */
  lemma LeftIsResumable(g: Graph, who: Attempt -> bool, task: TaskId, files: Files, saved: map<TaskId, Record>,
                        loaded: Loaded)
    requires Wired(g) && Left(g, task, who, DiskIn(files, saved, task)) && Fits(g, saved, task)
    requires loaded.Checkpoint? ==> task in saved && loaded.record == saved[task]
    ensures Resumable(g, files, task, loaded)
  {
    if loaded.Checkpoint? {
      var attempts, disks :| LeftBy(g, task, who, attempts, disks, DiskIn(files, saved, task));
      DisksProper(g, task, attempts, disks, |attempts|);
    }
  }

  /** On such a disk a resume never fails: its check passes. */
  lemma ResumeStarts(g: Graph, who: Attempt -> bool, a: Attempt, c: Call)
    requires Wired(g) && Happens(g, who, a, c) && c.loaded.Checkpoint?
    ensures c.stages != [] && StateInv(g, c.loaded.record.state.initial, c.loaded.record.state)
  {
    var attempts, disks :| LeftBy(g, c.ctx.task, who, attempts, disks, Found(c));
    ResumeCheckPasses(g, c.ctx.task, attempts, disks, |attempts|);
  }
}
