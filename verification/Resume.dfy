/** Crashes and resumes. The disk holds every task's artifacts and one task's last checkpoint; a process
    working on the task may die between any two writes, and the next one has its own limit, executors
    and bundle, so what it puts may differ from what an interrupted wave has left. */
module Resume {
  import opened Types
  import opened Scheduling
  import opened Stores
  import opened Committing
  import opened Runs
  import opened Progress
  import opened Endings
  import opened References

  datatype Disk = Disk(files: Files, checkpoint: Option<State>)

  /** How long a node takes in the wave of this number. */
  type Clock = (nat, NodeId) -> nat

  /** What a process brings along. Its clock has no influence on what it writes. */
  datatype Attempt = Attempt(limit: int, run: Oracle, bundle: map<Slot, Artifact>, clock: Clock)

  /** What a process started on this disk holds at the top of its loop: the checkpoint, or the
      initial state after the bundle has been put. */
  ghost predicate Boots(g: Graph, bundle: map<Slot, Artifact>, d: Disk, s: State, files: Files) {
    match d.checkpoint
    case None => s == InitState(g, bundle) && FilesStored(d.files, BundleArtifacts(bundle), files)
    case Some(saved) => s == saved && files == d.files
  }

  /** It is about to run a wave. */
  ghost predicate Launches(g: Graph, k: int, s: State) {
    Tracks(g, s) && !s.frozen && ReadyList(g, SkipPass(g, s), k) != []
  }

  /** The artifacts of the wave it is about to run. */
  ghost function WaveArtifacts(g: Graph, task: TaskId, a: Attempt, s: State, files: Files): set<Artifact>
    requires Tracks(g, s)
  {
    ArtifactsOf(WaveResults(g, a.limit, a.run, At(s, files, task)))
  }

  /** Death while the bundle is being put. */
  ghost predicate DiesStarting(a: Attempt, d: Disk, d': Disk) {
    d.checkpoint.None? && d'.checkpoint.None? && FilesPartlyStored(d.files, BundleArtifacts(a.bundle), d'.files)
  }

  /** Death while a wave's artifacts are being put, or after them but before the checkpoint. */
  ghost predicate DiesInWave(g: Graph, task: TaskId, a: Attempt, d: Disk, d': Disk) {
    exists s, files ::
        Boots(g, a.bundle, d, s, files) && PutsSome(g, task, a, s, files, d') && d'.checkpoint == d.checkpoint
  }

  ghost predicate PutsSome(g: Graph, task: TaskId, a: Attempt, s: State, files: Files, d': Disk) {
    Launches(g, a.limit, s) && FilesPartlyStored(files, WaveArtifacts(g, task, a, s, files), d'.files)
  }

  /** A wave that reaches its checkpoint. The process then goes on as if it had just resumed. */
  ghost predicate Saves(g: Graph, task: TaskId, a: Attempt, d: Disk, d': Disk) {
    exists s, files :: Boots(g, a.bundle, d, s, files) && Commits(g, task, a, s, files, d')
  }

  ghost predicate Commits(g: Graph, task: TaskId, a: Attempt, s: State, files: Files, d': Disk) {
    && d'.checkpoint.Some?
    && Step(g, a.limit, a.run, At(s, files, task), At(d'.checkpoint.value, d'.files, task))
    && FilesStored(files, WaveArtifacts(g, task, a, s, files), d'.files)
  }

  /** Processes that work on other tasks write under their own ids. */
  ghost predicate OthersWrite(task: TaskId, d: Disk, d': Disk) {
    && d'.checkpoint == d.checkpoint
    && TaskFiles(d'.files, task) == TaskFiles(d.files, task)
    && forall id :: id in Readable(d.files, task) ==> !Foreign(d'.files, task, id)
  }

  ghost predicate DiskStep(g: Graph, task: TaskId, a: Attempt, d: Disk, d': Disk) {
    || DiesStarting(a, d, d')
    || DiesInWave(g, task, a, d, d')
    || Saves(g, task, a, d, d')
    || OthersWrite(task, d, d')
  }

  /** The process puts this task's name on its artifacts, under ids that no other task uses. The bundle
      matters only while there is no checkpoint. */
  ghost predicate OwnAttempt(d: Disk, task: TaskId, a: Attempt) {
    OwnOutputs(d.files, task, a.run) && (d.checkpoint.None? ==> OwnBundle(d.files, task, a.bundle))
  }

  ghost predicate DiskAt(g: Graph, task: TaskId, attempts: seq<Attempt>, disks: seq<Disk>, i: nat)
    requires i < |attempts| < |disks|
  {
    OwnAttempt(disks[i], task, attempts[i]) && DiskStep(g, task, attempts[i], disks[i], disks[i + 1])
  }

  /** Any number of processes, each with its own limit, executors and bundle, dying anywhere. */
  ghost predicate IsDiskRun(g: Graph, task: TaskId, attempts: seq<Attempt>, disks: seq<Disk>) {
    && |disks| == |attempts| + 1
    && disks[0].checkpoint.None?
    && forall i {:trigger DiskAt(g, task, attempts, disks, i)} :: 0 <= i < |attempts| ==>
        DiskAt(g, task, attempts, disks, i)
  }

  lemma DiskStepAt(g: Graph, task: TaskId, attempts: seq<Attempt>, disks: seq<Disk>, i: nat)
    requires IsDiskRun(g, task, attempts, disks) && i < |attempts|
    ensures OwnAttempt(disks[i], task, attempts[i]) && DiskStep(g, task, attempts[i], disks[i], disks[i + 1])
  {
    assert DiskAt(g, task, attempts, disks, i);
  }

  /* ---------- the check at resume passes ---------- */

  /** What every reachable disk satisfies: the checkpoint is a proper state between waves, none of
      its nodes running, and all the artifacts it names can be read. */
  ghost predicate DiskInv(g: Graph, task: TaskId, d: Disk) {
    d.checkpoint.Some? ==> Proper(g, task, d.files, d.checkpoint.value)
  }

  ghost predicate Proper(g: Graph, task: TaskId, files: Files, s: State) {
    StateInv(g, s.initial, s) && Referenced(s, Readable(files, task))
  }

  lemma ProperExtends(g: Graph, task: TaskId, before: Files, after: Files, s: State)
    requires Proper(g, task, before, s) && Extends(before, after, task)
    ensures Proper(g, task, after, s)
  {
    ReferencedGrows(s, Readable(before, task), Readable(after, task));
  }

  lemma ProperCanResume(g: Graph, task: TaskId, files: Files, s: State)
    requires Proper(g, task, files, s)
    ensures CanResume(files, s)
  {
    ResumeReadable(files, task, s);
  }

  lemma BundleIsOwn(files: Files, task: TaskId, bundle: map<Slot, Artifact>)
    requires OwnBundle(files, task, bundle)
    ensures forall a :: a in BundleArtifacts(bundle) ==> Own(files, task, a)
  {
  }

  lemma InitProper(g: Graph, task: TaskId, bundle: map<Slot, Artifact>, before: Files, after: Files)
    requires Wired(g) && OwnBundle(before, task, bundle) && FilesStored(before, BundleArtifacts(bundle), after)
    ensures Proper(g, task, after, InitState(g, bundle)) && Extends(before, after, task)
    ensures IsInit(g, bundle, TaskFiles(before, task), At(InitState(g, bundle), after, task))
  {
    BundleIsOwn(before, task, bundle);
    PutsExtend(before, BundleArtifacts(bundle), after, task);
    InitInv(g, bundle);
    forall id | Names(InitState(g, bundle), id) ensures id in Readable(after, task) {
      var slot :| slot in bundle && bundle[slot].id == id;
      assert bundle[slot] in BundleArtifacts(bundle);
    }
  }

  /** Every process boots into a proper state. */
  lemma BootProper(g: Graph, task: TaskId, a: Attempt, d: Disk, s: State, files: Files)
    requires Wired(g) && DiskInv(g, task, d) && OwnAttempt(d, task, a) && Boots(g, a.bundle, d, s, files)
    ensures Proper(g, task, files, s) && Extends(d.files, files, task) && OwnOutputs(files, task, a.run)
  {
    if d.checkpoint.None? {
      InitProper(g, task, a.bundle, d.files, files);
    }
    OwnStays(d.files, files, task, a.run);
  }

  lemma CommitProper(g: Graph, task: TaskId, a: Attempt, s: State, files: Files, d': Disk)
    requires Wired(g) && Proper(g, task, files, s) && OwnOutputs(files, task, a.run)
    requires Commits(g, task, a, s, files, d')
    ensures Proper(g, task, d'.files, d'.checkpoint.value)
  {
    var c, s' := At(s, files, task), d'.checkpoint.value;
    WaveIsOwn(g, a.limit, a.run, At(s, files, task), files, task);
    PutsExtend(files, WaveArtifacts(g, task, a, s, files), d'.files, task);
    StepInv(g, s.initial, a.limit, a.run, c, At(s', d'.files, task));
    NextReferenced(g, s.initial, a.limit, a.run, c, Readable(files, task), Readable(d'.files, task));
    assert s'.initial == s.initial;
  }

  lemma OthersExtend(task: TaskId, d: Disk, d': Disk, id: ArtifactId)
    requires OthersWrite(task, d, d') && id in Readable(d.files, task)
    ensures id in Readable(d'.files, task)
  {
    assert id in TaskFiles(d.files, task) && id in TaskFiles(d'.files, task);
    assert TaskFiles(d'.files, task)[id] == TaskFiles(d.files, task)[id];
  }

  lemma DiskStepInv(g: Graph, task: TaskId, a: Attempt, d: Disk, d': Disk)
    requires Wired(g) && DiskInv(g, task, d) && OwnAttempt(d, task, a) && DiskStep(g, task, a, d, d')
    ensures DiskInv(g, task, d')
  {
    if DiesInWave(g, task, a, d, d') {
      DyingInv(g, task, a, d, d');
    } else if Saves(g, task, a, d, d') {
      var s, files :| Boots(g, a.bundle, d, s, files) && Commits(g, task, a, s, files, d');
      BootProper(g, task, a, d, s, files);
      CommitProper(g, task, a, s, files, d');
    } else if OthersWrite(task, d, d') && d.checkpoint.Some? {
      forall id | Names(d.checkpoint.value, id) ensures id in Readable(d'.files, task) {
        OthersExtend(task, d, d', id);
      }
    }
  }

  lemma DyingInv(g: Graph, task: TaskId, a: Attempt, d: Disk, d': Disk)
    requires Wired(g) && DiskInv(g, task, d) && OwnAttempt(d, task, a) && DiesInWave(g, task, a, d, d')
    ensures DiskInv(g, task, d')
  {
    var s, files :| Boots(g, a.bundle, d, s, files) && PutsSome(g, task, a, s, files, d')
                    && d'.checkpoint == d.checkpoint;
    if d.checkpoint.Some? {
      WaveIsOwn(g, a.limit, a.run, At(s, files, task), files, task);
      PartlyExtends(files, WaveArtifacts(g, task, a, s, files), d'.files, task);
      ProperExtends(g, task, files, d'.files, s);
    }
  }

  lemma {:induction false} DisksProper(g: Graph, task: TaskId, attempts: seq<Attempt>, disks: seq<Disk>, i: nat)
    requires Wired(g) && IsDiskRun(g, task, attempts, disks) && i <= |attempts|
    ensures DiskInv(g, task, disks[i])
  {
    if i > 0 {
      DisksProper(g, task, attempts, disks, i - 1);
      NextDiskInv(g, task, attempts, disks, i - 1);
    }
  }

  lemma NextDiskInv(g: Graph, task: TaskId, attempts: seq<Attempt>, disks: seq<Disk>, i: nat)
    requires Wired(g) && IsDiskRun(g, task, attempts, disks) && i < |attempts| && DiskInv(g, task, disks[i])
    ensures DiskInv(g, task, disks[i + 1])
  {
    var d, d' := disks[i], disks[i + 1];
    assert DiskAt(g, task, attempts, disks, i);
    DiskStepInv(g, task, attempts[i], d, d');
  }

  /** Wherever the processes die, and whatever the next ones put, the check at resume passes: every
      artifact that the last checkpoint names is fetched by `get`. */
  lemma ResumeCheckPasses(g: Graph, task: TaskId, attempts: seq<Attempt>, disks: seq<Disk>, i: nat)
    requires Wired(g) && IsDiskRun(g, task, attempts, disks) && i <= |attempts| && disks[i].checkpoint.Some?
    ensures StateInv(g, disks[i].checkpoint.value.initial, disks[i].checkpoint.value)
    ensures CanResume(disks[i].files, disks[i].checkpoint.value)
  {
    DisksProper(g, task, attempts, disks, i);
    ProperCanResume(g, task, disks[i].files, disks[i].checkpoint.value);
  }

  /* ---------- checkpoints only grow ---------- */

  /** The later disk has a checkpoint if the earlier one has, and that one has only grown. */
  ghost predicate CheckpointGrows(d: Disk, d': Disk) {
    d.checkpoint.Some? ==> d'.checkpoint.Some? && Grows(d.checkpoint.value, d'.checkpoint.value)
  }

  /** Other steps leave the checkpoint alone, and once there is one, every artifact of the task. */
  lemma OtherwiseKeeps(g: Graph, task: TaskId, a: Attempt, d: Disk, d': Disk)
    requires DiskStep(g, task, a, d, d') && !Saves(g, task, a, d, d')
    ensures d'.checkpoint == d.checkpoint
    ensures d'.checkpoint.Some? ==> Keeps(TaskFiles(d.files, task), TaskFiles(d'.files, task))
  {
    if DiesInWave(g, task, a, d, d') {
      var s, files :| Boots(g, a.bundle, d, s, files) && PutsSome(g, task, a, s, files, d')
                      && d'.checkpoint == d.checkpoint;
    }
  }

  lemma SaveGrows(g: Graph, task: TaskId, a: Attempt, d: Disk, d': Disk)
    requires Wired(g) && DiskInv(g, task, d) && d.checkpoint.Some? && Saves(g, task, a, d, d')
    ensures CheckpointGrows(d, d')
  {
    var s, files :| Boots(g, a.bundle, d, s, files) && Commits(g, task, a, s, files, d');
    StepGrows(g, s.initial, a.limit, a.run, At(s, files, task), At(d'.checkpoint.value, d'.files, task));
  }

  lemma DiskStepGrows(g: Graph, task: TaskId, a: Attempt, d: Disk, d': Disk)
    requires Wired(g) && DiskInv(g, task, d) && DiskStep(g, task, a, d, d')
    ensures CheckpointGrows(d, d')
  {
    if d.checkpoint.Some? {
      if Saves(g, task, a, d, d') {
        SaveGrows(g, task, a, d, d');
      } else {
        OtherwiseKeeps(g, task, a, d, d');
        GrowsReflexive(d.checkpoint.value);
      }
    }
  }

  lemma NextCheckpointGrows(g: Graph, task: TaskId, attempts: seq<Attempt>, disks: seq<Disk>, i: nat)
    requires Wired(g) && IsDiskRun(g, task, attempts, disks) && i < |attempts|
    ensures CheckpointGrows(disks[i], disks[i + 1])
  {
    var d, d' := disks[i], disks[i + 1];
    DisksProper(g, task, attempts, disks, i);
    assert DiskAt(g, task, attempts, disks, i);
    DiskStepGrows(g, task, attempts[i], d, d');
  }

  lemma CheckpointGrowsTransitive(a: Disk, b: Disk, c: Disk)
    requires CheckpointGrows(a, b) && CheckpointGrows(b, c)
    ensures CheckpointGrows(a, c)
  {
    if a.checkpoint.Some? {
      GrowsTransitive(a.checkpoint.value, b.checkpoint.value, c.checkpoint.value);
    }
  }

  /** Across any crashes and resumes, under any limits, executors and bundles, settled statuses,
      outputs, edge outcomes and the final artifact in one checkpoint are the same in every later one. */
  lemma {:induction false} CheckpointsGrow(g: Graph, task: TaskId, attempts: seq<Attempt>, disks: seq<Disk>, i: nat,
                                           j: nat)
    requires Wired(g) && IsDiskRun(g, task, attempts, disks) && i <= j <= |attempts|
    ensures CheckpointGrows(disks[i], disks[j])
  {
    if i == j {
      if disks[i].checkpoint.Some? {
        GrowsReflexive(disks[i].checkpoint.value);
      }
    } else {
      CheckpointsGrow(g, task, attempts, disks, i, j - 1);
      NextCheckpointGrows(g, task, attempts, disks, j - 1);
      CheckpointGrowsTransitive(disks[i], disks[j - 1], disks[j]);
    }
  }

  /** A resumed process launches no node that its checkpoint shows as settled. */
  lemma SettledNotRerun(g: Graph, task: TaskId, a: Attempt, d: Disk, s: State, files: Files, n: NodeId)
    requires Wired(g) && DiskInv(g, task, d) && Boots(g, a.bundle, d, s, files) && Tracks(g, s)
    requires n in WaveResults(g, a.limit, a.run, At(s, files, task))
    ensures n in s.status && s.status[n] == Pending
  {
    WaveIsGood(g, a.limit, a.run, At(s, files, task));
    SkipShrinks(g, s);
    assert n in PendingSet(SkipPass(g, s));
  }

  /* ---------- the saved waves form a run ---------- */

  /** Some process before the i-th had this limit and these executors. */
  ghost predicate Served(attempts: seq<Attempt>, i: nat, t: Turn) {
    exists a :: 0 <= a < i && a < |attempts| && t.limit == attempts[a].limit && t.run == attempts[a].run
  }

  ghost predicate ServedBy(attempts: seq<Attempt>, i: nat, turns: seq<Turn>) {
    forall j :: 0 <= j < |turns| ==> Served(attempts, i, turns[j])
  }

  ghost predicate Given(attempts: seq<Attempt>, i: nat, bundle: map<Slot, Artifact>) {
    exists a :: 0 <= a < i && a < |attempts| && attempts[a].bundle == bundle
  }

  /** The waves saved so far form a run from a fresh start, each by one of the processes; the disk
      holds all of its artifacts and possibly more. */
  ghost predicate LeadsTo(g: Graph, task: TaskId, attempts: seq<Attempt>, i: nat, d: Disk, bundle: map<Slot, Artifact>,
                          turns: seq<Turn>, trace: seq<Config>)
  {
    && IsRun(g, IdsOf(bundle), turns, trace)
    && FreshStart(g, bundle, trace[0])
    && ServedBy(attempts, i, turns)
    && Given(attempts, i, bundle)
    && d.checkpoint == Some(trace[|turns|].st)
    && Keeps(trace[|turns|].store, TaskFiles(d.files, task))
  }

  ghost predicate FreshStart(g: Graph, bundle: map<Slot, Artifact>, c: Config) {
    exists before :: IsInit(g, bundle, before, c)
  }

  ghost predicate IsReached(g: Graph, task: TaskId, attempts: seq<Attempt>, i: nat, d: Disk) {
    exists bundle, turns, trace :: LeadsTo(g, task, attempts, i, d, bundle, turns, trace)
  }

  lemma StillServed(attempts: seq<Attempt>, i: nat, turns: seq<Turn>, bundle: map<Slot, Artifact>)
    requires ServedBy(attempts, i, turns) && Given(attempts, i, bundle)
    ensures ServedBy(attempts, i + 1, turns) && Given(attempts, i + 1, bundle)
  {
    forall j | 0 <= j < |turns| ensures Served(attempts, i + 1, turns[j]) {
      assert Served(attempts, i, turns[j]);
      var a :| 0 <= a < i && a < |attempts| && turns[j].limit == attempts[a].limit && turns[j].run == attempts[a].run;
    }
  }

  lemma OneMoreServed(attempts: seq<Attempt>, i: nat, turns: seq<Turn>, t: Turn)
    requires i < |attempts| && ServedBy(attempts, i + 1, turns)
    requires t.limit == attempts[i].limit && t.run == attempts[i].run
    ensures ServedBy(attempts, i + 1, turns + [t])
  {
    assert Served(attempts, i + 1, t);
  }

  lemma ExtendedEnds(turns: seq<Turn>, trace: seq<Config>, t: Turn, c: Config)
    requires |trace| == |turns| + 1
    ensures |trace + [c]| == |turns + [t]| + 1 && (trace + [c])[|turns + [t]|] == c && (trace + [c])[0] == trace[0]
  {
  }

  lemma KeepsReflexive(store: Store)
    ensures Keeps(store, store)
  {
  }

  lemma LeadsOn(g: Graph, task: TaskId, attempts: seq<Attempt>, i: nat, d: Disk, d': Disk)
    requires IsReached(g, task, attempts, i, d) && d'.checkpoint == d.checkpoint
    requires Keeps(TaskFiles(d.files, task), TaskFiles(d'.files, task))
    ensures IsReached(g, task, attempts, i + 1, d')
  {
    var bundle, turns, trace :| LeadsTo(g, task, attempts, i, d, bundle, turns, trace);
    StillServed(attempts, i, turns, bundle);
    assert LeadsTo(g, task, attempts, i + 1, d', bundle, turns, trace);
  }

  /** A wave saved by process i extends the run. */
  lemma LeadsFurther(g: Graph, task: TaskId, attempts: seq<Attempt>, i: nat, bundle: map<Slot, Artifact>,
                     turns: seq<Turn>, trace: seq<Config>, t: Turn, c: Config, d': Disk)
    requires IsRun(g, IdsOf(bundle), turns, trace) && FreshStart(g, bundle, trace[0]) && i < |attempts|
    requires ServedBy(attempts, i + 1, turns) && Given(attempts, i + 1, bundle) && Keeps(trace[|turns|].store, t.store)
    requires t.limit == attempts[i].limit && t.run == attempts[i].run
    requires Step(g, t.limit, t.run, Config(trace[|turns|].st, t.store), c)
    requires d'.checkpoint == Some(c.st) && TaskFiles(d'.files, task) == c.store
    ensures LeadsTo(g, task, attempts, i + 1, d', bundle, turns + [t], trace + [c])
  {
    RunExtend(g, IdsOf(bundle), turns, trace, t, c);
    OneMoreServed(attempts, i, turns, t);
    ExtendedEnds(turns, trace, t, c);
    KeepsReflexive(c.store);
  }

  lemma LeadsThere(g: Graph, task: TaskId, attempts: seq<Attempt>, i: nat, d: Disk, bundle: map<Slot, Artifact>,
                   turns: seq<Turn>, trace: seq<Config>)
    requires LeadsTo(g, task, attempts, i, d, bundle, turns, trace)
    ensures IsReached(g, task, attempts, i, d)
  {
  }

  lemma LeadsFirst(g: Graph, task: TaskId, attempts: seq<Attempt>, i: nat, d: Disk, files: Files, d': Disk)
    requires Wired(g) && i < |attempts| && d.checkpoint.None? && OwnAttempt(d, task, attempts[i])
    requires FilesStored(d.files, BundleArtifacts(attempts[i].bundle), files)
    requires Commits(g, task, attempts[i], InitState(g, attempts[i].bundle), files, d')
    ensures IsReached(g, task, attempts, i + 1, d')
  {
    var bundle := attempts[i].bundle;
    var c := At(InitState(g, bundle), files, task);
    InitProper(g, task, bundle, d.files, files);
    RunOfOne(g, IdsOf(bundle), c);
    KeepsReflexive(c.store);
    var t, c' := Turn(attempts[i].limit, attempts[i].run, c.store), At(d'.checkpoint.value, d'.files, task);
    LeadsFurther(g, task, attempts, i, bundle, [], [c], t, c', d');
    LeadsThere(g, task, attempts, i + 1, d', bundle, [] + [t], [c] + [c']);
  }

  lemma LeadsNext(g: Graph, task: TaskId, attempts: seq<Attempt>, i: nat, d: Disk, d': Disk)
    requires IsReached(g, task, attempts, i, d) && i < |attempts| && d.checkpoint.Some?
    requires Commits(g, task, attempts[i], d.checkpoint.value, d.files, d')
    ensures IsReached(g, task, attempts, i + 1, d')
  {
    var bundle, turns, trace :| LeadsTo(g, task, attempts, i, d, bundle, turns, trace);
    StillServed(attempts, i, turns, bundle);
    var a, c' := attempts[i], At(d'.checkpoint.value, d'.files, task);
    var t := Turn(a.limit, a.run, TaskFiles(d.files, task));
    LeadsFurther(g, task, attempts, i, bundle, turns, trace, t, c', d');
    LeadsThere(g, task, attempts, i + 1, d', bundle, turns + [t], trace + [c']);
  }

  lemma NextReached(g: Graph, task: TaskId, attempts: seq<Attempt>, disks: seq<Disk>, i: nat)
    requires Wired(g) && IsDiskRun(g, task, attempts, disks) && i < |attempts|
    requires disks[i].checkpoint.Some? ==> IsReached(g, task, attempts, i, disks[i])
    ensures disks[i + 1].checkpoint.Some? ==> IsReached(g, task, attempts, i + 1, disks[i + 1])
  {
    var a, d, d' := attempts[i], disks[i], disks[i + 1];
    assert DiskAt(g, task, attempts, disks, i);
    if Saves(g, task, a, d, d') {
      var s, files :| Boots(g, a.bundle, d, s, files) && Commits(g, task, a, s, files, d');
      if d.checkpoint.None? {
        LeadsFirst(g, task, attempts, i, d, files, d');
      } else {
        LeadsNext(g, task, attempts, i, d, d');
      }
    } else if d'.checkpoint.Some? {
      OtherwiseKeeps(g, task, a, d, d');
      LeadsOn(g, task, attempts, i, d, d');
    }
  }

  /** However often processes die and whatever they leave, the waves that were saved form one run from
      a fresh start. Everything proved about runs holds of it, and of the checkpoint it ends in. */
  lemma {:induction false} CheckpointIsReached(g: Graph, task: TaskId, attempts: seq<Attempt>, disks: seq<Disk>, i: nat)
    requires Wired(g) && IsDiskRun(g, task, attempts, disks) && i <= |attempts|
    ensures disks[i].checkpoint.Some? ==> IsReached(g, task, attempts, i, disks[i])
  {
    if i > 0 {
      CheckpointIsReached(g, task, attempts, disks, i - 1);
      NextReached(g, task, attempts, disks, i - 1);
    }
  }
}
