/** Processes that are all alike: with the same limit, bundle and deterministic executors, down to the
    artifact ids, an interrupted run goes through the very states of an uninterrupted one. */
module Determinism {
  import opened Types
  import opened Scheduling
  import opened Stores
  import opened Committing
  import opened Runs
  import opened Endings
  import opened Independence
  import opened References
  import opened Resume

  /* ---------- uninterrupted runs ---------- */

  ghost predicate PlainAt(g: Graph, a: Attempt, trace: seq<Config>, i: nat)
    requires i < |trace|
  {
    i + 1 < |trace| ==> Step(g, a.limit, a.run, trace[i], trace[i + 1])
  }

  /** One process, from its bundle on, without interruption. */
  ghost predicate IsPlainRun(g: Graph, a: Attempt, before: Store, trace: seq<Config>) {
    && |trace| >= 1
    && IsInit(g, a.bundle, before, trace[0])
    && AllPlain(g, a, trace)
  }

  ghost predicate AllPlain(g: Graph, a: Attempt, trace: seq<Config>) {
    forall i {:trigger PlainAt(g, a, trace, i)} :: 0 <= i < |trace| ==> PlainAt(g, a, trace, i)
  }

  ghost function LastOf(trace: seq<Config>): Config
    requires |trace| >= 1
  {
    trace[|trace| - 1]
  }

  /** The turns of an uninterrupted run: nothing differs and nothing is added. */
  ghost function PlainTurns(a: Attempt, trace: seq<Config>): (turns: seq<Turn>)
    requires |trace| >= 1
    ensures |turns| == |trace| - 1
    ensures forall i :: 0 <= i < |turns| ==> turns[i] == Turn(a.limit, a.run, trace[i].store)
  {
    seq(|trace| - 1, i requires 0 <= i < |trace| - 1 => Turn(a.limit, a.run, trace[i].store))
  }

  lemma PlainIsRun(g: Graph, a: Attempt, before: Store, trace: seq<Config>)
    requires Wired(g) && IsPlainRun(g, a, before, trace)
    ensures IsRun(g, IdsOf(a.bundle), PlainTurns(a, trace), trace)
  {
    var turns := PlainTurns(a, trace);
    InitInv(g, a.bundle);
    forall i {:trigger PointAt(g, IdsOf(a.bundle), turns, trace, i)} | 0 <= i <= |turns|
      ensures PointAt(g, IdsOf(a.bundle), turns, trace, i)
    {
      if i < |turns| {
        assert PlainAt(g, a, trace, i);
        assert TopAt(turns, trace, i) == trace[i];
      }
    }
  }

  lemma PlainFacts(g: Graph, a: Attempt, before: Store, trace: seq<Config>, i: nat)
    requires Wired(g) && IsPlainRun(g, a, before, trace) && i < |trace|
    ensures StateInv(g, IdsOf(a.bundle), trace[i].st) && trace[i].st.checkpointCount == i
  {
    PlainIsRun(g, a, before, trace);
    RunInv(g, IdsOf(a.bundle), PlainTurns(a, trace), trace, i);
    WavesAreFinite(g, IdsOf(a.bundle), PlainTurns(a, trace), trace, i);
  }

  lemma PlainExtend(g: Graph, a: Attempt, trace: seq<Config>, c: Config)
    requires |trace| >= 1 && AllPlain(g, a, trace) && Step(g, a.limit, a.run, LastOf(trace), c)
    ensures AllPlain(g, a, trace + [c])
  {
    var longer := trace + [c];
    forall i {:trigger PlainAt(g, a, longer, i)} | 0 <= i < |longer| ensures PlainAt(g, a, longer, i) {
      if i < |trace| {
        assert PlainAt(g, a, trace, i);
      }
    }
  }

  lemma PlainStep(g: Graph, a: Attempt, trace: seq<Config>, i: nat)
    requires AllPlain(g, a, trace) && i < |trace| - 1
    ensures Step(g, a.limit, a.run, trace[i], trace[i + 1])
  {
    assert PlainAt(g, a, trace, i);
  }

  lemma {:induction false} RunIsDetermined(g: Graph, a: Attempt, before: Store, trace1: seq<Config>,
                                           trace2: seq<Config>, i: nat)
    requires IsPlainRun(g, a, before, trace1) && i < |trace1|
    requires IsPlainRun(g, a, before, trace2) && i < |trace2|
    ensures trace1[i] == trace2[i]
  {
    if i == 0 {
      StoredUnique(before, BundleArtifacts(a.bundle), trace1[0].store, trace2[0].store);
    } else {
      RunIsDetermined(g, a, before, trace1, trace2, i - 1);
      NextIsDetermined(g, a, trace1, trace2, i);
    }
  }

  lemma NextIsDetermined(g: Graph, a: Attempt, trace1: seq<Config>, trace2: seq<Config>, i: nat)
    requires AllPlain(g, a, trace1) && AllPlain(g, a, trace2) && 0 < i < |trace1| && i < |trace2|
    requires trace1[i - 1] == trace2[i - 1]
    ensures trace1[i] == trace2[i]
  {
    assert PlainAt(g, a, trace1, i - 1) && PlainAt(g, a, trace2, i - 1);
    StepIsDetermined(g, a, trace1[i - 1], trace1[i], trace2[i]);
  }

  lemma StepIsDetermined(g: Graph, a: Attempt, c: Config, c1: Config, c2: Config)
    requires Step(g, a.limit, a.run, c, c1) && Step(g, a.limit, a.run, c, c2)
    ensures c1 == c2
  {
    StoredUnique(c.store, ArtifactsOf(WaveResults(g, a.limit, a.run, c)), c1.store, c2.store);
  }

  /* ---------- retrying a wave ---------- */

  lemma SameResults(g: Graph, a: Attempt, s: State, store: Store, store': Store)
    requires Tracks(g, s) && Referenced(s, store) && Keeps(store, store')
    ensures WaveResults(g, a.limit, a.run, Config(s, store)) == WaveResults(g, a.limit, a.run, Config(s, store'))
  {
    SkipReferenced(g, s, store);
    forall n: Node ensures Delivered(g, SkipPass(g, s), store, n) == Delivered(g, SkipPass(g, s), store', n) {
      SameInputs(g, SkipPass(g, s), store, store', n);
    }
  }

  /** The disk is a state of the uninterrupted run plus some artifacts of the wave in flight. */
  ghost predicate Tracked(g: Graph, a: Attempt, c: Config, store: Store) {
    Tracks(g, c.st) && PartlyStored(c.store, ArtifactsOf(WaveResults(g, a.limit, a.run, c)), store)
  }

  lemma PartlyReflexive(store: Store, arts: set<Artifact>)
    ensures PartlyStored(store, arts, store)
  {
  }

  lemma PartlyTransitive(a: Store, arts: set<Artifact>, b: Store, c: Store)
    requires PartlyStored(a, arts, b) && PartlyStored(b, arts, c)
    ensures PartlyStored(a, arts, c)
  {
    forall id | id in c && id !in a ensures exists x :: x in arts && x.id == id && c[id] == x {
      if id in b {
        var x :| x in arts && x.id == id && b[id] == x;
      } else {
        var x :| x in arts && x.id == id && c[id] == x;
      }
    }
  }

  /** Retrying the wave on the leftovers of an interrupted attempt is the same step. */
  lemma RetryStep(g: Graph, a: Attempt, c: Config, store: Store, c': Config)
    requires Referenced(c.st, c.store) && Tracked(g, a, c, store)
    requires Step(g, a.limit, a.run, Config(c.st, store), c')
    ensures Step(g, a.limit, a.run, c, c')
  {
    SameResults(g, a, c.st, c.store, store);
    RetryStores(c.store, ArtifactsOf(WaveResults(g, a.limit, a.run, c)), store, c'.store);
  }

  lemma RetryTracked(g: Graph, a: Attempt, c: Config, store: Store, store': Store)
    requires Referenced(c.st, c.store) && Tracked(g, a, c, store)
    requires Tracked(g, a, Config(c.st, store), store')
    ensures Tracked(g, a, c, store')
  {
    SameResults(g, a, c.st, c.store, store);
    PartlyTransitive(c.store, ArtifactsOf(WaveResults(g, a.limit, a.run, c)), store, store');
  }

  /* ---------- disks on the track of one run ---------- */

  /** The uninterrupted run gets here. */
  ghost predicate Passes(g: Graph, a: Attempt, before: Store, c: Config) {
    exists trace :: IsPlainRun(g, a, before, trace) && LastOf(trace) == c
  }

  lemma PassesInit(g: Graph, a: Attempt, before: Store, c: Config)
    requires IsInit(g, a.bundle, before, c)
    ensures Passes(g, a, before, c)
  {
    var trace := [c];
    assert IsPlainRun(g, a, before, trace) && LastOf(trace) == c;
  }

  lemma PassesNext(g: Graph, a: Attempt, before: Store, c: Config, c': Config)
    requires Passes(g, a, before, c) && Step(g, a.limit, a.run, c, c')
    ensures Passes(g, a, before, c')
  {
    var trace :| IsPlainRun(g, a, before, trace) && LastOf(trace) == c;
    PlainExtend(g, a, trace, c');
    EndsWith(g, a, before, trace + [c'], c');
  }

  lemma EndsWith(g: Graph, a: Attempt, before: Store, trace: seq<Config>, c: Config)
    requires IsPlainRun(g, a, before, trace) && LastOf(trace) == c
    ensures Passes(g, a, before, c)
  {
  }

  lemma {:induction false} PlainReferenced(g: Graph, a: Attempt, before: Store, trace: seq<Config>, i: nat)
    requires Wired(g) && IsPlainRun(g, a, before, trace) && i < |trace|
    ensures Referenced(trace[i].st, trace[i].store)
  {
    if i == 0 {
      InitReferenced(g, a.bundle, before, trace[0]);
    } else {
      PlainReferenced(g, a, before, trace, i - 1);
      PlainNextReferenced(g, a, before, trace, i - 1);
    }
  }

  lemma PlainNextReferenced(g: Graph, a: Attempt, before: Store, trace: seq<Config>, i: nat)
    requires Wired(g) && IsPlainRun(g, a, before, trace) && i + 1 < |trace| && Referenced(trace[i].st, trace[i].store)
    ensures Referenced(trace[i + 1].st, trace[i + 1].store)
  {
    PlainFacts(g, a, before, trace, i);
    PlainStep(g, a, trace, i);
    StepReferenced(g, IdsOf(a.bundle), a, trace[i], trace[i + 1]);
  }

  lemma StepReferenced(g: Graph, initial: map<Slot, ArtifactId>, a: Attempt, c: Config, c': Config)
    requires Wired(g) && StateInv(g, initial, c.st) && Referenced(c.st, c.store) && Step(g, a.limit, a.run, c, c')
    ensures Referenced(c'.st, c'.store)
  {
    NextReferenced(g, initial, a.limit, a.run, c, c.store, c'.store);
  }

  lemma PassesProper(g: Graph, a: Attempt, before: Store, c: Config)
    requires Wired(g) && Passes(g, a, before, c)
    ensures Referenced(c.st, c.store) && StatusInv(g, c.st)
  {
    var trace :| IsPlainRun(g, a, before, trace) && LastOf(trace) == c;
    PlainReferenced(g, a, before, trace, |trace| - 1);
    PlainFacts(g, a, before, trace, |trace| - 1);
  }

  /** The disk stands at this state of the uninterrupted run, or still before its start. */
  ghost predicate StandsAt(g: Graph, task: TaskId, a: Attempt, before: Store, d: Disk, c: Config) {
    var store := TaskFiles(d.files, task);
    match d.checkpoint
    case None =>
      PartlyStored(before, BundleArtifacts(a.bundle), store) || (IsInit(g, a.bundle, before, c)
        && Tracked(g, a, c, store))
    case Some(s) =>
      Passes(g, a, before, c) && c.st == s && Tracked(g, a, c, store)
  }

  ghost predicate OnTrack(g: Graph, task: TaskId, a: Attempt, before: Store, d: Disk) {
    exists c :: StandsAt(g, task, a, before, d, c)
  }

  lemma BundleThere(bundle: map<Slot, Artifact>, before: Store, full: Store, store: Store, store': Store)
    requires Stored(before, BundleArtifacts(bundle), full) && forall id :: id in full ==> id in store
    requires PartlyStored(store, BundleArtifacts(bundle), store') || Stored(store, BundleArtifacts(bundle), store')
    ensures store' == store
  {
    assert forall a :: a in BundleArtifacts(bundle) ==> a.id in full;
    assert forall id :: id in store' ==> id in store;
  }

  /** A process boots into a state of the uninterrupted run. */
  lemma BootOnTrack(g: Graph, task: TaskId, a: Attempt, before: Store, d: Disk, s: State, files: Files)
    returns (u: Config)
    requires Wired(g) && OnTrack(g, task, a, before, d) && OwnAttempt(d, task, a)
    requires Boots(g, a.bundle, d, s, files)
    ensures Passes(g, a, before, u) && u.st == s && Tracked(g, a, u, TaskFiles(files, task))
    ensures d.checkpoint.None? ==> IsInit(g, a.bundle, before, u)
  {
    u :| StandsAt(g, task, a, before, d, u);
    if d.checkpoint.None? {
      InitProper(g, task, a.bundle, d.files, files);
      BundleIsOwn(d.files, task, a.bundle);
      PutsExtend(d.files, BundleArtifacts(a.bundle), files, task);
      if PartlyStored(before, BundleArtifacts(a.bundle), TaskFiles(d.files, task)) {
        u := At(s, files, task);
        RetryStores(before, BundleArtifacts(a.bundle), TaskFiles(d.files, task), u.store);
        WiredTracks(g, s);
        PartlyReflexive(u.store, ArtifactsOf(WaveResults(g, a.limit, a.run, u)));
      } else {
        BundleThere(a.bundle, before, u.store, TaskFiles(d.files, task), TaskFiles(files, task));
      }
      PassesInit(g, a, before, u);
    }
  }

  lemma StartOnTrack(g: Graph, task: TaskId, a: Attempt, before: Store, d: Disk, d': Disk)
    requires OnTrack(g, task, a, before, d) && OwnAttempt(d, task, a) && DiesStarting(a, d, d')
    ensures OnTrack(g, task, a, before, d')
  {
    var c :| StandsAt(g, task, a, before, d, c);
    var store, store' := TaskFiles(d.files, task), TaskFiles(d'.files, task);
    BundleIsOwn(d.files, task, a.bundle);
    PartlyExtends(d.files, BundleArtifacts(a.bundle), d'.files, task);
    if PartlyStored(before, BundleArtifacts(a.bundle), store) {
      PartlyTransitive(before, BundleArtifacts(a.bundle), store, store');
    } else {
      BundleThere(a.bundle, before, c.store, store, store');
    }
    assert StandsAt(g, task, a, before, d', c);
  }

  lemma CrashOnTrack(g: Graph, task: TaskId, a: Attempt, before: Store, d: Disk, d': Disk)
    requires Wired(g) && OnTrack(g, task, a, before, d) && OwnAttempt(d, task, a) && DiskInv(g, task, d)
    requires DiesInWave(g, task, a, d, d')
    ensures OnTrack(g, task, a, before, d')
  {
    var s, files :| Boots(g, a.bundle, d, s, files) && PutsSome(g, task, a, s, files, d')
                    && d'.checkpoint == d.checkpoint;
    var u := BootOnTrack(g, task, a, before, d, s, files);
    PassesProper(g, a, before, u);
    BootProper(g, task, a, d, s, files);
    WaveIsOwn(g, a.limit, a.run, At(s, files, task), files, task);
    PartlyExtends(files, WaveArtifacts(g, task, a, s, files), d'.files, task);
    RetryTracked(g, a, u, TaskFiles(files, task), TaskFiles(d'.files, task));
    assert StandsAt(g, task, a, before, d', u);
  }

  lemma SaveOnTrack(g: Graph, task: TaskId, a: Attempt, before: Store, d: Disk, d': Disk)
    requires Wired(g) && OnTrack(g, task, a, before, d) && OwnAttempt(d, task, a) && Saves(g, task, a, d, d')
    ensures OnTrack(g, task, a, before, d')
  {
    var s, files :| Boots(g, a.bundle, d, s, files) && Commits(g, task, a, s, files, d');
    var u := BootOnTrack(g, task, a, before, d, s, files);
    var c' := At(d'.checkpoint.value, d'.files, task);
    PassesProper(g, a, before, u);
    RetryStep(g, a, u, TaskFiles(files, task), c');
    PassesNext(g, a, before, u, c');
    PassesProper(g, a, before, c');
    WiredTracks(g, c'.st);
    PartlyReflexive(c'.store, ArtifactsOf(WaveResults(g, a.limit, a.run, c')));
    assert StandsAt(g, task, a, before, d', c');
  }

  lemma OthersOnTrack(g: Graph, task: TaskId, a: Attempt, before: Store, d: Disk, d': Disk)
    requires OnTrack(g, task, a, before, d) && OthersWrite(task, d, d')
    ensures OnTrack(g, task, a, before, d')
  {
    var c :| StandsAt(g, task, a, before, d, c);
    assert StandsAt(g, task, a, before, d', c);
  }

  lemma EmptyOnTrack(g: Graph, task: TaskId, a: Attempt, d: Disk)
    requires d.checkpoint.None?
    ensures OnTrack(g, task, a, TaskFiles(d.files, task), d)
  {
    PartlyReflexive(TaskFiles(d.files, task), BundleArtifacts(a.bundle));
    var c: Config :| true;
    assert StandsAt(g, task, a, TaskFiles(d.files, task), d, c);
  }

  /** Alike in all but what the clock says. */
  ghost predicate Alike(a: Attempt, b: Attempt) {
    a.limit == b.limit && a.run == b.run && a.bundle == b.bundle
  }

  ghost predicate AllAre(attempts: seq<Attempt>, a: Attempt) {
    forall i :: 0 <= i < |attempts| ==> Alike(attempts[i], a)
  }

  lemma AlikeSteps(g: Graph, task: TaskId, a: Attempt, b: Attempt, d: Disk, d': Disk)
    requires Alike(b, a) && OwnAttempt(d, task, b) && DiskStep(g, task, b, d, d')
    ensures OwnAttempt(d, task, a) && DiskStep(g, task, a, d, d')
  {
    if Saves(g, task, b, d, d') {
      var s, files :| Boots(g, b.bundle, d, s, files) && Commits(g, task, b, s, files, d');
      assert Commits(g, task, a, s, files, d');
    } else if DiesInWave(g, task, b, d, d') {
      var s, files :| Boots(g, b.bundle, d, s, files) && PutsSome(g, task, b, s, files, d')
                      && d'.checkpoint == d.checkpoint;
      assert PutsSome(g, task, a, s, files, d');
    }
  }

  ghost predicate TrackAt(g: Graph, task: TaskId, a: Attempt, disks: seq<Disk>, i: nat)
    requires i < |disks|
  {
    OnTrack(g, task, a, TaskFiles(disks[0].files, task), disks[i])
  }

  lemma FirstOnTrack(g: Graph, task: TaskId, a: Attempt, attempts: seq<Attempt>, disks: seq<Disk>)
    requires IsDiskRun(g, task, attempts, disks)
    ensures TrackAt(g, task, a, disks, 0)
  {
    EmptyOnTrack(g, task, a, disks[0]);
  }

  /** If all processes are alike, the disk is always a state of their uninterrupted run plus some artifacts
      of the wave in flight. */
  lemma {:induction false} DisksOnTrack(g: Graph, task: TaskId, a: Attempt, attempts: seq<Attempt>, disks: seq<Disk>,
                                        i: nat)
    requires Wired(g) && IsDiskRun(g, task, attempts, disks) && AllAre(attempts, a) && i <= |attempts|
    ensures TrackAt(g, task, a, disks, i)
  {
    if i == 0 {
      FirstOnTrack(g, task, a, attempts, disks);
    } else {
      DisksOnTrack(g, task, a, attempts, disks, i - 1);
      NextOnTrack(g, task, a, attempts, disks, i - 1);
    }
  }

  lemma NextOnTrack(g: Graph, task: TaskId, a: Attempt, attempts: seq<Attempt>, disks: seq<Disk>, i: nat)
    requires Wired(g) && IsDiskRun(g, task, attempts, disks) && AllAre(attempts, a)
    requires i < |attempts| && TrackAt(g, task, a, disks, i)
    ensures TrackAt(g, task, a, disks, i + 1)
  {
    var d, d' := disks[i], disks[i + 1];
    DisksProper(g, task, attempts, disks, i);
    AlikeStepAt(g, task, a, attempts, disks, i);
    StepOnTrack(g, task, a, TaskFiles(disks[0].files, task), d, d');
  }

  lemma AlikeStepAt(g: Graph, task: TaskId, a: Attempt, attempts: seq<Attempt>, disks: seq<Disk>, i: nat)
    requires IsDiskRun(g, task, attempts, disks) && AllAre(attempts, a) && i < |attempts|
    ensures OwnAttempt(disks[i], task, a) && DiskStep(g, task, a, disks[i], disks[i + 1])
  {
    DiskStepAt(g, task, attempts, disks, i);
    AlikeSteps(g, task, a, attempts[i], disks[i], disks[i + 1]);
  }

  lemma StepOnTrack(g: Graph, task: TaskId, a: Attempt, before: Store, d: Disk, d': Disk)
    requires Wired(g) && OnTrack(g, task, a, before, d) && OwnAttempt(d, task, a) && DiskInv(g, task, d)
    requires DiskStep(g, task, a, d, d')
    ensures OnTrack(g, task, a, before, d')
  {
    if DiesStarting(a, d, d') {
      StartOnTrack(g, task, a, before, d, d');
    } else if DiesInWave(g, task, a, d, d') {
      CrashOnTrack(g, task, a, before, d, d');
    } else if Saves(g, task, a, d, d') {
      SaveOnTrack(g, task, a, before, d, d');
    } else {
      OthersOnTrack(g, task, a, before, d, d');
    }
  }

  /* ---------- the resumed run ends like the uninterrupted one ---------- */

  lemma CheckpointPassed(g: Graph, task: TaskId, a: Attempt, attempts: seq<Attempt>, disks: seq<Disk>, i: nat)
    returns (trace: seq<Config>)
    requires Wired(g) && IsDiskRun(g, task, attempts, disks) && AllAre(attempts, a) && i <= |attempts|
    requires disks[i].checkpoint.Some?
    ensures IsPlainRun(g, a, TaskFiles(disks[0].files, task), trace) && LastOf(trace).st == disks[i].checkpoint.value
  {
    DisksOnTrack(g, task, a, attempts, disks, i);
    var c :| StandsAt(g, task, a, TaskFiles(disks[0].files, task), disks[i], c);
    trace :| IsPlainRun(g, a, TaskFiles(disks[0].files, task), trace) && LastOf(trace) == c;
  }

  /** However often the processes die, each checkpoint is the state that the uninterrupted run has
      after as many waves. */
  lemma CheckpointsAreUninterrupted(g: Graph, task: TaskId, a: Attempt, attempts: seq<Attempt>, disks: seq<Disk>,
                                    i: nat, trace: seq<Config>)
    requires Wired(g) && IsDiskRun(g, task, attempts, disks) && AllAre(attempts, a) && i <= |attempts|
    requires IsPlainRun(g, a, TaskFiles(disks[0].files, task), trace)
    requires disks[i].checkpoint.Some? && disks[i].checkpoint.value.checkpointCount < |trace|
    ensures disks[i].checkpoint.value == trace[disks[i].checkpoint.value.checkpointCount].st
  {
    var before := TaskFiles(disks[0].files, task);
    var other := CheckpointPassed(g, task, a, attempts, disks, i);
    PlainFacts(g, a, before, other, |other| - 1);
    RunIsDetermined(g, a, before, trace, other, |other| - 1);
  }

  /** In particular, once the loop is over on the resumed side and on the uninterrupted one, frozen or
      in a deadlock, both are in the very same state, statuses and outputs included. */
  lemma ResumedEndsAlike(g: Graph, task: TaskId, a: Attempt, attempts: seq<Attempt>, disks: seq<Disk>, i: nat,
                         trace: seq<Config>)
    requires Wired(g) && IsDiskRun(g, task, attempts, disks) && AllAre(attempts, a) && i <= |attempts|
    requires IsPlainRun(g, a, TaskFiles(disks[0].files, task), trace) && Ended(g, a.limit, LastOf(trace).st)
    requires disks[i].checkpoint.Some? && Ended(g, a.limit, disks[i].checkpoint.value)
    ensures disks[i].checkpoint.value == LastOf(trace).st
  {
    var before := TaskFiles(disks[0].files, task);
    var other := CheckpointPassed(g, task, a, attempts, disks, i);
    EndIsLast(g, a, before, trace, other);
    EndIsLast(g, a, before, other, trace);
    RunIsDetermined(g, a, before, trace, other, |trace| - 1);
  }

  /** No run goes on once the loop is over. */
  lemma EndIsLast(g: Graph, a: Attempt, before: Store, trace1: seq<Config>, trace2: seq<Config>)
    requires IsPlainRun(g, a, before, trace1) && Ended(g, a.limit, LastOf(trace1).st)
    requires IsPlainRun(g, a, before, trace2)
    ensures |trace2| <= |trace1|
  {
    if |trace1| < |trace2| {
      RunIsDetermined(g, a, before, trace1, trace2, |trace1| - 1);
      NotEndedYet(g, a, trace2, |trace1| - 1);
    }
  }

  lemma NotEndedYet(g: Graph, a: Attempt, trace: seq<Config>, i: nat)
    requires AllPlain(g, a, trace) && i + 1 < |trace|
    ensures !Ended(g, a.limit, trace[i].st)
  {
    assert PlainAt(g, a, trace, i);
  }
}
