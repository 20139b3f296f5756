/** What crashes and resumes leave intact: the checkpoint agrees with the meaning of the graph, and its
    artifacts have a proper origin, wherever processes die and under whatever limits they work. */
module Recovery {
  import opened Types
  import opened Stores
  import opened Runs
  import opened Progress
  import opened Endings
  import opened Meaning
  import opened Independence
  import opened Resume
  import opened Provenance

  /* ---------- origin of the artifacts ---------- */

  ghost predicate AttemptsComply(may: Behaviour, attempts: seq<Attempt>) {
    forall a :: 0 <= a < |attempts| ==> Complies(may, attempts[a].run)
  }

  lemma ServedComply(may: Behaviour, attempts: seq<Attempt>, i: nat, turns: seq<Turn>)
    requires AttemptsComply(may, attempts) && ServedBy(attempts, i, turns)
    ensures AllComply(may, turns)
  {
    forall j | 0 <= j < |turns| ensures Complies(may, turns[j].run) {
      assert Served(attempts, i, turns[j]);
    }
  }

  ghost predicate Originates(g: Graph, task: TaskId, may: Behaviour, bundle: map<Slot, Artifact>, files: Files,
                             s: State)
  {
    StateInv(g, IdsOf(bundle), s) && ProvInv(g, may, bundle, s, TaskFiles(files, task))
  }

  lemma LedOriginates(g: Graph, task: TaskId, may: Behaviour, attempts: seq<Attempt>, i: nat, d: Disk,
                      bundle: map<Slot, Artifact>, turns: seq<Turn>, trace: seq<Config>)
    requires Wired(g) && AttemptsComply(may, attempts) && LeadsTo(g, task, attempts, i, d, bundle, turns, trace)
    ensures Originates(g, task, may, bundle, d.files, d.checkpoint.value)
  {
    var before :| IsInit(g, bundle, before, trace[0]);
    var last := trace[|turns|];
    InitProv(g, may, bundle, before, trace[0]);
    ServedComply(may, attempts, i, turns);
    RunProv(g, may, bundle, turns, trace, |turns|);
    RunInv(g, IdsOf(bundle), turns, trace, |turns|);
    KeepsProv(g, may, bundle, last.st, last.store, TaskFiles(d.files, task));
  }

  /** The outputs that the last checkpoint names were made by its nodes' executors from artifacts with a
      proper source, the first of which is the bundle of one of the processes. Typed delivery, lineage
      and the exclusion of branches follow for it as for any state of a run. */
  lemma CheckpointOriginates(g: Graph, task: TaskId, may: Behaviour, attempts: seq<Attempt>, disks: seq<Disk>, i: nat)
    requires Wired(g) && AttemptsComply(may, attempts) && IsDiskRun(g, task, attempts, disks)
    requires i <= |attempts| && disks[i].checkpoint.Some?
    ensures exists bundle :: Given(attempts, i, bundle)
                             && Originates(g, task, may, bundle, disks[i].files, disks[i].checkpoint.value)
  {
    CheckpointIsReached(g, task, attempts, disks, i);
    var bundle, turns, trace :| LeadsTo(g, task, attempts, i, disks[i], bundle, turns, trace);
    LedOriginates(g, task, may, attempts, i, disks[i], bundle, turns, trace);
  }

  /* ---------- what the processes deliver ---------- */

  ghost predicate AttemptsFill(g: Graph, attempts: seq<Attempt>) {
    forall a :: 0 <= a < |attempts| ==> FillsEdges(g, attempts[a].run)
  }

  ghost predicate AttemptsDeliver(g: Graph, attempts: seq<Attempt>) {
    forall a :: 0 <= a < |attempts| ==> DeliversFinal(g, attempts[a].run)
  }

  ghost predicate AttemptsSucceed(attempts: seq<Attempt>) {
    forall a, n, ins :: 0 <= a < |attempts| ==> attempts[a].run(n, ins).Success?
  }

  ghost predicate AttemptsSupply(g: Graph, attempts: seq<Attempt>) {
    forall a :: 0 <= a < |attempts| ==> Supplied(g, IdsOf(attempts[a].bundle))
  }

  lemma ServedFill(g: Graph, attempts: seq<Attempt>, i: nat, turns: seq<Turn>)
    requires ServedBy(attempts, i, turns)
    ensures AttemptsFill(g, attempts) ==> AllFill(g, turns)
    ensures AttemptsDeliver(g, attempts) ==> AllDeliver(g, turns)
    ensures AttemptsSucceed(attempts) ==> AllSucceeding(turns)
  {
    forall t | t in turns ensures exists a :: 0 <= a < |attempts| && t.run == attempts[a].run {
      var j :| 0 <= j < |turns| && turns[j] == t;
      assert Served(attempts, i, turns[j]);
    }
  }

  lemma FreshIsFilled(g: Graph, bundle: map<Slot, Artifact>, c: Config)
    requires FreshStart(g, bundle, c)
    ensures AllFilled(g, c.st) && AllFinal(g, c.st) && NoneLost(c.st) && c.st.checkpointCount == 0
  {
  }

  lemma LedFilled(g: Graph, task: TaskId, attempts: seq<Attempt>, i: nat, d: Disk, bundle: map<Slot, Artifact>,
                  turns: seq<Turn>, trace: seq<Config>)
    requires Wired(g) && LeadsTo(g, task, attempts, i, d, bundle, turns, trace)
    ensures AttemptsFill(g, attempts) ==> AllFilled(g, d.checkpoint.value)
    ensures AttemptsDeliver(g, attempts) ==> AllFinal(g, d.checkpoint.value)
  {
    ServedFill(g, attempts, i, turns);
    FreshIsFilled(g, bundle, trace[0]);
    RunFilled(g, IdsOf(bundle), turns, trace, |turns|);
  }

  lemma LedLosesNone(g: Graph, task: TaskId, attempts: seq<Attempt>, i: nat, d: Disk, bundle: map<Slot, Artifact>,
                     turns: seq<Turn>, trace: seq<Config>)
    requires Wired(g) && Unconditional(g) && AttemptsSucceed(attempts)
    requires LeadsTo(g, task, attempts, i, d, bundle, turns, trace)
    ensures NoneLost(d.checkpoint.value)
  {
    ServedFill(g, attempts, i, turns);
    FreshIsFilled(g, bundle, trace[0]);
    RunLosesNone(g, IdsOf(bundle), turns, trace, |turns|);
  }

  lemma LedSupplied(g: Graph, task: TaskId, attempts: seq<Attempt>, i: nat, d: Disk, bundle: map<Slot, Artifact>,
                    turns: seq<Turn>, trace: seq<Config>)
    requires Wired(g) && AttemptsSupply(g, attempts) && LeadsTo(g, task, attempts, i, d, bundle, turns, trace)
    ensures Supplied(g, d.checkpoint.value.initial)
  {
    RunInv(g, IdsOf(bundle), turns, trace, |turns|);
  }

  /** What the executors of all processes do, whichever of them ran, shows in the checkpoint. */
  lemma CheckpointFilled(g: Graph, task: TaskId, attempts: seq<Attempt>, disks: seq<Disk>, i: nat)
    requires Wired(g) && IsDiskRun(g, task, attempts, disks) && i <= |attempts| && disks[i].checkpoint.Some?
    ensures AttemptsFill(g, attempts) ==> AllFilled(g, disks[i].checkpoint.value)
    ensures AttemptsDeliver(g, attempts) ==> AllFinal(g, disks[i].checkpoint.value)
    ensures AttemptsSucceed(attempts) && Unconditional(g) ==> NoneLost(disks[i].checkpoint.value)
    ensures AttemptsSupply(g, attempts) ==> Supplied(g, disks[i].checkpoint.value.initial)
  {
    CheckpointIsReached(g, task, attempts, disks, i);
    var bundle, turns, trace :| LeadsTo(g, task, attempts, i, disks[i], bundle, turns, trace);
    LedFilled(g, task, attempts, i, disks[i], bundle, turns, trace);
    if AttemptsSucceed(attempts) && Unconditional(g) {
      LedLosesNone(g, task, attempts, i, disks[i], bundle, turns, trace);
    }
    if AttemptsSupply(g, attempts) {
      LedSupplied(g, task, attempts, i, disks[i], bundle, turns, trace);
    }
  }

  /* ---------- the wave bound ---------- */

  ghost predicate AttemptsLimited(attempts: seq<Attempt>, k: int) {
    forall a :: 0 <= a < |attempts| ==> attempts[a].limit == k
  }

  lemma ServedLimit(attempts: seq<Attempt>, i: nat, turns: seq<Turn>, k: int)
    requires AttemptsLimited(attempts, k) && ServedBy(attempts, i, turns)
    ensures SameLimit(turns, k)
  {
    forall j | 0 <= j < |turns| ensures turns[j].limit == k {
      assert Served(attempts, i, turns[j]);
    }
  }

  lemma LedCount(g: Graph, task: TaskId, attempts: seq<Attempt>, i: nat, d: Disk, bundle: map<Slot, Artifact>,
                 turns: seq<Turn>, trace: seq<Config>)
    requires Wired(g) && LeadsTo(g, task, attempts, i, d, bundle, turns, trace)
    ensures d.checkpoint.value.checkpointCount == |turns|
  {
    FreshIsFilled(g, bundle, trace[0]);
    WavesAreFinite(g, IdsOf(bundle), turns, trace, |turns|);
  }

  lemma LedBound(g: Graph, waves: seq<seq<NodeId>>, task: TaskId, attempts: seq<Attempt>, i: nat, d: Disk,
                 bundle: map<Slot, Artifact>, turns: seq<Turn>, trace: seq<Config>, k: int)
    requires Wired(g) && Placed(g, waves) && Increases(g, Levels(g, waves)) && k >= 1
    requires AttemptsFill(g, attempts) && AttemptsSupply(g, attempts) && AttemptsLimited(attempts, k)
    requires LeadsTo(g, task, attempts, i, d, bundle, turns, trace)
    ensures |turns| <= |Ids(g)| / k + |waves|
  {
    ServedFill(g, attempts, i, turns);
    ServedLimit(attempts, i, turns, k);
    FreshIsFilled(g, bundle, trace[0]);
    WaveBound(g, waves, IdsOf(bundle), k, turns, trace);
  }

  /** However often processes die, under one limit no more waves are saved in all than the bound for an
      uninterrupted run. */
  lemma SavedWaveBound(g: Graph, waves: seq<seq<NodeId>>, task: TaskId, attempts: seq<Attempt>, disks: seq<Disk>,
                       i: nat, k: int)
    requires Wired(g) && Placed(g, waves) && Increases(g, Levels(g, waves)) && k >= 1
    requires AttemptsFill(g, attempts) && AttemptsSupply(g, attempts) && AttemptsLimited(attempts, k)
    requires IsDiskRun(g, task, attempts, disks) && i <= |attempts| && disks[i].checkpoint.Some?
    ensures disks[i].checkpoint.value.checkpointCount <= |Ids(g)| / k + |waves|
  {
    CheckpointIsReached(g, task, attempts, disks, i);
    var bundle, turns, trace :| LeadsTo(g, task, attempts, i, disks[i], bundle, turns, trace);
    LedCount(g, task, attempts, i, disks[i], bundle, turns, trace);
    LedBound(g, waves, task, attempts, i, disks[i], bundle, turns, trace, k);
  }

  /* ---------- agreement with the meaning ---------- */

  /** All processes have executors that do what those of the reference do, up to likeness, and like
      bundles. Their limits, and the ids they give to artifacts, may differ. */
  ghost predicate AttemptsLike(ref: Reference, attempts: seq<Attempt>) {
    forall a :: 0 <= a < |attempts| ==> LikeAttempt(ref, attempts[a])
  }

  ghost predicate LikeAttempt(ref: Reference, a: Attempt) {
    Congruent(ref.like, ref.run, a.run) && LikeSlots(ref.like, ref.bundle, a.bundle)
  }

  ghost predicate CheckpointAgrees(g: Graph, ref: Reference, task: TaskId, d: Disk)
    requires Increases(g, ref.level)
  {
    && d.checkpoint.Some?
    && StateInv(g, d.checkpoint.value.initial, d.checkpoint.value)
    && Agrees(g, ref, d.checkpoint.value, TaskFiles(d.files, task))
  }

  lemma LedAgrees(g: Graph, ref: Reference, task: TaskId, attempts: seq<Attempt>, i: nat, d: Disk,
                  bundle: map<Slot, Artifact>, turns: seq<Turn>, trace: seq<Config>)
    requires Decisive(g, ref) && RunLike(ref, turns) && LikeSlots(ref.like, ref.bundle, bundle)
    requires LeadsTo(g, task, attempts, i, d, bundle, turns, trace)
    ensures CheckpointAgrees(g, ref, task, d)
  {
    var before :| IsInit(g, bundle, before, trace[0]);
    var last := trace[|turns|];
    InitAgrees(g, ref, bundle, before, trace[0]);
    RunAgrees(g, ref, IdsOf(bundle), turns, trace, |turns|);
    RunInv(g, IdsOf(bundle), turns, trace, |turns|);
    KeepsAgrees(g, ref, last.st, last.store, TaskFiles(d.files, task));
  }

  lemma ServedLike(ref: Reference, attempts: seq<Attempt>, i: nat, turns: seq<Turn>, given: map<Slot, Artifact>)
    requires AttemptsLike(ref, attempts) && ServedBy(attempts, i, turns) && Given(attempts, i, given)
    ensures RunLike(ref, turns) && LikeSlots(ref.like, ref.bundle, given)
  {
    forall j | 0 <= j < |turns| ensures Congruent(ref.like, ref.run, turns[j].run) {
      assert Served(attempts, i, turns[j]);
      var a :| 0 <= a < i && a < |attempts| && turns[j].run == attempts[a].run;
      assert LikeAttempt(ref, attempts[a]);
    }
    var a :| 0 <= a < i && a < |attempts| && attempts[a].bundle == given;
    assert LikeAttempt(ref, attempts[a]);
  }

  /** After any crashes and resumes, under any limits and with fresh ids at every retry, every settled node
      of the last checkpoint has the status that the meaning of the graph gives it, and like artifacts. */
  lemma RecoveredAgrees(g: Graph, ref: Reference, task: TaskId, attempts: seq<Attempt>, disks: seq<Disk>, i: nat)
    requires Decisive(g, ref) && AttemptsLike(ref, attempts)
    requires IsDiskRun(g, task, attempts, disks) && i <= |attempts| && disks[i].checkpoint.Some?
    ensures CheckpointAgrees(g, ref, task, disks[i])
  {
    CheckpointIsReached(g, task, attempts, disks, i);
    var given, turns, trace :| LeadsTo(g, task, attempts, i, disks[i], given, turns, trace);
    ServedLike(ref, attempts, i, turns, given);
    LedAgrees(g, ref, task, attempts, i, disks[i], given, turns, trace);
  }

  /** Two histories of crashes and resumes never disagree on a node both have settled, up to likeness of
      its outputs. */
  lemma RecoveriesAgree(g: Graph, ref: Reference, task1: TaskId, d1: Disk, task2: TaskId, d2: Disk, id: NodeId)
    requires Increases(g, ref.level) && IsLikeness(ref.like)
    requires CheckpointAgrees(g, ref, task1, d1) && CheckpointAgrees(g, ref, task2, d2)
    requires id in d1.checkpoint.value.status && id in d2.checkpoint.value.status
    requires Terminal(d1.checkpoint.value.status[id]) && Terminal(d2.checkpoint.value.status[id])
    ensures SameVerdict(ref.like, d1.checkpoint.value, TaskFiles(d1.files, task1),
                        d2.checkpoint.value, TaskFiles(d2.files, task2), id)
  {
    StatesAgree(g, ref, d1.checkpoint.value, TaskFiles(d1.files, task1),
                d2.checkpoint.value, TaskFiles(d2.files, task2), id);
  }

  /** If at most one node is live for the final slot they freeze like artifacts. */
  lemma RecoveriesFreezeAlike(g: Graph, ref: Reference, task1: TaskId, d1: Disk, task2: TaskId, d2: Disk)
    requires Increases(g, ref.level) && IsLikeness(ref.like) && OneLive(g, ref)
    requires CheckpointAgrees(g, ref, task1, d1) && CheckpointAgrees(g, ref, task2, d2)
    requires d1.checkpoint.value.frozen && d2.checkpoint.value.frozen
    ensures LikeFinal(ref.like, d1.checkpoint.value, TaskFiles(d1.files, task1),
                      d2.checkpoint.value, TaskFiles(d2.files, task2))
  {
    FrozenAlike(g, ref, d1.checkpoint.value.initial, d1.checkpoint.value, TaskFiles(d1.files, task1),
                d2.checkpoint.value.initial, d2.checkpoint.value, TaskFiles(d2.files, task2));
  }

  /** A checkpoint on which the loop is over is frozen exactly if some node is live for the final slot. */
  lemma RecoveryEndsAsMeant(g: Graph, ref: Reference, task: TaskId, attempts: seq<Attempt>, disks: seq<Disk>, i: nat,
                            k: int)
    requires Decisive(g, ref) && AttemptsLike(ref, attempts) && k >= 1
    requires AttemptsFill(g, attempts) && AttemptsSupply(g, attempts)
    requires IsDiskRun(g, task, attempts, disks) && i <= |attempts| && disks[i].checkpoint.Some?
    requires Ended(g, k, disks[i].checkpoint.value)
    ensures disks[i].checkpoint.value.frozen <==> exists p :: LiveFinal(g, ref, p)
    ensures Deadlocks(g, k, disks[i].checkpoint.value) <==> !exists p :: LiveFinal(g, ref, p)
  {
    var s := disks[i].checkpoint.value;
    RecoveredAgrees(g, ref, task, attempts, disks, i);
    CheckpointFilled(g, task, attempts, disks, i);
    FreezesIffLive(g, ref, s.initial, k, s, TaskFiles(disks[i].files, task));
  }
}
