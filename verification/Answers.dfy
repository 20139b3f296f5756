/** What whole calls come to, fresh or resumed, whatever happened before them: where their artifacts come
    from, when they return, and what their answer says of the graph. */
module Answers {
  import opened Types
  import opened Scheduling
  import opened Stores
  import opened Committing
  import opened Runs
  import opened Progress
  import opened Endings
  import opened Meaning
  import opened Independence
  import opened Resume
  import opened Provenance
  import opened Guarantees
  import opened Recovery
  import opened Launching
  import opened Execution
  import opened Calls
  import Compiler

  /* ---------- where the artifacts of a call come from ---------- */

  ghost predicate AllComplying(may: Behaviour, who: Attempt -> bool) {
    forall a :: who(a) ==> Complies(may, a.run)
  }

  lemma LeftOriginates(g: Graph, task: TaskId, may: Behaviour, who: Attempt -> bool, d: Disk)
    requires Wired(g) && Left(g, task, who, d) && AllComplying(may, who) && d.checkpoint.Some?
    ensures exists b :: who(b) && Originates(g, task, may, b.bundle, d.files, d.checkpoint.value)
  {
    var attempts: seq<Attempt>, disks: seq<Disk> :| LeftBy(g, task, who, attempts, disks, d);
    CheckpointOriginates(g, task, may, attempts, disks, |attempts|);
    var bundle :| Given(attempts, |attempts|, bundle)
                  && Originates(g, task, may, bundle, d.files, d.checkpoint.value);
    var i: nat :| i < |attempts| && attempts[i].bundle == bundle;
    assert who(attempts[i]);
  }

  /** These stages are a run that started from this process's bundle, in which every output is made
      properly. */
  ghost predicate MadeFromBundle(g: Graph, may: Behaviour, a: Attempt, stages: seq<Stage>, b: Attempt)
    requires |stages| >= 1
  {
    IsMadeRun(g, may, b.bundle, TurnsOf(a, stages), Tops(stages))
  }

  lemma FreshIsMade(g: Graph, may: Behaviour, a: Attempt, d: Disk, stages: seq<Stage>)
    requires Wired(g) && Enters(g, a, d, stages) && d.checkpoint.None? && Complies(may, a.run)
    ensures MadeFromBundle(g, may, a, stages, a)
  {
    var task := stages[0].record.task;
    StagesAreRun(g, a, stages);
    InitProper(g, task, a.bundle, d.files, stages[0].files);
    InitProv(g, may, a.bundle, TaskFiles(d.files, task), stages[0].Top());
  }

  lemma ResumedIsMade(g: Graph, may: Behaviour, a: Attempt, d: Disk, stages: seq<Stage>, b: Attempt)
    requires Wired(g) && Enters(g, a, d, stages) && d.checkpoint.Some? && Complies(may, a.run)
    requires Originates(g, stages[0].record.task, may, b.bundle, d.files, d.checkpoint.value)
    ensures MadeFromBundle(g, may, a, stages, b)
  {
    StagesAreRun(g, a, stages);
  }

  /** The waves of any call, fresh or resumed, are a run in which every output is made properly, and which
      started from the bundle of one of the processes. */
  lemma CallIsMade(g: Graph, may: Behaviour, who: Attempt -> bool, a: Attempt, c: Call)
    requires Wired(g) && Happens(g, who, a, c) && Looped(c) && AllComplying(may, who)
    ensures exists b :: who(b) && MadeFromBundle(g, may, a, c.stages, b)
  {
    CallEnters(g, a, c);
    if Found(c).checkpoint.None? {
      FreshIsMade(g, may, a, Found(c), c.stages);
    } else {
      LeftOriginates(g, c.ctx.task, may, who, Found(c));
      var b :| who(b) && Originates(g, c.ctx.task, may, b.bundle, Found(c).files, Found(c).checkpoint.value);
      ResumedIsMade(g, may, a, Found(c), c.stages, b);
    }
  }

  lemma StageIsTyped(g: Graph, may: Behaviour, a: Attempt, stages: seq<Stage>, b: Attempt, i: nat, n: Node, slot: Slot)
    requires Wired(g) && TypedEdges(g) && TypedExecutors(g, may) && TypedBundle(g, b.bundle)
    requires |stages| >= 1 && MadeFromBundle(g, may, a, stages, b) && i < |stages|
    requires n in g.nodes && slot in n.inputs && ResolvedId(g, stages[i].Top().st, n.id, slot).Some?
    ensures DeliversTyped(g, stages[i].Top().st, stages[i].Top().store, n, slot)
  {
    RunInv(g, IdsOf(b.bundle), TurnsOf(a, stages), Tops(stages), i);
    RunProv(g, may, b.bundle, TurnsOf(a, stages), Tops(stages), i);
    TypedHere(g, may, b.bundle, stages[i].Top().st, stages[i].Top().store, n, slot);
  }

  /** So at the top of the loop, fresh or resumed, what a slot resolves to has the slot's type, exactly
      unless the slot has the name of an initial slot of another type. */
  lemma CallDeliversTyped(g: Graph, may: Behaviour, who: Attempt -> bool, a: Attempt, c: Call, i: nat, n: Node,
                          slot: Slot)
    requires Wired(g) && Happens(g, who, a, c) && Looped(c) && AllComplying(may, who) && i < |c.stages|
    requires TypedEdges(g) && TypedExecutors(g, may) && forall b :: who(b) ==> TypedBundle(g, b.bundle)
    requires n in g.nodes && slot in n.inputs && ResolvedId(g, c.stages[i].Top().st, n.id, slot).Some?
    ensures DeliversTyped(g, c.stages[i].Top().st, c.stages[i].Top().store, n, slot)
  {
    CallIsMade(g, may, who, a, c);
    var b :| who(b) && MadeFromBundle(g, may, a, c.stages, b);
    StageIsTyped(g, may, a, c.stages, b, i, n, slot);
  }

  /* ---------- what the processes provide ---------- */

  /** These processes fill the edges and supply the initial slots. */
  ghost predicate AllProvide(g: Graph, who: Attempt -> bool) {
    forall a :: who(a) ==> FillsEdges(g, a.run) && Supplied(g, IdsOf(a.bundle))
  }

  /** They deliver the final slot where it is declared. */
  ghost predicate AllFinish(g: Graph, who: Attempt -> bool) {
    forall a :: who(a) ==> DeliversFinal(g, a.run)
  }

  ghost predicate AllSucceed(who: Attempt -> bool) {
    forall a, n, ins :: who(a) ==> a.run(n, ins).Success?
  }

  lemma FreshProvides(g: Graph, bundle: map<Slot, Artifact>)
    ensures var s := InitState(g, bundle); AllFilled(g, s) && AllFinal(g, s) && NoneLost(s)
  {
  }

  lemma LeftProvides(g: Graph, task: TaskId, who: Attempt -> bool, d: Disk)
    requires Wired(g) && Left(g, task, who, d) && d.checkpoint.Some?
    ensures var s := d.checkpoint.value;
      && (AllProvide(g, who) ==> AllFilled(g, s) && Supplied(g, s.initial))
      && (AllFinish(g, who) ==> AllFinal(g, s))
      && (AllSucceed(who) && Unconditional(g) ==> NoneLost(s))
  {
    var attempts, disks :| LeftBy(g, task, who, attempts, disks, d);
    CheckpointFilled(g, task, attempts, disks, |attempts|);
  }

  /** What the call starts from. */
  lemma FirstProvides(g: Graph, who: Attempt -> bool, a: Attempt, c: Call)
    requires Wired(g) && Happens(g, who, a, c) && Looped(c)
    ensures var s := c.stages[0].record.state;
      && (AllProvide(g, who) ==> AllFilled(g, s) && Supplied(g, s.initial))
      && (AllFinish(g, who) ==> AllFinal(g, s))
      && (AllSucceed(who) && Unconditional(g) ==> NoneLost(s))
  {
    CallEnters(g, a, c);
    if Found(c).checkpoint.None? {
      FreshProvides(g, a.bundle);
    } else {
      LeftProvides(g, c.ctx.task, who, Found(c));
    }
  }

  lemma StagesProvide(g: Graph, a: Attempt, stages: seq<Stage>)
    requires Wired(g) && Stages(g, a, stages)
    ensures var s, s' := stages[0].record.state, Last(stages).record.state;
      && StateInv(g, s.initial, s')
      && (FillsEdges(g, a.run) && AllFilled(g, s) ==> AllFilled(g, s'))
      && (DeliversFinal(g, a.run) && AllFinal(g, s) ==> AllFinal(g, s'))
  {
    var s, s' := stages[0].record.state, Last(stages).record.state;
    StagesAreRun(g, a, stages);
    AllTurns(g, a, stages);
    RunProvides(g, s.initial, TurnsOf(a, stages), Tops(stages), s, s');
  }

  lemma RunProvides(g: Graph, initial: map<Slot, ArtifactId>, turns: seq<Turn>, trace: seq<Config>, s: State, s': State)
    requires Wired(g) && IsRun(g, initial, turns, trace) && s == trace[0].st && s' == trace[|turns|].st
    ensures StateInv(g, initial, s')
    ensures AllFill(g, turns) && AllFilled(g, s) ==> AllFilled(g, s')
    ensures AllDeliver(g, turns) && AllFinal(g, s) ==> AllFinal(g, s')
  {
    RunFilled(g, initial, turns, trace, |turns|);
    RunInv(g, initial, turns, trace, |turns|);
  }

  lemma AllTurns(g: Graph, a: Attempt, stages: seq<Stage>)
    requires |stages| >= 1
    ensures FillsEdges(g, a.run) ==> AllFill(g, TurnsOf(a, stages))
    ensures DeliversFinal(g, a.run) ==> AllDeliver(g, TurnsOf(a, stages))
  {
  }

  /** The state is proper, its edges are filled and its initial slots supplied. */
  ghost predicate Provided(g: Graph, s: State) {
    StateInv(g, s.initial, s) && AllFilled(g, s) && Supplied(g, s.initial)
  }

  /** What it ends with. */
  lemma LastProvides(g: Graph, who: Attempt -> bool, a: Attempt, c: Call)
    requires Wired(g) && Happens(g, who, a, c) && Looped(c) && AllProvide(g, who)
    ensures Provided(g, Last(c.stages).record.state)
    ensures AllFinish(g, who) ==> AllFinal(g, Last(c.stages).record.state)
  {
    CallEnters(g, a, c);
    FirstProvides(g, who, a, c);
    StagesProvide(g, a, c.stages);
  }

  /* ---------- deadlocks and bounds ---------- */

  /** The deadlock error of any call, fresh or resumed, means that every final producer is failed or
      skipped once the skip pass is repeated. */
  lemma CallDeadlockIsPrecise(g: Graph, level: map<NodeId, nat>, who: Attempt -> bool, a: Attempt, c: Call, p: NodeId)
    requires Wired(g) && Increases(g, level) && Happens(g, who, a, c) && c.out.DeadlockError?
    requires AllProvide(g, who) && AllFinish(g, who) && a.limit >= 1 && p in Compiler.ProducerIds(g)
    ensures Looped(c)
    ensures var s := Last(c.stages).record.state;
      Tracks(g, s) && (var e := Closure(g, SkipPass(g, s)); p in e.status && e.status[p] in {Failed, Skipped})
  {
    CallEnters(g, a, c);
    LastProvides(g, who, a, c);
    var s := Last(c.stages).record.state;
    DeadlockIsPrecise(g, level, s.initial, a.limit, s, p);
  }

  /** The report shows every impossible node as skipped, and the others as they were when the call came to the
      top of its loop for the last time. */
  lemma DeadlockReport(g: Graph, a: Attempt, c: Call, n: Node)
    requires IsCall(g, a, c) && c.out.DeadlockError? && n in g.nodes && UniqueNodes(g)
    ensures Looped(c) && n.id in c.out.report
    ensures var s := Last(c.stages).record.state;
      Tracks(g, s) && c.out.report[n.id] == if IsImpossible(g, s, n) then Skipped else s.status[n.id]
  {
  }

  lemma StagesBound(g: Graph, waves: seq<seq<NodeId>>, a: Attempt, stages: seq<Stage>)
    requires Wired(g) && Placed(g, waves) && Increases(g, Levels(g, waves)) && a.limit >= 1
    requires Stages(g, a, stages) && FillsEdges(g, a.run)
    requires AllFilled(g, stages[0].record.state) && Supplied(g, stages[0].record.state.initial)
    ensures |stages| - 1 <= |Ids(g)| / a.limit + |waves|
  {
    var turns, trace := TurnsOf(a, stages), Tops(stages);
    StagesAreRun(g, a, stages);
    WaveBound(g, waves, trace[0].st.initial, a.limit, turns, trace);
  }

  /** No call commits more waves than the bound. */
  lemma CallWaveBound(g: Graph, waves: seq<seq<NodeId>>, who: Attempt -> bool, a: Attempt, c: Call)
    requires Wired(g) && Placed(g, waves) && Increases(g, Levels(g, waves))
    requires Happens(g, who, a, c) && Looped(c) && AllProvide(g, who) && a.limit >= 1
    ensures |c.stages| - 1 <= |Ids(g)| / a.limit + |waves|
  {
    CallEnters(g, a, c);
    FirstProvides(g, who, a, c);
    StagesBound(g, waves, a, c.stages);
  }

  /* ---------- exceptions ---------- */

  ghost predicate IsOutput(run: Oracle, x: Artifact) {
    exists n, ins, slot :: run(n, ins).Success? && slot in run(n, ins).outputs && run(n, ins).outputs[slot] == x
  }

  /** An artifact this process may put; it puts its bundle only if it starts afresh. */
  ghost predicate MayPut(a: Attempt, anew: bool, x: Artifact) {
    IsOutput(a.run, x) || (anew && x in BundleArtifacts(a.bundle))
  }

  ghost predicate Collides(x: Artifact, y: Artifact) {
    x.task == y.task && x.id == y.id && x != y
  }

  /** All these artifacts are valid, no two of them collide, and none collides with a stored one. */
  ghost predicate Harmless(files: Files, a: Attempt, anew: bool) {
    && (forall x :: MayPut(a, anew, x) ==> PutAllowed(files, x))
    && (forall x, y :: MayPut(a, anew, x) && MayPut(a, anew, y) ==> !Collides(x, y))
  }

  ghost predicate AreItsPuts(a: Attempt, anew: bool, arts: set<Artifact>) {
    forall x :: x in arts ==> MayPut(a, anew, x)
  }

  lemma CanStore(files: Files, a: Attempt, anew: bool, arts: set<Artifact>)
    requires Harmless(files, a, anew) && AreItsPuts(a, anew, arts)
    ensures exists after :: FilesStored(files, arts, after)
  {
    forall x, y | x in arts && y in arts && (x.task, x.id) == (y.task, y.id) ensures x == y {
      assert MayPut(a, anew, x) && MayPut(a, anew, y);
      assert !Collides(x, y);
    }
    var more := map x | x in arts :: (x.task, x.id) := x;
    forall x | x in arts ensures x.valid && (x.task, x.id) in files + more && (files + more)[(x.task, x.id)] == x {
      assert MayPut(a, anew, x);
      assert (x.task, x.id) in more;
    }
    forall k | k in files ensures (files + more)[k] == files[k] {
      if k in more {
        assert MayPut(a, anew, more[k]);
      }
    }
    assert FilesStored(files, arts, files + more);
  }

  lemma StaysHarmless(files: Files, a: Attempt, anew: bool, arts: set<Artifact>, after: Files)
    requires Harmless(files, a, anew) && AreItsPuts(a, anew, arts) && FilesStored(files, arts, after)
    ensures Harmless(after, a, anew)
  {
    forall x | MayPut(a, anew, x) ensures PutAllowed(after, x) {
      var k := (x.task, x.id);
      if k in after && k !in files {
        var y :| y in arts && (y.task, y.id) == k;
        assert MayPut(a, anew, y) && !Collides(x, y);
      }
    }
  }

  lemma OutcomeIsOutput(run: Oracle, n: NodeId, ins: Inputs, o: Outcome, slot: Slot)
    requires o == run(n, ins) && o.Success? && slot in o.outputs
    ensures IsOutput(run, o.outputs[slot])
  {
  }

  lemma ResultIsOutput(g: Graph, a: Attempt, c: Config, id: NodeId, slot: Slot)
    requires Tracks(g, c.st) && id in WaveResults(g, a.limit, a.run, c)
    requires var o := WaveResults(g, a.limit, a.run, c)[id]; o.Success? && slot in o.outputs
    ensures IsOutput(a.run, WaveResults(g, a.limit, a.run, c)[id].outputs[slot])
  {
    var ins := Delivered(g, SkipPass(g, c.st), c.store, NodeOf(g.nodes, id));
    OutcomeIsOutput(a.run, id, ins, WaveResults(g, a.limit, a.run, c)[id], slot);
  }

  lemma WaveIsItsPuts(g: Graph, a: Attempt, anew: bool, c: Config)
    requires Tracks(g, c.st)
    ensures AreItsPuts(a, anew, ArtifactsOf(WaveResults(g, a.limit, a.run, c)))
  {
    var results := WaveResults(g, a.limit, a.run, c);
    forall id, slot | id in results && results[id].Success? && slot in results[id].outputs
      ensures IsOutput(a.run, results[id].outputs[slot])
    {
      ResultIsOutput(g, a, c, id, slot);
    }
  }

  /** A fresh call is not refused its bundle. */
  lemma StartsHarmless(g: Graph, who: Attempt -> bool, a: Attempt, c: Call)
    requires Wired(g) && Happens(g, who, a, c) && !c.loaded.ConfigDrift?
    requires Harmless(c.before, a, c.loaded.NoCheckpoint?)
    ensures Looped(c)
  {
    if c.loaded.NoCheckpoint? {
      CanStore(c.before, a, true, BundleArtifacts(a.bundle));
    } else {
      ResumeStarts(g, who, a, c);
    }
  }

  lemma FirstHarmless(g: Graph, a: Attempt, c: Call)
    requires IsCall(g, a, c) && OwnAttempt(Found(c), c.ctx.task, a) && Looped(c)
    requires Harmless(c.before, a, c.loaded.NoCheckpoint?)
    ensures Harmless(c.stages[0].files, a, c.loaded.NoCheckpoint?)
  {
    CallEnters(g, a, c);
    if c.loaded.NoCheckpoint? {
      StaysHarmless(c.before, a, true, BundleArtifacts(a.bundle), c.stages[0].files);
    }
  }

  lemma {:induction false} StageHarmless(g: Graph, a: Attempt, anew: bool, stages: seq<Stage>, i: nat)
    requires Stages(g, a, stages) && i < |stages| && Harmless(stages[0].files, a, anew)
    ensures Harmless(stages[i].files, a, anew)
  {
    if i > 0 {
      StageHarmless(g, a, anew, stages, i - 1);
      LaterHarmless(g, a, anew, stages, i);
    }
  }

  lemma LaterHarmless(g: Graph, a: Attempt, anew: bool, stages: seq<Stage>, i: nat)
    requires Stages(g, a, stages) && 0 < i < |stages| && Harmless(stages[i - 1].files, a, anew)
    ensures Harmless(stages[i].files, a, anew)
  {
    var now, next := stages[i - 1], stages[i];
    LaterStage(g, a, stages, i);
    NextHarmless(g, a, anew, now, next);
  }

  lemma NextHarmless(g: Graph, a: Attempt, anew: bool, now: Stage, next: Stage)
    requires Follows(g, a, now, next) && Harmless(now.files, a, anew)
    ensures Harmless(next.files, a, anew)
  {
    WaveIsItsPuts(g, a, anew, now.Top());
    StaysHarmless(now.files, a, anew, ArtifactsOf(WaveResults(g, a.limit, a.run, now.Top())), next.files);
  }

  /** The outcome of the wave that this state launches has an edge whose comparison raises. */
  ghost predicate Incomparably(g: Graph, a: Attempt, top: Config) {
    Tracks(g, top.st) && Raises(g, WaveResults(g, a.limit, a.run, top))
  }

  lemma AbortsByComparison(g: Graph, a: Attempt, anew: bool, stages: seq<Stage>, files: Files, out: Ending)
    requires |stages| >= 1 && Harmless(Last(stages).files, a, anew)
    requires Returns(g, a, stages, files, out) && out.Raised?
    ensures Incomparably(g, a, Last(stages).Top())
  {
    var last := Last(stages);
    WaveIsItsPuts(g, a, anew, last.Top());
    CanStore(last.files, a, anew, ArtifactsOf(WaveResults(g, a.limit, a.run, last.Top())));
  }

  lemma LastHarmless(g: Graph, a: Attempt, anew: bool, stages: seq<Stage>)
    requires Stages(g, a, stages) && Harmless(stages[0].files, a, anew)
    ensures Harmless(Last(stages).files, a, anew)
  {
    StageHarmless(g, a, anew, stages, |stages| - 1);
  }

  /** If all that the process may put can be stored, then a call, fresh or resumed, ends in an exception
      only if a comparison raises in its last wave. */
  lemma RaisesByComparison(g: Graph, who: Attempt -> bool, a: Attempt, c: Call)
    requires Wired(g) && Happens(g, who, a, c) && Harmless(c.before, a, c.loaded.NoCheckpoint?) && c.out.Raised?
    ensures Looped(c) && Incomparably(g, a, Last(c.stages).Top())
  {
    StartsHarmless(g, who, a, c);
    CallEnters(g, a, c);
    FirstHarmless(g, a, c);
    LastHarmless(g, a, c.loaded.NoCheckpoint?, c.stages);
    AbortsByComparison(g, a, c.loaded.NoCheckpoint?, c.stages, c.after, c.out);
  }

  lemma UnconditionalNeverRaises(g: Graph, results: Results)
    requires Unconditional(g)
    ensures !Raises(g, results)
  {
  }

  lemma StagesNeverDeadlock(g: Graph, level: map<NodeId, nat>, a: Attempt, stages: seq<Stage>)
    requires Wired(g) && Increases(g, level) && Unconditional(g) && Compiler.ProducerIds(g) != {} && a.limit >= 1
    requires FillsEdges(g, a.run) && DeliversFinal(g, a.run) && forall n, ins :: a.run(n, ins).Success?
    requires Stages(g, a, stages)
    requires var s := stages[0].record.state; Supplied(g, s.initial) && NoneLost(s) && AllFilled(g, s) && AllFinal(g, s)
    ensures !Deadlocks(g, a.limit, Last(stages).record.state)
  {
    var turns, trace := TurnsOf(a, stages), Tops(stages);
    StagesAreRun(g, a, stages);
    UnconditionalNeverDeadlocks(g, level, trace[0].st.initial, turns, trace, |turns|, a.limit);
  }

  lemma LiveLoopGoesOn(g: Graph, a: Attempt, stages: seq<Stage>, files: Files, out: Ending)
    requires |stages| >= 1 && !Deadlocks(g, a.limit, Last(stages).record.state)
    requires Returns(g, a, stages, files, out)
    ensures !out.DeadlockError?
  {
  }

  lemma CallNeverDeadlocks(g: Graph, level: map<NodeId, nat>, who: Attempt -> bool, a: Attempt, c: Call)
    requires Wired(g) && Increases(g, level) && Unconditional(g) && Compiler.ProducerIds(g) != {}
    requires Happens(g, who, a, c) && AllProvide(g, who) && AllFinish(g, who) && AllSucceed(who) && a.limit >= 1
    ensures !c.out.DeadlockError?
  {
    if Looped(c) {
      CallEnters(g, a, c);
      FirstProvides(g, who, a, c);
      StagesNeverDeadlock(g, level, a, c.stages);
      LiveLoopGoesOn(g, a, c.stages, c.after, c.out);
    }
  }

  /** Without conditional edges and failures, and if all that the process may put can be stored, every call,
      fresh or resumed, returns a frozen result, unless the checkpoint has drifted. */
  lemma UnconditionalFinishes(g: Graph, level: map<NodeId, nat>, who: Attempt -> bool, a: Attempt, c: Call)
    requires Wired(g) && Increases(g, level) && Unconditional(g) && Compiler.ProducerIds(g) != {}
    requires Happens(g, who, a, c) && AllProvide(g, who) && AllFinish(g, who) && AllSucceed(who) && a.limit >= 1
    requires Harmless(c.before, a, c.loaded.NoCheckpoint?)
    ensures c.out.Finished? <==> !c.loaded.ConfigDrift?
    ensures c.out.Finished? ==> c.out.record.state.frozen
  {
    CallNeverDeadlocks(g, level, who, a, c);
    if c.out.Raised? {
      RaisesByComparison(g, who, a, c);
      UnconditionalNeverRaises(g, WaveResults(g, a.limit, a.run, Last(c.stages).Top()));
    }
  }

  /* ---------- what the answer says of the graph ---------- */

  ghost predicate AllLike(ref: Reference, who: Attempt -> bool) {
    forall a :: who(a) ==> LikeAttempt(ref, a)
  }

  lemma FirstAgrees(g: Graph, ref: Reference, who: Attempt -> bool, a: Attempt, c: Call)
    requires Decisive(g, ref) && AllLike(ref, who) && Happens(g, who, a, c) && Looped(c)
    ensures Agrees(g, ref, c.stages[0].Top().st, c.stages[0].Top().store)
  {
    var task, first, d := c.ctx.task, c.stages[0], Found(c);
    CallEnters(g, a, c);
    if d.checkpoint.None? {
      InitProper(g, task, a.bundle, d.files, first.files);
      InitAgrees(g, ref, a.bundle, TaskFiles(d.files, task), first.Top());
    } else {
      var attempts, disks :| LeftBy(g, task, who, attempts, disks, d);
      RecoveredAgrees(g, ref, task, attempts, disks, |attempts|);
    }
  }

  lemma StagesAgree(g: Graph, ref: Reference, a: Attempt, stages: seq<Stage>)
    requires Decisive(g, ref) && Congruent(ref.like, ref.run, a.run) && Stages(g, a, stages)
    requires Agrees(g, ref, stages[0].Top().st, stages[0].Top().store)
    ensures Agrees(g, ref, Last(stages).Top().st, Last(stages).Top().store)
  {
    var turns, trace := TurnsOf(a, stages), Tops(stages);
    StagesAreRun(g, a, stages);
    RunAgrees(g, ref, trace[0].st.initial, turns, trace, |turns|);
  }

  lemma LastAgrees(g: Graph, ref: Reference, who: Attempt -> bool, a: Attempt, c: Call)
    requires Decisive(g, ref) && AllLike(ref, who) && Happens(g, who, a, c) && Looped(c)
    ensures Agrees(g, ref, Last(c.stages).Top().st, Last(c.stages).Top().store)
  {
    CallEnters(g, a, c);
    FirstAgrees(g, ref, who, a, c);
    assert LikeAttempt(ref, a);
    StagesAgree(g, ref, a, c.stages);
  }

  /** A result comes with a record in which every settled node has what its meaning gives it, up to
      likeness, and a frozen artifact like that of a live node; a deadlock is reported only if no node is
      live for the final slot. */
  ghost predicate Meant(g: Graph, ref: Reference, task: TaskId, files: Files, out: Ending)
    requires Increases(g, ref.level)
  {
    match out
    case Finished(record, _, _) =>
      && Agrees(g, ref, record.state, TaskFiles(files, task))
      && exists p :: FrozenAs(g, ref, record.state, TaskFiles(files, task), p)
    case DeadlockError(_) => !exists p :: LiveFinal(g, ref, p)
    case _ => true
  }

  lemma AgreedIsMeant(g: Graph, ref: Reference, a: Attempt, stages: seq<Stage>, files: Files, out: Ending)
    requires Decisive(g, ref) && a.limit >= 1 && |stages| >= 1 && Returns(g, a, stages, files, out)
    requires Provided(g, Last(stages).record.state)
    requires Agrees(g, ref, Last(stages).Top().st, Last(stages).Top().store)
    ensures Meant(g, ref, Last(stages).record.task, files, out)
  {
    var top := Last(stages).Top();
    if out.Finished? {
      FrozenIsLive(g, ref, top.st.initial, top.st, top.store);
    } else if out.DeadlockError? {
      FreezesIffLive(g, ref, top.st.initial, a.limit, top.st, top.store);
    }
  }

  /** What a call answers is what the graph means, whatever its limit, whatever died before it and whatever
      ids the artifacts got. */
  lemma CallEndsAsMeant(g: Graph, ref: Reference, who: Attempt -> bool, a: Attempt, c: Call)
    requires Decisive(g, ref) && AllLike(ref, who) && AllProvide(g, who) && a.limit >= 1 && Happens(g, who, a, c)
    ensures Meant(g, ref, c.ctx.task, c.after, c.out)
  {
    if Looped(c) {
      CallEnters(g, a, c);
      LastAgrees(g, ref, who, a, c);
      LastProvides(g, who, a, c);
      LastSound(g, a, c.stages);
      AgreedIsMeant(g, ref, a, c.stages, c.after, c.out);
    }
  }
}
