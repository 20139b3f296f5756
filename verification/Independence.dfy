/** Schedule independence: node results, and whether a run freezes or deadlocks, do not depend on
    the limit on parallel nodes, nor on the ids the artifacts happen to get. */
module Independence {
  import opened Types
  import opened EdgeConditions
  import opened Scheduling
  import opened Stores
  import opened Committing
  import opened Runs
  import opened Progress
  import opened Endings
  import opened Meaning
  import Layering

  /** The executors of every wave do what those of the reference do, up to likeness. */
  ghost predicate RunLike(ref: Reference, turns: seq<Turn>) {
    forall i :: 0 <= i < |turns| ==> Congruent(ref.like, ref.run, turns[i].run)
  }

  /** A run by such executors, under any limits and with any leftovers in the store, from a state that
      the meaning of the graph allows. */
  ghost predicate IsFatedRun(g: Graph, ref: Reference, initial: map<Slot, ArtifactId>, turns: seq<Turn>,
                             trace: seq<Config>)
    requires Increases(g, ref.level)
  {
    && IsRun(g, initial, turns, trace)
    && RunLike(ref, turns)
    && Agrees(g, ref, trace[0].st, trace[0].store)
  }

  lemma AgreesNext(g: Graph, ref: Reference, initial: map<Slot, ArtifactId>, turns: seq<Turn>, trace: seq<Config>,
                   i: nat)
    requires Decisive(g, ref) && IsRun(g, initial, turns, trace) && RunLike(ref, turns)
    requires i < |turns| && Agrees(g, ref, trace[i].st, trace[i].store)
    ensures Agrees(g, ref, trace[i + 1].st, trace[i + 1].store)
  {
    var top := TopAt(turns, trace, i);
    RunInv(g, initial, turns, trace, i);
    TurnStep(g, initial, turns, trace, i);
    KeepsAgrees(g, ref, trace[i].st, trace[i].store, top.store);
    StepAgrees(g, ref, initial, turns[i].limit, turns[i].run, top, trace[i + 1]);
  }

  /** In every state of every run, whatever the limits and the leftovers: a succeeded or failed node
      has the result its fate gives it, with like artifacts in the store, and a skipped node is never
      fed. */
  lemma {:induction false} RunAgrees(g: Graph, ref: Reference, initial: map<Slot, ArtifactId>, turns: seq<Turn>,
                                     trace: seq<Config>, i: nat)
    requires Decisive(g, ref) && IsFatedRun(g, ref, initial, turns, trace) && i <= |turns|
    ensures Agrees(g, ref, trace[i].st, trace[i].store)
  {
    if i > 0 {
      RunAgrees(g, ref, initial, turns, trace, i - 1);
      AgreesNext(g, ref, initial, turns, trace, i - 1);
    }
  }

  /** Every launched node is given inputs like those its fate gives it, and has a like outcome. */
  lemma LaunchedInputs(g: Graph, ref: Reference, initial: map<Slot, ArtifactId>, turns: seq<Turn>, trace: seq<Config>,
                       i: nat, n: Node)
    requires Decisive(g, ref) && IsFatedRun(g, ref, initial, turns, trace) && i < |turns|
    requires n in g.nodes && Tracks(g, trace[i].st) && n.id in ResultsAt(g, turns, trace, i)
    ensures n.id in ref.level
    ensures FedLike(g, ref, n.id, Delivered(g, SkipPass(g, trace[i].st), turns[i].store, n))
    ensures LikeOutcomes(ref.like, FateOf(g, ref, n.id).outcome, ResultsAt(g, turns, trace, i)[n.id])
  {
    var top := TopAt(turns, trace, i);
    RunInv(g, initial, turns, trace, i);
    RunAgrees(g, ref, initial, turns, trace, i);
    TurnStep(g, initial, turns, trace, i);
    KeepsAgrees(g, ref, trace[i].st, trace[i].store, top.store);
    LaunchedGetsFate(g, ref, initial, turns[i].limit, turns[i].run, top, n);
  }

  lemma LaunchedGetsFate(g: Graph, ref: Reference, initial: map<Slot, ArtifactId>, k: int, run: Oracle, c: Config,
                         n: Node)
    requires Decisive(g, ref) && Congruent(ref.like, ref.run, run) && StateInv(g, initial, c.st) && Tracks(g, c.st)
    requires Agrees(g, ref, c.st, c.store) && n in g.nodes && n.id in WaveResults(g, k, run, c)
    ensures n.id in ref.level
    ensures FedLike(g, ref, n.id, Delivered(g, SkipPass(g, c.st), c.store, n))
    ensures FatedResult(g, ref, n.id, WaveResults(g, k, run, c)[n.id])
  {
    var d := SkipPass(g, c.st);
    SkipInv(g, initial, c.st);
    SkipAgrees(g, ref, initial, c.st, c.store);
    WaveResultsKeys(g, k, run, c);
    LaunchedFed(g, d, n);
    FedGetsFate(g, ref, initial, d, c.store, n);
    WaveIsFated(g, ref, initial, k, run, c);
  }

  lemma LaunchedFed(g: Graph, s: State, n: Node)
    requires UniqueNodes(g) && Tracks(g, s) && n in g.nodes && n.id in ReadySet(g, s)
    ensures Fed(g, s, n)
  {
  }

  /** The status a fate settles on. */
  ghost function FatedStatus(fate: Fate): Status {
    if fate.Unfed? then Skipped else StatusOf(fate.outcome)
  }

  /** What agreement says of a settled node. */
  lemma SettledAsFated(g: Graph, ref: Reference, s: State, store: Store, id: NodeId)
    requires Increases(g, ref.level) && StatusInv(g, s) && Agrees(g, ref, s, store)
    requires id in s.status && Terminal(s.status[id])
    ensures id in ref.level && s.status[id] == FatedStatus(FateOf(g, ref, id))
    ensures s.status[id] == Succeeded ==>
      id in s.outputs && HeldSlots(ref.like, store, FateOf(g, ref, id).outcome.outputs, s.outputs[id])
  {
    assert NodeAgrees(ref.like, FateOf(g, ref, id), s, store, id);
  }

  /* ---------- two runs ---------- */

  /** Likeness can be turned around and passed on. */
  ghost predicate IsLikeness(like: Likeness) {
    && (forall a, b :: like(a, b) ==> like(b, a))
    && (forall a, b, c :: like(a, b) && like(b, c) ==> like(a, c))
  }

  /** The stores have like artifacts under these ids. */
  ghost predicate LikeHeld(like: Likeness, store1: Store, id1: ArtifactId, store2: Store, id2: ArtifactId) {
    id1 in store1 && id2 in store2 && like(store1[id1], store2[id2])
  }

  ghost predicate LikeIds(like: Likeness, store1: Store, ids1: map<Slot, ArtifactId>, store2: Store,
                          ids2: map<Slot, ArtifactId>)
  {
    && ids1.Keys == ids2.Keys
    && forall slot :: slot in ids1 ==> LikeHeld(like, store1, ids1[slot], store2, ids2[slot])
  }

  lemma HeldAlike(like: Likeness, a: Artifact, store1: Store, id1: ArtifactId, store2: Store, id2: ArtifactId)
    requires IsLikeness(like) && HeldAs(like, store1, a, id1) && HeldAs(like, store2, a, id2)
    ensures LikeHeld(like, store1, id1, store2, id2)
  {
    assert like(store1[id1], a);
  }

  lemma SlotsHeldAlike(like: Likeness, arts: map<Slot, Artifact>, store1: Store, ids1: map<Slot, ArtifactId>,
                       store2: Store, ids2: map<Slot, ArtifactId>)
    requires IsLikeness(like) && HeldSlots(like, store1, arts, ids1) && HeldSlots(like, store2, arts, ids2)
    ensures LikeIds(like, store1, ids1, store2, ids2)
  {
    forall slot | slot in ids1 ensures LikeHeld(like, store1, ids1[slot], store2, ids2[slot]) {
      HeldAlike(like, arts[slot], store1, ids1[slot], store2, ids2[slot]);
    }
  }

  /** The node has one status in both, and like outputs. */
  ghost predicate SameVerdict(like: Likeness, s1: State, store1: Store, s2: State, store2: Store, id: NodeId) {
    && id in s1.status && id in s2.status && s1.status[id] == s2.status[id]
    && (s1.status[id] == Succeeded ==>
          id in s1.outputs && id in s2.outputs && LikeIds(like, store1, s1.outputs[id], store2, s2.outputs[id]))
  }

  lemma StatesAgree(g: Graph, ref: Reference, s1: State, store1: Store, s2: State, store2: Store, id: NodeId)
    requires Increases(g, ref.level) && IsLikeness(ref.like) && StatusInv(g, s1) && StatusInv(g, s2)
    requires Agrees(g, ref, s1, store1) && Agrees(g, ref, s2, store2)
    requires id in s1.status && id in s2.status && Terminal(s1.status[id]) && Terminal(s2.status[id])
    ensures SameVerdict(ref.like, s1, store1, s2, store2, id)
  {
    SettledAsFated(g, ref, s1, store1, id);
    SettledAsFated(g, ref, s2, store2, id);
    if s1.status[id] == Succeeded {
      SlotsHeldAlike(ref.like, FateOf(g, ref, id).outcome.outputs, store1, s1.outputs[id], store2, s2.outputs[id]);
    }
  }

  /** Two runs of one graph, under any limits, from like bundles and with executors that do alike things,
      never disagree on a node both have settled, up to likeness of its outputs. */
  lemma RunsAgree(g: Graph, ref: Reference, initial1: map<Slot, ArtifactId>, turns1: seq<Turn>, trace1: seq<Config>,
                  i: nat, initial2: map<Slot, ArtifactId>, turns2: seq<Turn>, trace2: seq<Config>, j: nat, id: NodeId)
    requires Decisive(g, ref) && IsLikeness(ref.like)
    requires IsFatedRun(g, ref, initial1, turns1, trace1) && i <= |turns1|
    requires IsFatedRun(g, ref, initial2, turns2, trace2) && j <= |turns2|
    requires id in trace1[i].st.status && id in trace2[j].st.status
    requires Terminal(trace1[i].st.status[id]) && Terminal(trace2[j].st.status[id])
    ensures SameVerdict(ref.like, trace1[i].st, trace1[i].store, trace2[j].st, trace2[j].store, id)
  {
    var c, d := trace1[i], trace2[j];
    RunInv(g, initial1, turns1, trace1, i);
    RunInv(g, initial2, turns2, trace2, j);
    RunAgrees(g, ref, initial1, turns1, trace1, i);
    RunAgrees(g, ref, initial2, turns2, trace2, j);
    StatesAgree(g, ref, c.st, c.store, d.st, d.store, id);
  }

  /* ---------- how runs end ---------- */

  /** The node runs, succeeds and delivers the final slot. */
  ghost predicate LiveFinal(g: Graph, ref: Reference, p: NodeId)
    requires Increases(g, ref.level)
  {
    && p in ref.level
    && FateOf(g, ref, p).Runs?
    && FateOf(g, ref, p).outcome.Success?
    && g.finalSlot in FateOf(g, ref, p).outcome.outputs
  }

  ghost function FinalOf(g: Graph, ref: Reference, p: NodeId): Artifact
    requires Increases(g, ref.level) && LiveFinal(g, ref, p)
  {
    FateOf(g, ref, p).outcome.outputs[g.finalSlot]
  }

  /** The frozen artifact is like the one this node is meant to deliver. */
  ghost predicate FrozenAs(g: Graph, ref: Reference, s: State, store: Store, p: NodeId)
    requires Increases(g, ref.level)
  {
    LiveFinal(g, ref, p) && s.final.Some? && HeldAs(ref.like, store, FinalOf(g, ref, p), s.final.value)
  }

  lemma DelivererIsLive(g: Graph, ref: Reference, s: State, store: Store, p: NodeId)
    requires Increases(g, ref.level) && StatusInv(g, s) && OutputInv(s) && Agrees(g, ref, s, store)
    requires p in s.outputs && g.finalSlot in s.outputs[p] && s.final == Some(s.outputs[p][g.finalSlot])
    ensures FrozenAs(g, ref, s, store, p)
  {
    assert NodeAgrees(ref.like, FateOf(g, ref, p), s, store, p);
  }

  lemma FrozenIsLive(g: Graph, ref: Reference, initial: map<Slot, ArtifactId>, s: State, store: Store)
    requires Increases(g, ref.level) && StateInv(g, initial, s) && Agrees(g, ref, s, store) && s.frozen
    ensures exists p :: FrozenAs(g, ref, s, store, p)
  {
    var p :| p in s.outputs && g.finalSlot in s.outputs[p] && s.final == Some(s.outputs[p][g.finalSlot]);
    DelivererIsLive(g, ref, s, store, p);
  }

  lemma {:induction false} ClosureAgrees(g: Graph, ref: Reference, initial: map<Slot, ArtifactId>, s: State,
                                         store: Store)
    requires Wired(g) && Increases(g, ref.level) && StateInv(g, initial, s) && Agrees(g, ref, s, store)
    requires Tracks(g, s)
    ensures Agrees(g, ref, Closure(g, s), store)
    decreases |PendingSet(s)|
  {
    if ImpossibleSet(g, s) != {} {
      SkipShrinks(g, s);
      Layering.SubsetSize(PendingSet(SkipPass(g, s)), PendingSet(s));
      SkipInv(g, initial, s);
      SkipAgrees(g, ref, initial, s, store);
      ClosureAgrees(g, ref, initial, SkipPass(g, s), store);
    }
  }

  lemma SettledLiveFreezes(g: Graph, ref: Reference, initial: map<Slot, ArtifactId>, s: State, store: Store, p: NodeId)
    requires Increases(g, ref.level) && StateInv(g, initial, s) && Agrees(g, ref, s, store)
    requires AllSettled(s) && LiveFinal(g, ref, p)
    ensures s.frozen
  {
    assert NodeAgrees(ref.like, FateOf(g, ref, p), s, store, p);
    assert s.status[p] == Succeeded;
    assert g.finalSlot in s.outputs[p];
  }

  /** A deadlock is reported only if no node at all is live for the final slot. */
  lemma DeadlockMeansNoneLive(g: Graph, ref: Reference, initial: map<Slot, ArtifactId>, k: int, s: State, store: Store,
                              p: NodeId)
    requires AllFilled(g, s)
    requires Wired(g) && Increases(g, ref.level) && Supplied(g, initial) && StateInv(g, initial, s)
    requires Agrees(g, ref, s, store) && k >= 1 && Deadlocks(g, k, s)
    ensures !LiveFinal(g, ref, p)
  {
    var d := SkipPass(g, s);
    DeadlockSettles(g, ref.level, initial, k, s);
    SkipAgrees(g, ref, initial, s, store);
    ClosureAgrees(g, ref, initial, d, store);
    if LiveFinal(g, ref, p) {
      SettledLiveFreezes(g, ref, initial, Closure(g, d), store, p);
    }
  }

  /** The loop is over: frozen, or in a deadlock. */
  ghost predicate Ended(g: Graph, k: int, s: State) {
    s.frozen || Deadlocks(g, k, s)
  }

  /** A state in which the loop is over is frozen exactly if some node is live for the final slot, and
      otherwise a deadlock. The right-hand side mentions neither the limit nor the run. */
  lemma FreezesIffLive(g: Graph, ref: Reference, initial: map<Slot, ArtifactId>, k: int, s: State, store: Store)
    requires Decisive(g, ref) && Supplied(g, initial) && StateInv(g, initial, s) && AllFilled(g, s)
    requires Agrees(g, ref, s, store) && k >= 1 && Ended(g, k, s)
    ensures s.frozen <==> exists p :: LiveFinal(g, ref, p)
    ensures Deadlocks(g, k, s) <==> !exists p :: LiveFinal(g, ref, p)
  {
    if s.frozen {
      FrozenIsLive(g, ref, initial, s, store);
      var p :| FrozenAs(g, ref, s, store, p);
      assert LiveFinal(g, ref, p);
    } else {
      forall p ensures !LiveFinal(g, ref, p) {
        DeadlockMeansNoneLive(g, ref, initial, k, s, store, p);
      }
    }
  }

  /** Every wave fills the edges, as the outputs there at the start do. */
  ghost predicate FilledRun(g: Graph, turns: seq<Turn>, trace: seq<Config>)
    requires |trace| >= 1
  {
    AllFill(g, turns) && AllFilled(g, trace[0].st)
  }

  lemma RunEndsAsMeant(g: Graph, ref: Reference, initial: map<Slot, ArtifactId>, turns: seq<Turn>, trace: seq<Config>,
                       k: int)
    requires Decisive(g, ref) && Supplied(g, initial) && k >= 1
    requires IsFatedRun(g, ref, initial, turns, trace) && FilledRun(g, turns, trace) && Ended(g, k, trace[|turns|].st)
    ensures trace[|turns|].st.frozen <==> exists p :: LiveFinal(g, ref, p)
  {
    RunInv(g, initial, turns, trace, |turns|);
    RunAgrees(g, ref, initial, turns, trace, |turns|);
    RunFilled(g, initial, turns, trace, |turns|);
    FreezesIffLive(g, ref, initial, k, trace[|turns|].st, trace[|turns|].store);
  }

  /** So whether a run froze or deadlocked does not depend on its limits. */
  lemma RunsEndAlike(g: Graph, ref: Reference, initial1: map<Slot, ArtifactId>, turns1: seq<Turn>, trace1: seq<Config>,
                     k1: int, initial2: map<Slot, ArtifactId>, turns2: seq<Turn>, trace2: seq<Config>, k2: int)
    requires Decisive(g, ref) && Supplied(g, initial1) && Supplied(g, initial2) && k1 >= 1 && k2 >= 1
    requires IsFatedRun(g, ref, initial1, turns1, trace1) && FilledRun(g, turns1, trace1)
    requires IsFatedRun(g, ref, initial2, turns2, trace2) && FilledRun(g, turns2, trace2)
    requires Ended(g, k1, trace1[|turns1|].st) && Ended(g, k2, trace2[|turns2|].st)
    ensures trace1[|turns1|].st.frozen <==> trace2[|turns2|].st.frozen
  {
    RunEndsAsMeant(g, ref, initial1, turns1, trace1, k1);
    RunEndsAsMeant(g, ref, initial2, turns2, trace2, k2);
  }

  ghost predicate OneLive(g: Graph, ref: Reference)
    requires Increases(g, ref.level)
  {
    forall p, q :: LiveFinal(g, ref, p) && LiveFinal(g, ref, q) ==> p == q
  }

  /** Both are frozen, with like artifacts. */
  ghost predicate LikeFinal(like: Likeness, s1: State, store1: Store, s2: State, store2: Store) {
    s1.final.Some? && s2.final.Some? && LikeHeld(like, store1, s1.final.value, store2, s2.final.value)
  }

  lemma FrozenAlike(g: Graph, ref: Reference, initial1: map<Slot, ArtifactId>, s1: State, store1: Store,
                    initial2: map<Slot, ArtifactId>, s2: State, store2: Store)
    requires Increases(g, ref.level) && IsLikeness(ref.like) && OneLive(g, ref)
    requires StateInv(g, initial1, s1) && Agrees(g, ref, s1, store1) && s1.frozen
    requires StateInv(g, initial2, s2) && Agrees(g, ref, s2, store2) && s2.frozen
    ensures LikeFinal(ref.like, s1, store1, s2, store2)
  {
    FrozenIsLive(g, ref, initial1, s1, store1);
    FrozenIsLive(g, ref, initial2, s2, store2);
    var p :| FrozenAs(g, ref, s1, store1, p);
    var q :| FrozenAs(g, ref, s2, store2, q);
    HeldAlike(ref.like, FinalOf(g, ref, p), store1, s1.final.value, store2, s2.final.value);
  }

  /** If at most one node is live for the final slot, every frozen run, under any limits, froze the
      same artifact, up to likeness. */
  lemma SameFinal(g: Graph, ref: Reference, initial1: map<Slot, ArtifactId>, turns1: seq<Turn>, trace1: seq<Config>,
                  initial2: map<Slot, ArtifactId>, turns2: seq<Turn>, trace2: seq<Config>)
    requires Decisive(g, ref) && IsLikeness(ref.like) && OneLive(g, ref)
    requires IsFatedRun(g, ref, initial1, turns1, trace1) && trace1[|turns1|].st.frozen
    requires IsFatedRun(g, ref, initial2, turns2, trace2) && trace2[|turns2|].st.frozen
    ensures LikeFinal(ref.like, trace1[|turns1|].st, trace1[|turns1|].store,
                      trace2[|turns2|].st, trace2[|turns2|].store)
  {
    var c, d := trace1[|turns1|], trace2[|turns2|];
    RunInv(g, initial1, turns1, trace1, |turns1|);
    RunInv(g, initial2, turns2, trace2, |turns2|);
    RunAgrees(g, ref, initial1, turns1, trace1, |turns1|);
    RunAgrees(g, ref, initial2, turns2, trace2, |turns2|);
    FrozenAlike(g, ref, initial1, c.st, c.store, initial2, d.st, d.store);
  }

  /* ---------- graphs to which this applies ---------- */

  /** Rival edges leave one output on opposite conditions. */
  ghost predicate ExclusiveRivals(g: Graph, bundle: map<Slot, Artifact>) {
    forall a, b :: a in g.edges && b in g.edges && Rivals(a, b, bundle) ==> OppositeEdges(a, b) || OppositeEdges(b, a)
  }

  ghost predicate OppositeEdges(a: Edge, b: Edge) {
    a.src == b.src && a.out == b.out && a.cond.Some? && b.cond.Some? && Opposite(a.cond.value, b.cond.value)
  }

  /** Opposite edges never both carry. */
  lemma OppositeCarry(g: Graph, ref: Reference, a: Edge, b: Edge)
    requires Increases(g, ref.level) && a in g.edges && b in g.edges && OppositeEdges(a, b)
    ensures !(Carried(g, ref, a).Some? && Carried(g, ref, b).Some?)
  {
    match FateOf(g, ref, a.src)
    case Runs(_, Success(outs)) =>
      if a.out in outs {
        OppositeConditions(a.cond.value, b.cond.value, outs[a.out].payload);
      }
    case _ =>
  }

  /** So the results above hold for every graph with one edge per slot, and for branches that join
      again from an `is_true` and an `is_false` edge. */
  lemma ExclusiveIsUnambiguous(g: Graph, ref: Reference)
    requires Increases(g, ref.level) && ExclusiveRivals(g, ref.bundle)
    ensures Unambiguous(g, ref)
  {
    forall a, b | a in g.edges && b in g.edges && Rivals(a, b, ref.bundle)
      ensures !(Carried(g, ref, a).Some? && Carried(g, ref, b).Some?)
    {
      if OppositeEdges(a, b) {
        OppositeCarry(g, ref, a, b);
      } else {
        OppositeCarry(g, ref, b, a);
      }
    }
  }

  /** Equal but for ids, parents, task and these fields of the payload, which may hold ids as well. */
  predicate SameBut(ignored: set<Key>, a: Artifact, b: Artifact) {
    a.schema == b.schema && a.producer == b.producer && a.payload - ignored == b.payload - ignored
  }

  lemma SameButWalks(ignored: set<Key>, a: Artifact, b: Artifact, path: seq<Key>)
    requires SameBut(ignored, a, b) && path != [] && path[0] !in ignored
    ensures Walk(Obj(a.payload), path) == Walk(Obj(b.payload), path)
  {
    assert path[0] in a.payload <==> path[0] in a.payload - ignored;
    assert path[0] in b.payload <==> path[0] in b.payload - ignored;
    if path[0] in a.payload {
      assert (a.payload - ignored)[path[0]] == (b.payload - ignored)[path[0]];
    }
  }

  /** That is a likeness, and the conditions of a graph go by it unless one reads such a field. */
  lemma SameButIsLikeness(g: Graph, ignored: set<Key>)
    requires forall e :: e in g.edges && e.cond.Some? ==> e.cond.value.path != [] && e.cond.value.path[0] !in ignored
    ensures IsLikeness((a, b) => SameBut(ignored, a, b)) && Respects(g, (a, b) => SameBut(ignored, a, b))
  {
    forall e, a, b | e in g.edges && e.cond.Some? && SameBut(ignored, a, b)
      ensures Holds(e.cond.value, a.payload) <==> Holds(e.cond.value, b.payload)
    {
      SameButWalks(ignored, a, b, e.cond.value.path);
    }
  }

  /** With equality for likeness, deterministic executors do what they do. */
  lemma DeterministicIsCongruent(run: Oracle)
    ensures Congruent((a, b) => a == b, run, run)
  {
    var like: Likeness := (a, b) => a == b;
    forall n, ins: Inputs, ins': Inputs | LikeSlots(like, ins, ins')
      ensures LikeOutcomes(like, run(n, ins), run(n, ins'))
    {
      assert ins == ins';
    }
  }
}
