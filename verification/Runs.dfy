/** The execute loop as a transition system, and what every state of every run satisfies. */
module Runs {
  import opened Types
  import opened Sorting
  import opened Layering
  import opened Scheduling
  import opened Stores
  import opened Committing
  import Compiler

  /* ---------- what the compiler hands to the runtime ---------- */

  ghost predicate UniqueEdges(g: Graph) {
    forall a, b :: a in g.edges && b in g.edges && a.id == b.id ==> a == b
  }

  ghost predicate Joins(g: Graph, e: Edge) {
    e.src in Ids(g) && e.dst in Ids(g) && e.out in NodeOf(g.nodes, e.src).outputs
  }

  ghost predicate Increases(g: Graph, level: map<NodeId, nat>) {
    level.Keys == Ids(g) && forall e :: e in g.edges ==> e.src in level && e.dst in level && level[e.src] < level[e.dst]
  }

  /** The facts about a compiled graph that the runtime relies on. */
  ghost predicate Wired(g: Graph) {
    && UniqueNodes(g)
    && UniqueEdges(g)
    && (forall e :: e in g.edges ==> Joins(g, e))
    && Compiler.AllBound(g)
  }

  /** The index of a node's wave. */
  ghost function WaveOf(waves: seq<seq<NodeId>>, n: NodeId): (i: nat)
    requires exists j :: 0 <= j < |waves| && n in waves[j]
    ensures i < |waves| && n in waves[i]
  {
    var j: nat :| 0 <= j < |waves| && n in waves[j];
    j
  }

  ghost predicate Placed(g: Graph, waves: seq<seq<NodeId>>) {
    forall n :: n in Ids(g) ==> exists j :: 0 <= j < |waves| && n in waves[j]
  }

  ghost function Levels(g: Graph, waves: seq<seq<NodeId>>): (level: map<NodeId, nat>)
    requires Placed(g, waves)
    ensures level.Keys == Ids(g)
    ensures forall n :: n in level ==> level[n] < |waves| && n in waves[level[n]]
  {
    map n | n in Ids(g) :: WaveOf(waves, n)
  }

  lemma LayeringPlaces(g: Graph, waves: seq<seq<NodeId>>)
    requires IsLayering(Ids(g), g.edges, waves)
    ensures Placed(g, waves)
  {
    forall n | n in Ids(g) ensures exists j :: 0 <= j < |waves| && n in waves[j] {
      NodeOnce(Ids(g), g.edges, waves, n);
      assert OnceIn(waves, n);
    }
  }

  ghost predicate Forward(g: Graph, waves: seq<seq<NodeId>>, e: Edge) {
    forall i: nat, j: nat :: i < |waves| && j < |waves| && e.src in waves[i] && e.dst in waves[j] ==> i < j
  }

  lemma LayeringForward(g: Graph, waves: seq<seq<NodeId>>, e: Edge)
    requires Closed(Ids(g), g.edges) && IsLayering(Ids(g), g.edges, waves) && e in g.edges
    ensures Forward(g, waves, e)
  {
    forall i: nat, j: nat | i < |waves| && j < |waves| && e.src in waves[i] && e.dst in waves[j] ensures i < j {
      EdgesGoLater(Ids(g), g.edges, waves, e, i, j);
    }
  }

  lemma LevelsIncrease(g: Graph, waves: seq<seq<NodeId>>)
    requires Closed(Ids(g), g.edges) && Placed(g, waves)
    requires forall e :: e in g.edges ==> Forward(g, waves, e)
    ensures Increases(g, Levels(g, waves))
  {
    var level := Levels(g, waves);
    forall e | e in g.edges ensures e.src in level && e.dst in level && level[e.src] < level[e.dst] {
      assert Forward(g, waves, e);
    }
  }

  /** Compilation establishes those facts, and the waves number the nodes along the edges. */
  lemma CompiledIsWired(reg: Compiler.Registry, g: Graph, c: CompiledGraph)
    requires Compiler.Verdict(reg, g).None? && Compiler.IsCompiled(g, c)
    ensures Wired(g) && Placed(g, c.waves) && Increases(g, Levels(g, c.waves))
    ensures Closed(Ids(g), g.edges) && IsLayering(Ids(g), g.edges, c.waves) && Compiler.ProducerIds(g) != {}
  {
    VerdictFacts(reg, g);
    Compiler.EdgesClosed(reg, g);
    DistinctIsUnique(g);
    AllJoin(reg, g);
    LayeringPlaces(g, c.waves);
    forall e | e in g.edges ensures Forward(g, c.waves, e) {
      LayeringForward(g, c.waves, e);
    }
    LevelsIncrease(g, c.waves);
  }

  lemma VerdictFacts(reg: Compiler.Registry, g: Graph)
    requires Compiler.Verdict(reg, g).None?
    ensures Compiler.DistinctNodes(g) && Compiler.DistinctEdges(g) && Compiler.AllEdgesOk(reg, g)
    ensures Compiler.AllBound(g) && Compiler.ProducerIds(g) != {}
  {
  }

  lemma AllJoin(reg: Compiler.Registry, g: Graph)
    requires Compiler.AllEdgesOk(reg, g) && UniqueNodes(g)
    ensures forall e :: e in g.edges ==> Joins(g, e)
  {
    forall e | e in g.edges ensures Joins(g, e) {
      assert Compiler.EdgeOk(reg, g, e);
      EdgeJoinsDeclared(reg, g, e);
    }
  }

  lemma DistinctIsUnique(g: Graph)
    requires Compiler.DistinctNodes(g) && Compiler.DistinctEdges(g)
    ensures UniqueNodes(g) && UniqueEdges(g)
  {
  }

  lemma EdgeJoinsDeclared(reg: Compiler.Registry, g: Graph, e: Edge)
    requires Compiler.EdgeOk(reg, g, e) && UniqueNodes(g)
    ensures Joins(g, e)
  {
    var s, d :| s in g.nodes && d in g.nodes && s.id == e.src && d.id == e.dst && Compiler.EdgeJoins(reg, s, d, e);
    assert NodeOf(g.nodes, e.src) == s;
  }

  lemma WiredTracks(g: Graph, s: State)
    requires Wired(g) && s.status.Keys == Ids(g)
    ensures Tracks(g, s)
  {
    forall e | e in g.edges ensures e.src in s.status {
      assert Joins(g, e);
    }
  }

  /* ---------- executors ---------- */

  /** Any behaviour of the executors that depends on the node and its inputs. */
  type Oracle = (NodeId, Inputs) -> Outcome

  /** A success delivers, under a non-empty artifact id, every output of the node that an edge reads. */
  ghost predicate Fills(g: Graph, n: NodeId, o: Outcome) {
    o.Success? ==> forall e :: e in g.edges && e.src == n ==> e.out in o.outputs && o.outputs[e.out].id != EMPTY_ID
  }

  ghost predicate FillsEdges(g: Graph, run: Oracle) {
    forall n, ins: Inputs :: n in Ids(g) ==> Fills(g, n, run(n, ins))
  }

  /** A success of a node that declares the final slot delivers it. */
  ghost predicate DeliversFinal(g: Graph, run: Oracle) {
    forall n: Node, ins: Inputs :: n in g.nodes && Compiler.Produces(g, n) && run(n.id, ins).Success? ==>
      g.finalSlot in run(n.id, ins).outputs
  }

  /* ---------- the loop ---------- */

  datatype Config = Config(st: State, store: Store)

  function InitState(g: Graph, bundle: map<Slot, Artifact>): State {
    State(map n | n in Ids(g) :: Pending, map[], IdsOf(bundle),
          set e | e in g.edges && e.cond.None? :: e.id, {}, None, false, 0, 0)
  }

  ghost function BundleArtifacts(bundle: map<Slot, Artifact>): set<Artifact> {
    set slot | slot in bundle :: bundle[slot]
  }

  ghost predicate IsInit(g: Graph, bundle: map<Slot, Artifact>, before: Store, c: Config) {
    c.st == InitState(g, bundle) && Stored(before, BundleArtifacts(bundle), c.store)
  }

  /** The artifacts delivered to a node's slots. */
  ghost function Delivered(g: Graph, s: State, store: Store, n: Node): Inputs {
    map slot | slot in n.inputs && ResolvedId(g, s, n.id, slot).Some? && ResolvedId(g, s, n.id, slot).value in store
      :: store[ResolvedId(g, s, n.id, slot).value]
  }

  /** What the executors return for the launched nodes. */
  ghost function Outcomes(g: Graph, run: Oracle, s: State, store: Store, ready: seq<NodeId>): (r: Results)
    ensures forall id :: id in r <==> id in ready && id in Ids(g)
  {
    map id | id in ready && id in Ids(g) :: run(id, Delivered(g, s, store, NodeOf(g.nodes, id)))
  }

  /** The results of the next wave, given the state at the top of the loop. */
  ghost function WaveResults(g: Graph, k: int, run: Oracle, c: Config): Results
    requires Tracks(g, c.st)
  {
    Outcomes(g, run, SkipPass(g, c.st), c.store, ReadyList(g, SkipPass(g, c.st), k))
  }

  lemma WaveResultsKeys(g: Graph, k: int, run: Oracle, c: Config)
    requires Tracks(g, c.st)
    ensures WaveResults(g, k, run, c).Keys == Elements(ReadyList(g, SkipPass(g, c.st), k))
    ensures WaveResults(g, k, run, c).Keys <= ReadySet(g, SkipPass(g, c.st)) <= c.st.status.Keys
  {
    var s1 := SkipPass(g, c.st);
    var ready := ReadyList(g, s1, k);
    assert ready <= Sorted(ReadySet(g, s1));
    forall id | id in ready ensures id in ReadySet(g, s1) {
      var i :| 0 <= i < |ready| && ready[i] == id;
      assert Sorted(ReadySet(g, s1))[i] == id;
    }
  }

  /** One full iteration: skip, launch the ready nodes, persist, commit. */
  ghost predicate Step(g: Graph, k: int, run: Oracle, c: Config, c': Config) {
    && Tracks(g, c.st)
    && !c.st.frozen
    && ReadyList(g, SkipPass(g, c.st), k) != []
    && WaveResults(g, k, run, c).Keys <= c.st.status.Keys
    && !Raises(g, WaveResults(g, k, run, c))
    && Stored(c.store, ArtifactsOf(WaveResults(g, k, run, c)), c'.store)
    && c'.st == Commit(g, SkipPass(g, c.st), WaveResults(g, k, run, c))
  }

  /** `GraphDeadlockError`: nothing is ready after the skip pass and nothing is final. */
  ghost predicate Deadlocks(g: Graph, k: int, s: State) {
    && Tracks(g, s)
    && !s.frozen
    && ReadyList(g, SkipPass(g, s), k) == []
    && SkipPass(g, s).final.None?
  }

  /* ---------- the invariant ---------- */

  ghost predicate StatusInv(g: Graph, s: State) {
    s.status.Keys == Ids(g) && forall id :: id in s.status ==> s.status[id] in {Pending, Succeeded, Failed, Skipped}
  }

  /** Outputs exist exactly for the succeeded nodes. */
  ghost predicate OutputInv(s: State) {
    forall id :: id in s.outputs <==> id in s.status && s.status[id] == Succeeded
  }

  /** The outputs that edges read are there, under non-empty ids. */
  ghost predicate AllFilled(g: Graph, s: State) {
    forall e :: e in g.edges && e.src in s.outputs ==> e.out in s.outputs[e.src] && s.outputs[e.src][e.out] != EMPTY_ID
  }

  /** So is the final slot of every node that declares it. */
  ghost predicate AllFinal(g: Graph, s: State) {
    forall n: Node :: n in g.nodes && Compiler.Produces(g, n) && n.id in s.outputs ==> g.finalSlot in s.outputs[n.id]
  }

  /** An unconditional edge is active; a conditional one is active or inactive, and not both,
      exactly if its source succeeded. */
  ghost predicate EdgeStatus(s: State, e: Edge) {
    && e.src in s.status
    && (e.cond.None? ==> e.id in s.active && e.id !in s.inactive)
    && (e.cond.Some? && s.status[e.src] == Succeeded ==> (e.id in s.active <==> e.id !in s.inactive))
    && (e.cond.Some? && s.status[e.src] != Succeeded ==> e.id !in s.active && e.id !in s.inactive)
  }

  ghost predicate EdgeInv(g: Graph, s: State) {
    && s.active <= EdgeIds(g) && s.inactive <= EdgeIds(g)
    && forall e :: e in g.edges ==> EdgeStatus(s, e)
  }

  /** Frozen, having a final artifact, and some node having delivered the final slot coincide,
      and the final artifact is one such delivery. */
  ghost predicate FreezeInv(g: Graph, s: State) {
    && (s.frozen <==> s.final.Some?)
    && (s.frozen <==> exists p :: p in s.outputs && g.finalSlot in s.outputs[p])
    && (s.frozen ==> FinalFrom(g, s, s.final))
  }

  ghost predicate StateInv(g: Graph, initial: map<Slot, ArtifactId>, s: State) {
    && StatusInv(g, s)
    && OutputInv(s)
    && EdgeInv(g, s)
    && FreezeInv(g, s)
    && s.initial == initial
    && s.waveId == s.checkpointCount
  }

  /** No edge id is both active and inactive. */
  lemma ActiveInactiveDisjoint(g: Graph, s: State)
    requires EdgeInv(g, s)
    ensures s.active !! s.inactive
  {
    forall id | id in s.active ensures id !in s.inactive {
      var e :| e in g.edges && e.id == id;
      assert EdgeStatus(s, e);
    }
  }

  lemma InitInv(g: Graph, bundle: map<Slot, Artifact>)
    requires Wired(g)
    ensures StateInv(g, IdsOf(bundle), InitState(g, bundle))
  {
    var s := InitState(g, bundle);
    forall e | e in g.edges ensures EdgeStatus(s, e) {
      assert Joins(g, e);
      if e.id in s.active {
        var d :| d in g.edges && d.cond.None? && d.id == e.id;
      }
    }
  }

  lemma SkipInv(g: Graph, initial: map<Slot, ArtifactId>, s: State)
    requires Wired(g) && StateInv(g, initial, s) && Tracks(g, s)
    ensures StateInv(g, initial, SkipPass(g, s))
  {
    var s' := SkipPass(g, s);
    forall id | id in s.status
      ensures s'.status[id] == s.status[id] || (s.status[id] == Pending && s'.status[id] == Skipped)
    {
    }
    forall e | e in g.edges ensures EdgeStatus(s', e) {
      assert EdgeStatus(s, e);
    }
  }

  /** The results of a wave: of pending nodes only. */
  ghost predicate GoodResults(s: State, results: Results) {
    forall id :: id in results ==> id in s.status && s.status[id] == Pending
  }

  /** Each result delivers the outputs that edges read; each producer delivers the final slot. */
  ghost predicate FullResults(g: Graph, results: Results) {
    forall n :: n in results ==> Fills(g, n, results[n])
  }

  ghost predicate FinalResults(g: Graph, results: Results) {
    forall n: Node :: n in g.nodes && Compiler.Produces(g, n) && n.id in results && results[n.id].Success? ==>
      g.finalSlot in results[n.id].outputs
  }

  lemma ApplyStatusInv(g: Graph, s: State, results: Results)
    requires StatusInv(g, s) && GoodResults(s, results)
    ensures StatusInv(g, Apply(g, s, results))
  {
    assert Apply(g, s, results).status.Keys == s.status.Keys;
  }

  lemma ApplyOutputs(g: Graph, s: State, results: Results, id: NodeId)
    requires StatusInv(g, s) && OutputInv(s) && GoodResults(s, results)
    ensures var s' := Apply(g, s, results);
      && (id in s'.outputs <==> id in s'.status && s'.status[id] == Succeeded)
      && (id in s.outputs ==> id in s'.outputs && s'.outputs[id] == s.outputs[id])
      && (id in results && results[id].Success? ==> id in s'.outputs && s'.outputs[id] == IdsOf(results[id].outputs))
      && (id in s'.outputs ==> id in s.outputs || (id in results && results[id].Success?))
  {
    assert id in NewOutputs(results) <==> id in results && results[id].Success?;
    assert id in Statuses(results) <==> id in results;
  }

  lemma ApplyOutputInv(g: Graph, s: State, results: Results)
    requires StatusInv(g, s) && OutputInv(s) && GoodResults(s, results)
    ensures OutputInv(Apply(g, s, results))
  {
    var s' := Apply(g, s, results);
    forall id ensures id in s'.outputs <==> id in s'.status && s'.status[id] == Succeeded {
      ApplyOutputs(g, s, results, id);
    }
  }

  lemma ApplyFilled(g: Graph, s: State, results: Results)
    requires StatusInv(g, s) && OutputInv(s) && GoodResults(s, results)
    requires AllFilled(g, s) && FullResults(g, results)
    ensures AllFilled(g, Apply(g, s, results))
  {
    var s' := Apply(g, s, results);
    forall e | e in g.edges && e.src in s'.outputs
      ensures e.out in s'.outputs[e.src] && s'.outputs[e.src][e.out] != EMPTY_ID
    {
      ApplyOutputs(g, s, results, e.src);
      assert e.src !in s.outputs ==> Fills(g, e.src, results[e.src]);
    }
  }

  lemma ApplyFinal(g: Graph, s: State, results: Results)
    requires StatusInv(g, s) && OutputInv(s) && GoodResults(s, results)
    requires AllFinal(g, s) && FinalResults(g, results)
    ensures AllFinal(g, Apply(g, s, results))
  {
    var s' := Apply(g, s, results);
    forall n: Node | n in g.nodes && Compiler.Produces(g, n) && n.id in s'.outputs
      ensures g.finalSlot in s'.outputs[n.id]
    {
      ApplyOutputs(g, s, results, n.id);
    }
  }

  lemma FiredIff(g: Graph, results: Results, e: Edge)
    requires UniqueEdges(g) && e in g.edges
    ensures e.id in FiredIds(g, results) <==> Fires(results, e)
    ensures e.id in BlockedIds(g, results) <==> Blocks(results, e)
  {
  }

  lemma ApplyEdgeInv(g: Graph, s: State, results: Results)
    requires Wired(g) && StatusInv(g, s) && EdgeInv(g, s) && GoodResults(s, results)
    ensures EdgeInv(g, Apply(g, s, results))
  {
    var s' := Apply(g, s, results);
    forall e | e in g.edges ensures EdgeStatus(s', e) {
      assert EdgeStatus(s, e);
      FiredIff(g, results, e);
    }
  }

  /** Some node has delivered the final slot under this id. */
  ghost predicate FinalFrom(g: Graph, s: State, id: Option<ArtifactId>) {
    exists p :: p in s.outputs && g.finalSlot in s.outputs[p] && id == Some(s.outputs[p][g.finalSlot])
  }

  lemma ApplyFreezeInv(g: Graph, s: State, results: Results)
    requires StatusInv(g, s) && OutputInv(s) && FreezeInv(g, s) && GoodResults(s, results)
    ensures FreezeInv(g, Apply(g, s, results))
  {
    var s' := Apply(g, s, results);
    if s.frozen {
      var p :| p in s.outputs && g.finalSlot in s.outputs[p] && s.final == Some(s.outputs[p][g.finalSlot]);
      ApplyOutputs(g, s, results, p);
      assert FinalFrom(g, s', s'.final);
    } else if Finalists(g, results) != {} {
      NewFinal(g, s, results, Min(Finalists(g, results)));
    } else {
      forall p | p in s'.outputs ensures g.finalSlot !in s'.outputs[p] {
        ApplyOutputs(g, s, results, p);
        assert p !in Finalists(g, results);
      }
    }
  }

  lemma NewFinal(g: Graph, s: State, results: Results, p: NodeId)
    requires StatusInv(g, s) && OutputInv(s) && GoodResults(s, results)
    requires p in Finalists(g, results)
    ensures FinalFrom(g, Apply(g, s, results), Some(results[p].outputs[g.finalSlot].id))
    ensures exists q :: q in Apply(g, s, results).outputs && g.finalSlot in Apply(g, s, results).outputs[q]
  {
    ApplyOutputs(g, s, results, p);
    assert g.finalSlot in Apply(g, s, results).outputs[p];
  }

  lemma ApplyInv(g: Graph, initial: map<Slot, ArtifactId>, s: State, results: Results)
    requires Wired(g) && StateInv(g, initial, s) && GoodResults(s, results)
    ensures StateInv(g, initial, Apply(g, s, results))
  {
    ApplyStatusInv(g, s, results);
    ApplyOutputInv(g, s, results);
    ApplyEdgeInv(g, s, results);
    ApplyFreezeInv(g, s, results);
  }

  lemma CommitInv(g: Graph, initial: map<Slot, ArtifactId>, s: State, results: Results)
    requires Wired(g) && StateInv(g, initial, s) && Tracks(g, s) && GoodResults(s, results)
    requires results.Keys <= s.status.Keys
    ensures StateInv(g, initial, Commit(g, s, results))
  {
    ApplyInv(g, initial, s, results);
    ApplyTracks(g, s, results);
    CloseInv(g, initial, Apply(g, s, results));
  }

  lemma CloseInv(g: Graph, initial: map<Slot, ArtifactId>, s: State)
    requires Wired(g) && StateInv(g, initial, s) && Tracks(g, s)
    ensures StateInv(g, initial, Close(g, s))
  {
    SkipInv(g, initial, s);
    CountInv(g, initial, SkipPass(g, s));
  }

  lemma CountInv(g: Graph, initial: map<Slot, ArtifactId>, s: State)
    requires StateInv(g, initial, s)
    ensures StateInv(g, initial, s.(waveId := s.waveId + 1, checkpointCount := s.checkpointCount + 1))
  {
    var s' := s.(waveId := s.waveId + 1, checkpointCount := s.checkpointCount + 1);
    forall e | e in g.edges ensures EdgeStatus(s', e) {
      assert EdgeStatus(s, e);
    }
  }

  lemma WaveIsGood(g: Graph, k: int, run: Oracle, c: Config)
    requires Wired(g) && Tracks(g, c.st)
    ensures WaveResults(g, k, run, c).Keys <= c.st.status.Keys
    ensures GoodResults(SkipPass(g, c.st), WaveResults(g, k, run, c))
  {
    WaveResultsKeys(g, k, run, c);
  }

  lemma WaveIsFull(g: Graph, k: int, run: Oracle, c: Config)
    requires Wired(g) && Tracks(g, c.st)
    ensures FillsEdges(g, run) ==> FullResults(g, WaveResults(g, k, run, c))
    ensures DeliversFinal(g, run) ==> FinalResults(g, WaveResults(g, k, run, c))
  {
    var results := WaveResults(g, k, run, c);
    forall n: Node | n in g.nodes && n.id in results ensures NodeOf(g.nodes, n.id) == n {
    }
  }

  lemma StepInv(g: Graph, initial: map<Slot, ArtifactId>, k: int, run: Oracle, c: Config, c': Config)
    requires Wired(g) && StateInv(g, initial, c.st) && Step(g, k, run, c, c')
    ensures StateInv(g, initial, c'.st)
  {
    WaveIsGood(g, k, run, c);
    SkipInv(g, initial, c.st);
    CommitInv(g, initial, SkipPass(g, c.st), WaveResults(g, k, run, c));
  }

  lemma StepFilled(g: Graph, initial: map<Slot, ArtifactId>, k: int, run: Oracle, c: Config, c': Config)
    requires Wired(g) && StateInv(g, initial, c.st) && Step(g, k, run, c, c')
    ensures FillsEdges(g, run) && AllFilled(g, c.st) ==> AllFilled(g, c'.st)
    ensures DeliversFinal(g, run) && AllFinal(g, c.st) ==> AllFinal(g, c'.st)
  {
    var s1, results := SkipPass(g, c.st), WaveResults(g, k, run, c);
    WaveIsGood(g, k, run, c);
    WaveIsFull(g, k, run, c);
    SkipInv(g, initial, c.st);
    if FillsEdges(g, run) && AllFilled(g, c.st) {
      ApplyFilled(g, s1, results);
    }
    if DeliversFinal(g, run) && AllFinal(g, c.st) {
      ApplyFinal(g, s1, results);
    }
  }

  /* ---------- runs ---------- */

  /** The later store has everything that the earlier one has. */
  ghost predicate Keeps(store: Store, store': Store) {
    forall id :: id in store ==> id in store' && store'[id] == store[id]
  }

  /** How one wave of a run comes about: the limit and the executors of the process that commits it,
      and the store it starts from, which may hold more than the last commit left there. */
  datatype Turn = Turn(limit: int, run: Oracle, store: Store)

  /** Memory and disk at the top of the loop in turn i. */
  ghost function TopAt(turns: seq<Turn>, trace: seq<Config>, i: nat): Config
    requires i < |turns| <= |trace|
  {
    Config(trace[i].st, turns[i].store)
  }

  ghost predicate StepAt(g: Graph, turns: seq<Turn>, trace: seq<Config>, i: nat)
    requires i < |turns| < |trace|
  {
    Keeps(trace[i].store, turns[i].store) && Step(g, turns[i].limit, turns[i].run, TopAt(turns, trace, i), trace[i + 1])
  }

  ghost predicate PointAt(g: Graph, initial: map<Slot, ArtifactId>, turns: seq<Turn>, trace: seq<Config>, i: nat)
    requires i <= |turns| < |trace|
  {
    && (i == 0 ==> StateInv(g, initial, trace[0].st))
    && (i < |turns| ==> StepAt(g, turns, trace, i))
  }

  /** A run from any state that satisfies the invariant. Limit and executors may differ from wave to
      wave, and artifacts may have been added in between, as they are when processes die and others
      resume; an uninterrupted run is the case in which nothing differs and nothing is added. */
  ghost predicate IsRun(g: Graph, initial: map<Slot, ArtifactId>, turns: seq<Turn>, trace: seq<Config>) {
    && |trace| == |turns| + 1
    && forall i {:trigger PointAt(g, initial, turns, trace, i)} :: 0 <= i <= |turns| ==>
        PointAt(g, initial, turns, trace, i)
  }

  lemma TurnStep(g: Graph, initial: map<Slot, ArtifactId>, turns: seq<Turn>, trace: seq<Config>, i: nat)
    requires IsRun(g, initial, turns, trace) && i < |turns|
    ensures Keeps(trace[i].store, turns[i].store)
    ensures Step(g, turns[i].limit, turns[i].run, TopAt(turns, trace, i), trace[i + 1])
  {
    assert PointAt(g, initial, turns, trace, i);
  }

  /** Every state of every run satisfies the invariant, whatever the executors return, whatever the
      limits and whatever is left in the store. */
  lemma {:induction false} RunInv(g: Graph, initial: map<Slot, ArtifactId>, turns: seq<Turn>, trace: seq<Config>,
                                  i: nat)
    requires Wired(g) && IsRun(g, initial, turns, trace) && i <= |turns|
    ensures StateInv(g, initial, trace[i].st)
  {
    if i == 0 {
      assert PointAt(g, initial, turns, trace, 0);
    } else {
      RunInv(g, initial, turns, trace, i - 1);
      NextInv(g, initial, turns, trace, i - 1);
    }
  }

  lemma NextInv(g: Graph, initial: map<Slot, ArtifactId>, turns: seq<Turn>, trace: seq<Config>, i: nat)
    requires Wired(g) && IsRun(g, initial, turns, trace) && i < |turns| && StateInv(g, initial, trace[i].st)
    ensures StateInv(g, initial, trace[i + 1].st)
  {
    TurnStep(g, initial, turns, trace, i);
    StepInv(g, initial, turns[i].limit, turns[i].run, TopAt(turns, trace, i), trace[i + 1]);
  }

  ghost predicate AllFill(g: Graph, turns: seq<Turn>) {
    forall t :: t in turns ==> FillsEdges(g, t.run)
  }

  ghost predicate AllDeliver(g: Graph, turns: seq<Turn>) {
    forall t :: t in turns ==> DeliversFinal(g, t.run)
  }

  lemma NextFilled(g: Graph, initial: map<Slot, ArtifactId>, turns: seq<Turn>, trace: seq<Config>, i: nat)
    requires Wired(g) && IsRun(g, initial, turns, trace) && i < |turns|
    ensures AllFill(g, turns) && AllFilled(g, trace[i].st) ==> AllFilled(g, trace[i + 1].st)
    ensures AllDeliver(g, turns) && AllFinal(g, trace[i].st) ==> AllFinal(g, trace[i + 1].st)
  {
    RunInv(g, initial, turns, trace, i);
    TurnStep(g, initial, turns, trace, i);
    assert turns[i] in turns;
    StepFilled(g, initial, turns[i].limit, turns[i].run, TopAt(turns, trace, i), trace[i + 1]);
  }

  /** If the executors deliver what edges read, and the final slot, so do the outputs of every state. */
  lemma {:induction false} RunFilled(g: Graph, initial: map<Slot, ArtifactId>, turns: seq<Turn>, trace: seq<Config>,
                                     i: nat)
    requires Wired(g) && IsRun(g, initial, turns, trace) && i <= |turns|
    ensures AllFill(g, turns) && AllFilled(g, trace[0].st) ==> AllFilled(g, trace[i].st)
    ensures AllDeliver(g, turns) && AllFinal(g, trace[0].st) ==> AllFinal(g, trace[i].st)
  {
    if i > 0 {
      RunFilled(g, initial, turns, trace, i - 1);
      NextFilled(g, initial, turns, trace, i - 1);
    }
  }

  /* ---------- putting runs together ---------- */

  lemma RunOfOne(g: Graph, initial: map<Slot, ArtifactId>, c: Config)
    requires StateInv(g, initial, c.st)
    ensures IsRun(g, initial, [], [c])
  {
    assert PointAt(g, initial, [], [c], 0);
  }

  /** One more wave, by whatever process. */
  lemma RunExtend(g: Graph, initial: map<Slot, ArtifactId>, turns: seq<Turn>, trace: seq<Config>, t: Turn, c: Config)
    requires IsRun(g, initial, turns, trace) && Keeps(trace[|turns|].store, t.store)
    requires Step(g, t.limit, t.run, Config(trace[|turns|].st, t.store), c)
    ensures IsRun(g, initial, turns + [t], trace + [c])
  {
    var turns', trace' := turns + [t], trace + [c];
    forall i {:trigger PointAt(g, initial, turns', trace', i)} | 0 <= i <= |turns'|
      ensures PointAt(g, initial, turns', trace', i)
    {
      if i < |turns| {
        assert PointAt(g, initial, turns, trace, i);
      } else if i == |turns| {
        assert PointAt(g, initial, turns, trace, i);
      }
    }
  }
}
