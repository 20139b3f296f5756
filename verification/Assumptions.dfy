/** Where the assumptions of the other modules matter: what happens without them, on concrete
    graphs, and exactly when a limit below one spoils a run. */
module Assumptions {
  import opened Types
  import opened Sorting
  import opened Layering
  import opened Scheduling
  import opened Stores
  import opened Committing
  import opened Runs
  import opened Progress
  import opened Endings
  import Compiler

  /* ---------- the limit ---------- */

  /** The error is raised exactly when nothing is ready, or when the limit, which nothing
      validates, cuts everything off: Python reads a negative one from the end of the list. */
  lemma DeadlockIff(g: Graph, initial: map<Slot, ArtifactId>, k: int, s: State)
    requires Wired(g) && StateInv(g, initial, s) && Tracks(g, s)
    ensures Deadlocks(g, k, s) <==>
            !s.frozen && (var ready := |ReadySet(g, SkipPass(g, s))|; ready == 0 || k == 0 || (k < 0 && ready <= -k))
  {
    SkipFacts(g, initial, s);
    SliceEmpty(Sorted(ReadySet(g, SkipPass(g, s))), k);
  }

  lemma SkipFacts(g: Graph, initial: map<Slot, ArtifactId>, s: State)
    requires Wired(g) && StateInv(g, initial, s) && Tracks(g, s)
    ensures SkipPass(g, s).final.None? <==> !s.frozen
  {
  }

  lemma SliceEmpty(xs: seq<NodeId>, k: int)
    ensures Slice(xs, k) == [] <==> xs == [] || k == 0 || (k < 0 && |xs| <= -k)
  {
  }

  /* ---------- full outputs ---------- */

  /** The edge may still carry something, as far as the scheduler can tell. */
  ghost predicate Open(s: State, e: Edge)
    requires e.src in s.status
  {
    !Available(s, e) && !Dead(s, e)
  }

  /** An edge is open after its source has settled exactly if the source succeeded, left the edge
      active, and did not deliver that output: what a success that fills only the first of several
      declared slots does. */
  lemma OpenAfterSource(s: State, e: Edge)
    requires EdgeStatus(s, e) && Terminal(s.status[e.src])
    requires s.status[e.src] == Succeeded ==> e.src in s.outputs
    requires s.status[e.src] != Succeeded ==> e.src !in s.outputs
    ensures Open(s, e) <==> s.status[e.src] == Succeeded && e.id in s.active
                            && (e.out in s.outputs[e.src] ==> s.outputs[e.src][e.out] == EMPTY_ID)
  {
  }

  /** Nothing has come through these edges yet, and something may still come. */
  ghost predicate Waits(g: Graph, s: State, n: Node, slot: Slot)
    requires Tracks(g, s)
  {
    exists e :: e in EdgesInto(g.edges, n.id, slot) && Open(s, e)
  }

  lemma AvailableIsLive(g: Graph, initial: map<Slot, ArtifactId>, s: State, e: Edge)
    requires StateInv(g, initial, s) && e in g.edges && e.src in s.status && Available(s, e)
    ensures !Dead(s, e)
  {
    assert EdgeStatus(s, e);
  }

  lemma BoundHasEdge(g: Graph, initial: map<Slot, ArtifactId>, n: Node, slot: Slot)
    requires Wired(g) && Supplied(g, initial) && n in g.nodes && slot in n.inputs && slot !in initial
    ensures EdgesInto(g.edges, n.id, slot) != []
  {
    assert Compiler.Bound(g, n, slot);
    var e :| e in g.edges && Feeds(e, n.id, slot);
    assert e in EdgesInto(g.edges, n.id, slot);
  }

  lemma StarvedNeverWaits(g: Graph, initial: map<Slot, ArtifactId>, s: State, n: Node, slot: Slot)
    requires StateInv(g, initial, s) && Tracks(g, s) && Starved(g, s, n.id, slot)
    ensures ResolvedId(g, s, n.id, slot).None? && !Waits(g, s, n, slot)
  {
    forall e | e in EdgesInto(g.edges, n.id, slot) ensures !Available(s, e) {
      if Available(s, e) {
        AvailableIsLive(g, initial, s, e);
      }
    }
  }

  lemma StarvedIff(g: Graph, initial: map<Slot, ArtifactId>, s: State, n: Node, slot: Slot)
    requires Wired(g) && Supplied(g, initial) && StateInv(g, initial, s) && Tracks(g, s)
    requires n in g.nodes && slot in n.inputs
    ensures Starved(g, s, n.id, slot) <==> ResolvedId(g, s, n.id, slot).None? && !Waits(g, s, n, slot)
  {
    if Starved(g, s, n.id, slot) {
      StarvedNeverWaits(g, initial, s, n, slot);
    } else if ResolvedId(g, s, n.id, slot).None? {
      BoundHasEdge(g, initial, n, slot);
      var e :| e in EdgesInto(g.edges, n.id, slot) && !Dead(s, e);
      assert Open(s, e);
    }
  }

  /** Whatever the executors deliver, a pending node is neither ready nor impossible exactly if some of
      its slots have nothing yet, and each of these has an open edge. */
  lemma StuckIff(g: Graph, initial: map<Slot, ArtifactId>, s: State, n: Node)
    requires Wired(g) && Supplied(g, initial) && StateInv(g, initial, s) && Tracks(g, s)
    requires n in g.nodes && s.status[n.id] == Pending
    ensures !IsReady(g, s, n) && !IsImpossible(g, s, n) <==>
            && (exists slot :: slot in n.inputs && ResolvedId(g, s, n.id, slot).None?)
            && (forall slot :: slot in n.inputs && ResolvedId(g, s, n.id, slot).None? ==> Waits(g, s, n, slot))
  {
    forall slot | slot in n.inputs
      ensures Starved(g, s, n.id, slot) <==> ResolvedId(g, s, n.id, slot).None? && !Waits(g, s, n, slot)
    {
      StarvedIff(g, initial, s, n, slot);
    }
  }

  /* ---------- the first wave without conditions ---------- */

  /** The state after a first wave with these results. */
  ghost function After(g: Graph, bundle: map<Slot, Artifact>, results: Results): State {
    var s := InitState(g, bundle);
    s.(status := s.status + Statuses(results), outputs := NewOutputs(results), waveId := 1, checkpointCount := 1)
  }

  /** Successes of some of the nodes, without the final slot. */
  ghost predicate Intermediate(g: Graph, results: Results) {
    && results.Keys <= Ids(g)
    && forall id :: id in results ==> results[id].Success? && g.finalSlot !in results[id].outputs
  }

  lemma PlainApply(g: Graph, s: State, results: Results)
    requires Unconditional(g) && !s.frozen && s.outputs == map[] && Intermediate(g, results)
    ensures Apply(g, s, results) == s.(status := s.status + Statuses(results), outputs := NewOutputs(results))
    ensures !Raises(g, results)
  {
    assert FiredIds(g, results) == {} && BlockedIds(g, results) == {} && Finalists(g, results) == {};
    assert s.outputs + NewOutputs(results) == NewOutputs(results);
  }

  lemma StartFacts(g: Graph, bundle: map<Slot, Artifact>)
    requires Wired(g) && Unconditional(g)
    ensures var s := InitState(g, bundle); StateInv(g, IdsOf(bundle), s) && Tracks(g, s) && SkipPass(g, s) == s
  {
    var s := InitState(g, bundle);
    InitInv(g, bundle);
    WiredTracks(g, s);
    NothingImpossible(g, IdsOf(bundle), s);
  }

  lemma FirstApplied(g: Graph, bundle: map<Slot, Artifact>, results: Results)
    requires Wired(g) && Unconditional(g) && Intermediate(g, results)
    ensures var s := Apply(g, InitState(g, bundle), results);
      Tracks(g, s) && StateInv(g, IdsOf(bundle), s) && SkipPass(g, s) == s
  {
    var s := InitState(g, bundle);
    var applied := Apply(g, s, results);
    StartFacts(g, bundle);
    PlainApply(g, s, results);
    ApplyInv(g, IdsOf(bundle), s, results);
    WiredTracks(g, applied);
    NothingImpossible(g, IdsOf(bundle), applied);
  }

  lemma FirstCommit(g: Graph, bundle: map<Slot, Artifact>, results: Results)
    requires Wired(g) && Unconditional(g) && Intermediate(g, results)
    requires var s := InitState(g, bundle); Tracks(g, s) && results.Keys <= s.status.Keys
    ensures Commit(g, InitState(g, bundle), results) == After(g, bundle, results)
  {
    FirstApplied(g, bundle, results);
    PlainApply(g, InitState(g, bundle), results);
  }

  lemma AfterFacts(g: Graph, bundle: map<Slot, Artifact>, results: Results)
    requires Wired(g) && Unconditional(g) && Intermediate(g, results)
    ensures var s := After(g, bundle, results);
      StateInv(g, IdsOf(bundle), s) && Tracks(g, s) && NoneLost(s) && SkipPass(g, s) == s && ImpossibleSet(g, s) == {}
  {
    var s, s' := InitState(g, bundle), After(g, bundle, results);
    StartFacts(g, bundle);
    FirstCommit(g, bundle, results);
    CommitInv(g, IdsOf(bundle), s, results);
    WiredTracks(g, s');
    NothingImpossible(g, IdsOf(bundle), s');
  }

  /** These are the results of the first wave. */
  ghost predicate IsFirst(g: Graph, bundle: map<Slot, Artifact>, k: int, run: Oracle, c: Config, results: Results) {
    && c.st == InitState(g, bundle) && Tracks(g, c.st) && WaveResults(g, k, run, c) == results
    && Intermediate(g, results) && results != map[]
  }

  /** Without conditional edges, this is where such a wave leads. */
  lemma FirstWave(g: Graph, bundle: map<Slot, Artifact>, k: int, run: Oracle, c: Config, results: Results, after: Store)
    requires Wired(g) && Unconditional(g) && IsFirst(g, bundle, k, run, c, results)
    requires Stored(c.store, ArtifactsOf(results), after)
    ensures Step(g, k, run, c, Config(After(g, bundle, results), after))
  {
    StartFacts(g, bundle);
    PlainApply(g, c.st, results);
    FirstCommit(g, bundle, results);
    WaveResultsKeys(g, k, run, c);
  }

  /* ---------- one graph, two ways to go wrong ---------- */

  const REPAIR: Slot := 5
  const DRAFT: Slot := 6
  const CODE: Slot := 7
  const FINAL: Slot := 8

  /** `repair_to_code` reads the slot "repair". This one declares a draft besides the code. */
  function Repair(id: NodeId): Node { Node(id, Transform(0), map[REPAIR := 1], map[DRAFT := 2, CODE := 2]) }

  /** The initial artifact. */
  function Repairable(a: Artifact): map<Slot, Artifact> { map[REPAIR := a] }

  /** `freeze_code` reads the slot "code". */
  function Freeze(): Node { Node(2, Transform(1), map[CODE := 2], map[FINAL := 3]) }

  function FromLate(): Edge { Edge(0, 3, CODE, 2, CODE, None) }

  function FromEarly(): Edge { Edge(1, 1, CODE, 2, CODE, None) }

  /** Two repairs of one initial artifact feed the one slot of node 2, and the edge from the later
      one is listed first. */
  ghost predicate IsJoin(g: Graph) {
    && Compiler.DistinctNodes(g) && (forall n :: n in g.nodes <==> n in {Repair(1), Freeze(), Repair(3)})
    && g.edges == [FromLate(), FromEarly()] && g.initialSlots == map[REPAIR := 1] && g.finalSlot == FINAL
  }

  lemma JoinExists()
    ensures exists g :: IsJoin(g)
  {
    var nodes := [Repair(1), Freeze(), Repair(3)];
    var g := Graph(nodes, [FromLate(), FromEarly()], map[REPAIR := 1], FINAL, 0);
    assert nodes[0] == Repair(1) && nodes[1] == Freeze() && nodes[2] == Repair(3);
    assert IsJoin(g);
  }

  lemma JoinIds(g: Graph)
    requires IsJoin(g)
    ensures Ids(g) == {1, 2, 3}
  {
    assert Repair(1) in g.nodes && Freeze() in g.nodes && Repair(3) in g.nodes;
  }

  lemma JoinShape(g: Graph)
    requires IsJoin(g)
    ensures forall e :: e in g.edges <==> e in {FromLate(), FromEarly()}
    ensures EdgeIds(g) == {0, 1} && Compiler.DistinctEdges(g)
  {
    assert g.edges[0] == FromLate() && g.edges[1] == FromEarly();
  }

  lemma JoinIsAcyclic(g: Graph)
    requires IsJoin(g)
    ensures Acyclic(g.edges)
  {
    forall w | IsWalk(g.edges, w) && |w| >= 2 ensures w[0] != w[|w| - 1] {
      assert Linked(g.edges, w[0], w[1]) && Linked(g.edges, w[|w| - 2], w[|w| - 2 + 1]);
    }
  }

  lemma JoinEdgesOk(reg: Compiler.Registry, g: Graph)
    requires IsJoin(g)
    ensures Compiler.AllEdgesOk(reg, g)
  {
    JoinShape(g);
    assert Repair(1) in g.nodes && Freeze() in g.nodes && Repair(3) in g.nodes;
    assert Compiler.EdgeJoins(reg, Repair(1), Freeze(), FromEarly());
    assert Compiler.EdgeJoins(reg, Repair(3), Freeze(), FromLate());
  }

  lemma JoinNodesOk(reg: Compiler.Registry, g: Graph)
    requires IsJoin(g) && {0, 1} <= reg.transforms
    ensures Compiler.AllNodesOk(reg, g)
  {
    assert 0 in reg.transforms && 1 in reg.transforms;
    assert Compiler.NodeOk(reg, Repair(1)) && Compiler.NodeOk(reg, Freeze()) && Compiler.NodeOk(reg, Repair(3));
  }

  lemma JoinIsBound(g: Graph)
    requires IsJoin(g)
    ensures Compiler.AllBound(g) && Compiler.RootSlotsMatch(g)
  {
    JoinShape(g);
    assert Feeds(FromLate(), 2, CODE);
  }

  lemma JoinStarts(g: Graph)
    requires IsJoin(g)
    ensures Compiler.EntryIds(g) != {} && Compiler.ProducerIds(g) != {}
  {
    assert Repair(1) in g.nodes && Compiler.IsEntry(g, Repair(1));
    assert Freeze() in g.nodes && Compiler.Produces(g, Freeze());
    assert Repair(1).id in Compiler.EntryIds(g) && Freeze().id in Compiler.ProducerIds(g);
  }

  /** The compiler accepts it. */
  lemma JoinCompiles(reg: Compiler.Registry, g: Graph)
    requires IsJoin(g) && {0, 1} <= reg.transforms
    ensures Compiler.Verdict(reg, g).None? && Wired(g) && Unconditional(g)
  {
    JoinShape(g);
    JoinIsAcyclic(g);
    JoinEdgesOk(reg, g);
    JoinIsBound(g);
    JoinStarts(g);
    JoinNodesOk(reg, g);
    Compiler.UnreachableNeverFires(reg, g);
    DistinctIsUnique(g);
    AllJoin(reg, g);
  }

  /** What the two repairs return for the initial artifact. */
  ghost predicate Answers(run: Oracle, a: Artifact, early: Outcome, late: Outcome) {
    && run(1, Repairable(a)) == early && early.Success? && FINAL !in early.outputs
    && run(3, Repairable(a)) == late && late.Success? && FINAL !in late.outputs
  }

  /** The results of the first wave under limit k. */
  function FirstOf(k: int, early: Outcome, late: Outcome): Results {
    if k == 1 then map[1 := early] else map[1 := early, 3 := late]
  }

  /** The state after it. */
  ghost function NextOf(g: Graph, k: int, a: Artifact, early: Outcome, late: Outcome): State {
    After(g, Repairable(a), FirstOf(k, early, late))
  }

  ghost predicate JoinOk(g: Graph) {
    IsJoin(g) && Wired(g) && Unconditional(g)
  }

  lemma HoldsBundle(g: Graph, a: Artifact, before: Store, c: Config)
    requires IsInit(g, Repairable(a), before, c)
    ensures c.st == InitState(g, Repairable(a)) && a.id in c.store && c.store[a.id] == a
  {
    assert Repairable(a)[REPAIR] in BundleArtifacts(Repairable(a));
  }

  lemma StartsReady(g: Graph, a: Artifact, n: Node)
    requires n in {Repair(1), Freeze(), Repair(3)} && n.id in InitState(g, Repairable(a)).status
    ensures IsReady(g, InitState(g, Repairable(a)), n) <==> n != Freeze()
  {
    if n == Freeze() {
      assert CODE in n.inputs && ResolvedId(g, InitState(g, Repairable(a)), 2, CODE).None?;
    }
  }

  lemma JoinReady(g: Graph, a: Artifact, s: State)
    requires JoinOk(g) && s == InitState(g, Repairable(a)) && Tracks(g, s)
    ensures ReadySet(g, s) == {1, 3}
  {
    assert Repair(1) in g.nodes && Repair(3) in g.nodes && Freeze() in g.nodes;
    StartsReady(g, a, Repair(1));
    StartsReady(g, a, Repair(3));
    StartsReady(g, a, Freeze());
  }

  lemma RepairInputs(g: Graph, id: NodeId, a: Artifact, s: State, store: Store)
    requires IsJoin(g) && id in {1, 3} && s.initial == IdsOf(Repairable(a)) && a.id in store && store[a.id] == a
    ensures id in Ids(g) && Delivered(g, s, store, NodeOf(g.nodes, id)) == Repairable(a)
  {
    assert Repair(id) in g.nodes && NodeOf(g.nodes, id) == Repair(id);
    assert ResolvedId(g, s, id, REPAIR) == Some(a.id);
  }

  lemma OutcomesAre(g: Graph, run: Oracle, s: State, store: Store, ready: seq<NodeId>, results: Results)
    requires results.Keys == Elements(ready) <= Ids(g)
    requires forall id :: id in results ==> results[id] == run(id, Delivered(g, s, store, NodeOf(g.nodes, id)))
    ensures Outcomes(g, run, s, store, ready) == results
  {
  }

  lemma FirstKeys(k: int, early: Outcome, late: Outcome)
    requires k >= 1
    ensures FirstOf(k, early, late).Keys == Elements(Slice<NodeId>([1, 3], k))
  {
    assert Slice<NodeId>([1, 3], k) == if k == 1 then [1] else [1, 3];
  }

  lemma AnswerIs(g: Graph, k: int, run: Oracle, a: Artifact, s: State, store: Store, early: Outcome, late: Outcome,
                 id: NodeId)
    requires IsJoin(g) && Answers(run, a, early, late) && id in FirstOf(k, early, late)
    requires s.initial == IdsOf(Repairable(a)) && a.id in store && store[a.id] == a
    ensures id in Ids(g) && FirstOf(k, early, late)[id] == run(id, Delivered(g, s, store, NodeOf(g.nodes, id)))
  {
    RepairInputs(g, id, a, s, store);
  }

  lemma JoinOutcomes(g: Graph, k: int, run: Oracle, a: Artifact, s: State, store: Store, early: Outcome, late: Outcome)
    requires IsJoin(g) && k >= 1 && Answers(run, a, early, late)
    requires s.initial == IdsOf(Repairable(a)) && a.id in store && store[a.id] == a
    ensures Outcomes(g, run, s, store, Slice<NodeId>([1, 3], k)) == FirstOf(k, early, late)
  {
    var results := FirstOf(k, early, late);
    forall id | id in results
      ensures id in Ids(g) && results[id] == run(id, Delivered(g, s, store, NodeOf(g.nodes, id)))
    {
      AnswerIs(g, k, run, a, s, store, early, late, id);
    }
    FirstKeys(k, early, late);
    OutcomesAre(g, run, s, store, Slice<NodeId>([1, 3], k), results);
  }

  lemma WaveIs(g: Graph, k: int, run: Oracle, c: Config, ready: seq<NodeId>)
    requires Tracks(g, c.st) && SkipPass(g, c.st) == c.st
    requires Increasing(ready) && forall id :: id in ready <==> id in ReadySet(g, c.st)
    ensures WaveResults(g, k, run, c) == Outcomes(g, run, c.st, c.store, Slice(ready, k))
  {
    SortedUnique(ready, ReadySet(g, c.st));
  }

  lemma JoinWave(g: Graph, k: int, run: Oracle, a: Artifact, c: Config, early: Outcome, late: Outcome)
    requires JoinOk(g) && k >= 1 && Answers(run, a, early, late)
    requires c.st == InitState(g, Repairable(a)) && a.id in c.store && c.store[a.id] == a
    ensures IsFirst(g, Repairable(a), k, run, c, FirstOf(k, early, late))
  {
    StartFacts(g, Repairable(a));
    JoinReady(g, a, c.st);
    WaveIs(g, k, run, c, [1, 3]);
    JoinOutcomes(g, k, run, a, c.st, c.store, early, late);
    FirstIsIntermediate(g, k, run, a, early, late);
  }

  lemma FirstIsIntermediate(g: Graph, k: int, run: Oracle, a: Artifact, early: Outcome, late: Outcome)
    requires IsJoin(g) && Answers(run, a, early, late)
    ensures Intermediate(g, FirstOf(k, early, late)) && FirstOf(k, early, late) != map[]
  {
    JoinIds(g);
    assert 1 in FirstOf(k, early, late);
  }

  /** The first wave, whatever the two repairs deliver. */
  lemma JoinStep(g: Graph, k: int, run: Oracle, before: Store, c: Config, a: Artifact, early: Outcome, late: Outcome,
                 after: Store)
    requires JoinOk(g) && k >= 1 && Answers(run, a, early, late) && IsInit(g, Repairable(a), before, c)
    requires Stored(c.store, ArtifactsOf(FirstOf(k, early, late)), after)
    ensures Step(g, k, run, c, Config(NextOf(g, k, a, early, late), after))
  {
    HoldsBundle(g, a, before, c);
    JoinWave(g, k, run, a, c, early, late);
    FirstWave(g, Repairable(a), k, run, c, FirstOf(k, early, late), after);
  }

  lemma AllActive(g: Graph, bundle: map<Slot, Artifact>, results: Results)
    requires Unconditional(g)
    ensures After(g, bundle, results).active == EdgeIds(g)
  {
  }

  lemma AfterStatus(g: Graph, bundle: map<Slot, Artifact>, results: Results, s: State)
    requires Intermediate(g, results) && s == After(g, bundle, results)
    ensures s.status.Keys == Ids(g)
    ensures forall id :: id in s.status ==> s.status[id] == if id in results then Succeeded else Pending
  {
  }

  /** The id under which an outcome delivers the code, if it does. */
  function CodeOf(o: Outcome): Option<ArtifactId>
    requires o.Success?
  {
    if CODE in o.outputs && o.outputs[CODE].id != EMPTY_ID then Some(o.outputs[CODE].id) else None
  }

  lemma JoinEdges()
    ensures EdgesInto([FromLate(), FromEarly()], 2, CODE) == [FromLate(), FromEarly()]
  {
    var edges := [FromLate(), FromEarly()];
    assert edges[..1] == [edges[0]] && edges[..1][..0] == [];
    assert EdgesInto(edges[..1], 2, CODE) == [edges[0]];
  }

  lemma FirstOfTwo(s: State, d: Edge, e: Edge)
    ensures FirstAvailable(s, [d, e]) ==
            if Available(s, d) then Some(s.outputs[d.src][d.out])
            else if Available(s, e) then Some(s.outputs[e.src][e.out]) else None
  {
    assert [d, e][1..] == [e] && [e][1..] == [];
  }

  /** What has delivered decides what node 2 gets; if both have, the edge listed first. */
  lemma NextResolves(g: Graph, k: int, early: Outcome, late: Outcome, s: State)
    requires g.edges == [FromLate(), FromEarly()] && early.Success? && late.Success?
    requires CODE !in s.initial && s.active == {0, 1} && s.outputs == NewOutputs(FirstOf(k, early, late))
    ensures ResolvedId(g, s, 2, CODE) == if k != 1 && CodeOf(late).Some? then CodeOf(late) else CodeOf(early)
  {
    JoinEdges();
    FirstOfTwo(s, FromLate(), FromEarly());
  }

  ghost predicate OnlyFreezePends(s: State) {
    forall id :: id in s.status && s.status[id] == Pending ==> id == 2
  }

  lemma NextPends(k: int, early: Outcome, late: Outcome, s: State)
    requires s.status.Keys == {1, 2, 3}
    requires forall id :: id in s.status ==>
        s.status[id] == if id in FirstOf(k, early, late) then Succeeded else Pending
    ensures 2 in s.status && s.status[2] == Pending && (k != 1 ==> OnlyFreezePends(s))
  {
    assert k != 1 ==> 1 in FirstOf(k, early, late) && 3 in FirstOf(k, early, late);
  }

  lemma NextGives(g: Graph, k: int, a: Artifact, early: Outcome, late: Outcome, s: State)
    requires JoinOk(g) && early.Success? && late.Success? && s == NextOf(g, k, a, early, late)
    ensures ResolvedId(g, s, 2, CODE) == if k != 1 && CodeOf(late).Some? then CodeOf(late) else CodeOf(early)
  {
    JoinShape(g);
    AllActive(g, Repairable(a), FirstOf(k, early, late));
    NextResolves(g, k, early, late, s);
  }

  /** The state after the first wave: nothing is skipped or frozen, node 2 is pending, and its slot has
      what has come. */
  lemma NextFacts(g: Graph, k: int, run: Oracle, a: Artifact, early: Outcome, late: Outcome, s: State)
    requires JoinOk(g) && Answers(run, a, early, late) && s == NextOf(g, k, a, early, late)
    ensures Tracks(g, s) && SkipPass(g, s) == s && ImpossibleSet(g, s) == {} && NoneLost(s) && !s.frozen
    ensures s.final.None?
    ensures 2 in s.status && s.status[2] == Pending && (k != 1 ==> OnlyFreezePends(s))
    ensures ResolvedId(g, s, 2, CODE) == if k != 1 && CodeOf(late).Some? then CodeOf(late) else CodeOf(early)
  {
    FirstIsIntermediate(g, k, run, a, early, late);
    AfterFacts(g, Repairable(a), FirstOf(k, early, late));
    AfterStatus(g, Repairable(a), FirstOf(k, early, late), s);
    JoinIds(g);
    NextPends(k, early, late, s);
    NextGives(g, k, a, early, late, s);
  }

  lemma FreezeReady(g: Graph, s: State)
    requires JoinOk(g) && Tracks(g, s) && 2 in s.status && s.status[2] == Pending
    ensures 2 in ReadySet(g, s) <==> ResolvedId(g, s, 2, CODE).Some?
  {
    assert CODE in Freeze().inputs && Freeze() in g.nodes;
    assert IsReady(g, s, Freeze()) <==> ResolvedId(g, s, 2, CODE).Some?;
  }

  lemma NothingReadyStops(g: Graph, k: int, s: State)
    requires Tracks(g, s) && SkipPass(g, s) == s && ReadySet(g, s) == {} && !s.frozen && s.final.None?
    ensures Deadlocks(g, k, s)
  {
    SliceEmpty(Sorted(ReadySet(g, s)), k);
  }

  lemma OnlyFreezeLeft(g: Graph, s: State)
    requires JoinOk(g) && Tracks(g, s) && ResolvedId(g, s, 2, CODE).None? && OnlyFreezePends(s)
    ensures ReadySet(g, s) == {}
  {
    forall n | n in g.nodes ensures !IsReady(g, s, n) {
      assert CODE in Freeze().inputs;
    }
  }

  /** If both repairs leave the code out and fill the draft only, or nothing, the run of a graph that the
      compiler accepts deadlocks after its first wave, although no node failed and none was skipped:
      the last node waits for ever, and no amount of skipping settles it. */
  lemma PartialOutputsStrand(reg: Compiler.Registry, g: Graph, k: int, run: Oracle, before: Store, c: Config,
                             a: Artifact, early: Outcome, late: Outcome, after: Store)
    requires IsJoin(g) && {0, 1} <= reg.transforms && k >= 2 && IsInit(g, Repairable(a), before, c)
    requires Answers(run, a, early, late) && CODE !in early.outputs && CODE !in late.outputs
    requires Stored(c.store, ArtifactsOf(FirstOf(k, early, late)), after)
    ensures Compiler.Verdict(reg, g).None?
    ensures var s := NextOf(g, k, a, early, late);
      && Step(g, k, run, c, Config(s, after)) && Deadlocks(g, k, s)
      && NoneLost(s) && ImpossibleSet(g, s) == {} && !AllSettled(s)
  {
    var s := NextOf(g, k, a, early, late);
    JoinCompiles(reg, g);
    JoinStep(g, k, run, before, c, a, early, late, after);
    NextFacts(g, k, run, a, early, late, s);
    OnlyFreezeLeft(g, s);
    NothingReadyStops(g, k, s);
  }

  lemma FreezeInputs(g: Graph, s: State, store: Store, art: Artifact)
    requires ResolvedId(g, s, 2, CODE) == Some(art.id) && art.id in store && store[art.id] == art
    ensures Delivered(g, s, store, Freeze()) == map[CODE := art]
  {
  }

  lemma CodeIsStored(k: int, early: Outcome, late: Outcome, before: Store, after: Store)
    requires early.Success? && late.Success? && CODE in early.outputs && CODE in late.outputs
    requires Stored(before, ArtifactsOf(FirstOf(k, early, late)), after)
    ensures var a := if k == 1 then early.outputs[CODE] else late.outputs[CODE]; a.id in after && after[a.id] == a
  {
    var r := FirstOf(k, early, late);
    assert r[1].outputs[CODE] in ArtifactsOf(r);
    assert k != 1 ==> r[3].outputs[CODE] in ArtifactsOf(r);
  }

  lemma NextFeeds(g: Graph, k: int, run: Oracle, a: Artifact, early: Outcome, late: Outcome, before: Store,
                  after: Store, s: State, art: Artifact)
    requires JoinOk(g) && Answers(run, a, early, late) && CodeOf(early).Some? && CodeOf(late).Some?
    requires Stored(before, ArtifactsOf(FirstOf(k, early, late)), after) && s == NextOf(g, k, a, early, late)
    requires art == if k == 1 then early.outputs[CODE] else late.outputs[CODE]
    ensures Tracks(g, s) && SkipPass(g, s) == s && 2 in ReadySet(g, s)
    ensures Delivered(g, s, after, Freeze()) == map[CODE := art]
  {
    NextFacts(g, k, run, a, early, late, s);
    FreezeReady(g, s);
    CodeIsStored(k, early, late, before, after);
    FreezeInputs(g, s, after, art);
  }

  /** If both deliver the code, the inputs of node 2 depend on the limit: from the same start, under
      limit 1 it is next given what node 1 made, and under any higher limit what node 3 made. */
  lemma LimitDecidesInputs(reg: Compiler.Registry, g: Graph, k: int, run: Oracle, before: Store, c: Config, a: Artifact,
                           early: Outcome, late: Outcome, after: Store)
    requires IsJoin(g) && {0, 1} <= reg.transforms && k >= 1 && IsInit(g, Repairable(a), before, c)
    requires Answers(run, a, early, late) && CodeOf(early).Some? && CodeOf(late).Some?
    requires Stored(c.store, ArtifactsOf(FirstOf(k, early, late)), after)
    ensures Compiler.Verdict(reg, g).None?
    ensures Step(g, k, run, c, Config(NextOf(g, k, a, early, late), after))
    ensures var s := NextOf(g, k, a, early, late);
      && Tracks(g, s) && SkipPass(g, s) == s && 2 in ReadySet(g, s)
      && Delivered(g, s, after, Freeze()) == map[CODE := if k == 1 then early.outputs[CODE] else late.outputs[CODE]]
  {
    JoinCompiles(reg, g);
    JoinStep(g, k, run, before, c, a, early, late, after);
    NextFeeds(g, k, run, a, early, late, c.store, after, NextOf(g, k, a, early, late),
              if k == 1 then early.outputs[CODE] else late.outputs[CODE]);
  }
}
