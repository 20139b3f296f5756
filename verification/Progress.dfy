/** What runs can and cannot do: monotonicity, no stuck nodes, precise skips and deadlocks,
    and bounds on the number of waves. */
module Progress {
  import opened Types
  import opened Scheduling
  import opened Committing
  import opened Runs
  import Compiler

  /* ---------- states only grow ---------- */

  /** Terminal statuses, outputs, edge outcomes and the freeze are kept. */
  ghost predicate Grows(s: State, s': State) {
    && s'.status.Keys == s.status.Keys
    && (forall id :: id in s.status && Terminal(s.status[id]) ==> s'.status[id] == s.status[id])
    && (forall id :: id in s.outputs ==> id in s'.outputs && s'.outputs[id] == s.outputs[id])
    && s.active <= s'.active
    && s.inactive <= s'.inactive
    && s.initial == s'.initial
    && (s.frozen ==> s'.frozen && s'.final == s.final)
  }

  lemma GrowsTransitive(a: State, b: State, c: State)
    requires Grows(a, b) && Grows(b, c)
    ensures Grows(a, c)
  {
  }

  /** Marks some of the pending nodes as skipped. */
  ghost function Mark(s: State, ids: set<NodeId>): State {
    s.(status := map id | id in s.status :: if id in ids then Skipped else s.status[id])
  }

  lemma SkipIsMark(g: Graph, s: State)
    requires Tracks(g, s)
    ensures SkipPass(g, s) == Mark(s, ImpossibleSet(g, s))
    ensures forall id :: id in ImpossibleSet(g, s) ==> id in s.status && s.status[id] == Pending
  {
  }

  lemma MarkGrows(s: State, ids: set<NodeId>)
    requires forall id :: id in ids ==> id in s.status && s.status[id] == Pending
    ensures Grows(s, Mark(s, ids))
  {
  }

  lemma ApplyGrows(g: Graph, s: State, results: Results)
    requires StatusInv(g, s) && OutputInv(s) && GoodResults(s, results)
    ensures Grows(s, Apply(g, s, results))
  {
    var s' := Apply(g, s, results);
    assert s'.status.Keys == s.status.Keys;
    forall id | id in s.outputs ensures id in s'.outputs && s'.outputs[id] == s.outputs[id] {
      ApplyOutputs(g, s, results, id);
    }
  }

  lemma CloseGrows(g: Graph, s: State)
    requires Tracks(g, s)
    ensures Grows(s, Close(g, s))
  {
    SkipIsMark(g, s);
    MarkGrows(s, ImpossibleSet(g, s));
  }

  lemma StepGrows(g: Graph, initial: map<Slot, ArtifactId>, k: int, run: Oracle, c: Config, c': Config)
    requires Wired(g) && StateInv(g, initial, c.st) && Step(g, k, run, c, c')
    ensures Grows(c.st, SkipPass(g, c.st)) && Grows(SkipPass(g, c.st), c'.st) && Grows(c.st, c'.st)
  {
    var s1, results := SkipPass(g, c.st), WaveResults(g, k, run, c);
    SkipIsMark(g, c.st);
    MarkGrows(c.st, ImpossibleSet(g, c.st));
    WaveIsGood(g, k, run, c);
    SkipInv(g, initial, c.st);
    ApplyGrows(g, s1, results);
    ApplyTracks(g, s1, results);
    CloseGrows(g, Apply(g, s1, results));
    GrowsTransitive(s1, Apply(g, s1, results), c'.st);
    GrowsTransitive(c.st, s1, c'.st);
  }

  lemma NextGrows(g: Graph, initial: map<Slot, ArtifactId>, turns: seq<Turn>, trace: seq<Config>, i: nat)
    requires Wired(g) && IsRun(g, initial, turns, trace) && i < |turns|
    ensures Grows(trace[i].st, trace[i + 1].st)
  {
    RunInv(g, initial, turns, trace, i);
    TurnStep(g, initial, turns, trace, i);
    StepGrows(g, initial, turns[i].limit, turns[i].run, TopAt(turns, trace, i), trace[i + 1]);
  }

  /** Over a whole run, terminal statuses, outputs and edge outcomes never change, and neither
      does the final artifact once the state is frozen. */
  lemma {:induction false} RunGrows(g: Graph, initial: map<Slot, ArtifactId>, turns: seq<Turn>, trace: seq<Config>,
                                    i: nat, j: nat)
    requires Wired(g) && IsRun(g, initial, turns, trace) && i <= j <= |turns|
    ensures Grows(trace[i].st, trace[j].st)
  {
    if i < j {
      RunGrows(g, initial, turns, trace, i, j - 1);
      NextGrows(g, initial, turns, trace, j - 1);
      GrowsTransitive(trace[i].st, trace[j - 1].st, trace[j].st);
    } else {
      GrowsReflexive(trace[i].st);
    }
  }

  /* ---------- available and dead edges ---------- */

  lemma AvailableStays(s: State, s': State, e: Edge)
    requires Grows(s, s') && Available(s, e)
    ensures Available(s', e) && s'.outputs[e.src][e.out] == s.outputs[e.src][e.out]
  {
  }

  lemma FedStays(g: Graph, s: State, s': State, n: Node)
    requires Grows(s, s') && Fed(g, s, n)
    ensures Fed(g, s', n)
  {
    forall slot | slot in n.inputs ensures ResolvedId(g, s', n.id, slot).Some? {
      assert ResolvedId(g, s, n.id, slot).Some?;
      if slot !in s.initial {
        var e :| e in EdgesInto(g.edges, n.id, slot) && Available(s, e);
        AvailableStays(s, s', e);
      }
    }
  }

  /** A dead edge is never available again. */
  lemma DeadStays(g: Graph, initial: map<Slot, ArtifactId>, s: State, s': State, e: Edge)
    requires StateInv(g, initial, s) && StateInv(g, initial, s') && Grows(s, s')
    requires e in g.edges && e.src in s.status && Dead(s, e)
    ensures Dead(s', e) && !Available(s', e)
  {
    assert EdgeStatus(s, e) && EdgeStatus(s', e);
  }

  lemma ImpossibleStays(g: Graph, initial: map<Slot, ArtifactId>, s: State, s': State, n: Node)
    requires StateInv(g, initial, s) && StateInv(g, initial, s') && Grows(s, s') && Tracks(g, s)
    requires n in g.nodes && n.id in s.status && IsImpossible(g, s, n)
    ensures !Fed(g, s', n)
    ensures s'.status[n.id] == Pending ==> IsImpossible(g, s', n)
  {
    var slot :| slot in n.inputs && Starved(g, s, n.id, slot);
    forall e | e in EdgesInto(g.edges, n.id, slot) ensures Dead(s', e) && !Available(s', e) {
      DeadStays(g, initial, s, s', e);
    }
    assert ResolvedId(g, s', n.id, slot).None?;
    assert Starved(g, s', n.id, slot);
  }

  lemma GrowsReflexive(s: State)
    ensures Grows(s, s)
  {
  }

  /* ---------- skipping is sound and final ---------- */

  ghost function Counted(s: State): State {
    s.(waveId := s.waveId + 1, checkpointCount := s.checkpointCount + 1)
  }

  ghost predicate LazySkip(g: Graph, s: State, s': State)
    requires Tracks(g, s)
  {
    exists ids :: ids <= ImpossibleSet(g, s) && s' == Mark(s, ids)
  }

  ghost predicate LazyLaunch(g: Graph, s: State, s': State)
    requires Tracks(g, s)
  {
    exists results: Results ::
      results.Keys <= ReadySet(g, s) && GoodResults(s, results) && s' == Apply(g, s, results)
  }

  /** A move of a scheduler that may skip fewer of the impossible nodes and launch any of the
      ready ones, with any results, or count a wave. */
  ghost predicate LazyMove(g: Graph, s: State, s': State) {
    Tracks(g, s) && (LazySkip(g, s, s') || LazyLaunch(g, s, s') || s' == Counted(s))
  }

  ghost predicate MoveAt(g: Graph, states: seq<State>, i: nat)
    requires i < |states| - 1
  {
    LazyMove(g, states[i], states[i + 1])
  }

  ghost predicate LazyRun(g: Graph, states: seq<State>) {
    && |states| > 0
    && forall i {:trigger MoveAt(g, states, i)} :: 0 <= i < |states| - 1 ==> MoveAt(g, states, i)
  }

  /** Some such moves lead from the one state to the other. */
  ghost predicate LazilyReaches(g: Graph, s: State, s': State) {
    exists states :: LazyRun(g, states) && states[0] == s && states[|states| - 1] == s'
  }

  lemma MarkInv(g: Graph, initial: map<Slot, ArtifactId>, s: State, ids: set<NodeId>)
    requires Wired(g) && StateInv(g, initial, s)
    requires forall id :: id in ids ==> id in s.status && s.status[id] == Pending
    ensures StateInv(g, initial, Mark(s, ids))
  {
    forall e | e in g.edges ensures EdgeStatus(Mark(s, ids), e) {
      assert EdgeStatus(s, e);
    }
  }

  lemma LazySkipKeeps(g: Graph, initial: map<Slot, ArtifactId>, s: State, s': State)
    requires Wired(g) && StateInv(g, initial, s) && Tracks(g, s) && LazySkip(g, s, s')
    ensures StateInv(g, initial, s') && Grows(s, s')
  {
    var ids :| ids <= ImpossibleSet(g, s) && s' == Mark(s, ids);
    MarkGrows(s, ids);
    MarkInv(g, initial, s, ids);
  }

  lemma LazyLaunchKeeps(g: Graph, initial: map<Slot, ArtifactId>, s: State, s': State)
    requires Wired(g) && StateInv(g, initial, s) && Tracks(g, s) && LazyLaunch(g, s, s')
    ensures StateInv(g, initial, s') && Grows(s, s')
  {
    var results: Results :| results.Keys <= ReadySet(g, s) && GoodResults(s, results) && s' == Apply(g, s, results);
    ApplyInv(g, initial, s, results);
    ApplyGrows(g, s, results);
  }

  lemma CountedKeeps(g: Graph, initial: map<Slot, ArtifactId>, s: State)
    requires StateInv(g, initial, s)
    ensures StateInv(g, initial, Counted(s)) && Grows(s, Counted(s))
  {
    CountInv(g, initial, s);
  }

  lemma LazyMoveKeeps(g: Graph, initial: map<Slot, ArtifactId>, s: State, s': State)
    requires Wired(g) && StateInv(g, initial, s) && LazyMove(g, s, s')
    ensures StateInv(g, initial, s') && Grows(s, s')
  {
    if LazySkip(g, s, s') {
      LazySkipKeeps(g, initial, s, s');
    } else if LazyLaunch(g, s, s') {
      LazyLaunchKeeps(g, initial, s, s');
    } else {
      CountedKeeps(g, initial, s);
    }
  }

  lemma {:induction false} LazyRunKeeps(g: Graph, initial: map<Slot, ArtifactId>, states: seq<State>, j: nat)
    requires Wired(g) && LazyRun(g, states) && StateInv(g, initial, states[0]) && j < |states|
    ensures StateInv(g, initial, states[j]) && Grows(states[0], states[j])
  {
    if j > 0 {
      LazyRunKeeps(g, initial, states, j - 1);
      assert MoveAt(g, states, j - 1);
      LazyMoveKeeps(g, initial, states[j - 1], states[j]);
      GrowsTransitive(states[0], states[j - 1], states[j]);
    }
  }

  lemma LazilyKeeps(g: Graph, initial: map<Slot, ArtifactId>, s: State, s': State)
    requires Wired(g) && LazilyReaches(g, s, s') && StateInv(g, initial, s)
    ensures StateInv(g, initial, s') && Grows(s, s')
  {
    var states :| LazyRun(g, states) && states[0] == s && states[|states| - 1] == s';
    LazyRunKeeps(g, initial, states, |states| - 1);
  }

  /** A node reported impossible is ready in no continuation, even of a scheduler that leaves it pending;
      as long as it is pending it is reported again. */
  lemma SkipIsSound(g: Graph, initial: map<Slot, ArtifactId>, s: State, s': State, n: Node)
    requires Wired(g) && LazilyReaches(g, s, s') && StateInv(g, initial, s)
    requires Tracks(g, s) && Tracks(g, s') && n in g.nodes && n.id in s.status && IsImpossible(g, s, n)
    ensures !IsReady(g, s', n)
    ensures s'.status[n.id] == Pending ==> IsImpossible(g, s', n)
  {
    LazilyKeeps(g, initial, s, s');
    ImpossibleStays(g, initial, s, s', n);
  }

  /** A ready node stays ready, and is never impossible, until it is launched. */
  lemma ReadyIsStable(g: Graph, initial: map<Slot, ArtifactId>, s: State, s': State, n: Node)
    requires Wired(g) && LazilyReaches(g, s, s') && StateInv(g, initial, s)
    requires Tracks(g, s) && Tracks(g, s') && n in g.nodes && n.id in s.status
    requires IsReady(g, s, n) && s'.status[n.id] == Pending
    ensures IsReady(g, s', n) && !IsImpossible(g, s', n)
  {
    LazilyKeeps(g, initial, s, s');
    FedStays(g, s, s', n);
    if IsImpossible(g, s', n) {
      GrowsReflexive(s');
      ImpossibleStays(g, initial, s', s', n);
    }
  }

  /* ---------- runs are made of such moves ---------- */

  lemma LazyExtend(g: Graph, states: seq<State>, s: State)
    requires LazyRun(g, states) && LazyMove(g, states[|states| - 1], s)
    ensures LazyRun(g, states + [s])
  {
    var longer := states + [s];
    forall i {:trigger MoveAt(g, longer, i)} | 0 <= i < |longer| - 1 ensures MoveAt(g, longer, i) {
      if i < |states| - 1 {
        assert MoveAt(g, states, i);
      }
    }
  }

  lemma LazyReflexive(g: Graph, s: State)
    ensures LazilyReaches(g, s, s)
  {
    assert LazyRun(g, [s]);
  }

  lemma ThenMove(g: Graph, r: State, s: State, s': State)
    requires LazilyReaches(g, r, s) && LazyMove(g, s, s')
    ensures LazilyReaches(g, r, s')
  {
    var states :| LazyRun(g, states) && states[0] == r && states[|states| - 1] == s;
    LazyExtend(g, states, s');
    assert (states + [s'])[0] == r && (states + [s'])[|states + [s']| - 1] == s';
  }

  lemma SkipIsMove(g: Graph, s: State)
    requires Tracks(g, s)
    ensures LazyMove(g, s, SkipPass(g, s))
  {
    SkipIsMark(g, s);
    assert LazySkip(g, s, SkipPass(g, s));
  }

  lemma LaunchIsMove(g: Graph, k: int, run: Oracle, c: Config)
    requires Wired(g) && Tracks(g, c.st)
    ensures LazyMove(g, SkipPass(g, c.st), Apply(g, SkipPass(g, c.st), WaveResults(g, k, run, c)))
  {
    WaveIsGood(g, k, run, c);
    WaveResultsKeys(g, k, run, c);
    assert LazyLaunch(g, SkipPass(g, c.st), Apply(g, SkipPass(g, c.st), WaveResults(g, k, run, c)));
  }

  lemma CloseIsMoves(g: Graph, r: State, s: State)
    requires Tracks(g, s) && LazilyReaches(g, r, s)
    ensures LazilyReaches(g, r, Close(g, s))
  {
    SkipIsMove(g, s);
    ThenMove(g, r, s, SkipPass(g, s));
    ThenMove(g, r, SkipPass(g, s), Close(g, s));
  }

  /** A wave is a skip pass, a launch, a skip pass and a count. */
  lemma StepIsLazy(g: Graph, r: State, k: int, run: Oracle, c: Config, c': Config)
    requires Wired(g) && Step(g, k, run, c, c') && LazilyReaches(g, r, c.st)
    ensures LazilyReaches(g, r, c'.st)
  {
    var s1, results := SkipPass(g, c.st), WaveResults(g, k, run, c);
    SkipIsMove(g, c.st);
    ThenMove(g, r, c.st, s1);
    LaunchIsMove(g, k, run, c);
    ThenMove(g, r, s1, Apply(g, s1, results));
    ApplyTracks(g, s1, results);
    CloseIsMoves(g, r, Apply(g, s1, results));
  }

  lemma NextIsLazy(g: Graph, initial: map<Slot, ArtifactId>, turns: seq<Turn>, trace: seq<Config>, s: State, i: nat)
    requires Wired(g) && IsRun(g, initial, turns, trace) && i < |turns| && LazilyReaches(g, s, trace[i].st)
    ensures LazilyReaches(g, s, trace[i + 1].st)
  {
    TurnStep(g, initial, turns, trace, i);
    StepIsLazy(g, s, turns[i].limit, turns[i].run, TopAt(turns, trace, i), trace[i + 1]);
  }

  /** So the states of a run are among those that such moves lead to. */
  lemma {:induction false} RunIsLazy(g: Graph, initial: map<Slot, ArtifactId>, turns: seq<Turn>, trace: seq<Config>,
                                     i: nat, j: nat)
    requires Wired(g) && IsRun(g, initial, turns, trace) && i <= j <= |turns|
    ensures LazilyReaches(g, trace[i].st, trace[j].st)
  {
    if i == j {
      LazyReflexive(g, trace[i].st);
    } else {
      RunIsLazy(g, initial, turns, trace, i, j - 1);
      NextIsLazy(g, initial, turns, trace, trace[i].st, j - 1);
    }
  }

  /** Over any waves of any run, a node once impossible is never ready, and is impossible as long as it is
      pending; a node once ready is ready, and not impossible, as long as it is pending. */
  lemma RunKeepsReadiness(g: Graph, initial: map<Slot, ArtifactId>, turns: seq<Turn>, trace: seq<Config>, i: nat,
                          j: nat, n: Node)
    requires Wired(g) && IsRun(g, initial, turns, trace) && i <= j <= |turns| && n in g.nodes
    requires Tracks(g, trace[i].st) && Tracks(g, trace[j].st) && n.id in trace[i].st.status
    ensures n.id in trace[j].st.status
    ensures IsImpossible(g, trace[i].st, n) ==> !IsReady(g, trace[j].st, n)
    ensures trace[j].st.status[n.id] == Pending && IsImpossible(g, trace[i].st, n) ==> IsImpossible(g, trace[j].st, n)
    ensures trace[j].st.status[n.id] == Pending && IsReady(g, trace[i].st, n) ==>
      IsReady(g, trace[j].st, n) && !IsImpossible(g, trace[j].st, n)
  {
    var s, s' := trace[i].st, trace[j].st;
    RunInv(g, initial, turns, trace, i);
    RunIsLazy(g, initial, turns, trace, i, j);
    if IsImpossible(g, s, n) {
      SkipIsSound(g, initial, s, s', n);
    }
    if IsReady(g, s, n) && s'.status[n.id] == Pending {
      ReadyIsStable(g, initial, s, s', n);
    }
  }

  /* ---------- no stuck nodes ---------- */

  ghost predicate ParentsDone(g: Graph, s: State, n: NodeId) {
    forall e :: e in g.edges && e.dst == n ==> e.src in s.status && Terminal(s.status[e.src])
  }

  /** Once its source is terminal, an edge is either available or dead. */
  lemma AvailableXorDead(g: Graph, initial: map<Slot, ArtifactId>, s: State, e: Edge)
    requires AllFilled(g, s)
    requires Wired(g) && StateInv(g, initial, s) && e in g.edges
    requires e.src in s.status && Terminal(s.status[e.src])
    ensures Available(s, e) <==> !Dead(s, e)
  {
    assert EdgeStatus(s, e);
    assert e.src in s.outputs <==> s.status[e.src] == Succeeded;
  }

  ghost predicate Supplied(g: Graph, initial: map<Slot, ArtifactId>) {
    g.initialSlots.Keys <= initial.Keys
  }

  /** A pending node whose parents are all terminal is exactly one of ready and impossible. */
  lemma ReadyXorImpossible(g: Graph, initial: map<Slot, ArtifactId>, s: State, n: Node)
    requires AllFilled(g, s)
    requires Wired(g) && Supplied(g, initial) && StateInv(g, initial, s) && Tracks(g, s)
    requires n in g.nodes && n.id in s.status && s.status[n.id] == Pending && ParentsDone(g, s, n.id)
    ensures IsReady(g, s, n) <==> !IsImpossible(g, s, n)
  {
    forall slot | slot in n.inputs
      ensures ResolvedId(g, s, n.id, slot).Some? <==> !Starved(g, s, n.id, slot)
    {
      SlotReadyXorStarved(g, initial, s, n, slot);
    }
  }

  lemma SlotReadyXorStarved(g: Graph, initial: map<Slot, ArtifactId>, s: State, n: Node, slot: Slot)
    requires AllFilled(g, s)
    requires Wired(g) && Supplied(g, initial) && StateInv(g, initial, s) && Tracks(g, s)
    requires n in g.nodes && slot in n.inputs && ParentsDone(g, s, n.id)
    ensures ResolvedId(g, s, n.id, slot).Some? <==> !Starved(g, s, n.id, slot)
  {
    if slot !in s.initial {
      assert Compiler.Bound(g, n, slot);
      var e :| e in g.edges && Feeds(e, n.id, slot);
      assert e in EdgesInto(g.edges, n.id, slot);
      forall d | d in EdgesInto(g.edges, n.id, slot) ensures Available(s, d) <==> !Dead(s, d) {
        AvailableXorDead(g, initial, s, d);
      }
    }
  }

  ghost predicate AllSettled(s: State) {
    forall id :: id in s.status ==> s.status[id] != Pending
  }

  /** If nothing is ready and nothing is impossible, nothing is pending. */
  lemma NoneStuck(g: Graph, level: map<NodeId, nat>, initial: map<Slot, ArtifactId>, s: State)
    requires AllFilled(g, s)
    requires Wired(g) && Increases(g, level) && Supplied(g, initial) && StateInv(g, initial, s) && Tracks(g, s)
    requires ReadySet(g, s) == {} && ImpossibleSet(g, s) == {}
    ensures AllSettled(s)
  {
    forall id | id in s.status ensures s.status[id] != Pending {
      Settled(g, level, initial, s, NodeOf(g.nodes, id));
    }
  }

  lemma {:induction false} Settled(g: Graph, level: map<NodeId, nat>, initial: map<Slot, ArtifactId>, s: State, n: Node)
    requires AllFilled(g, s)
    requires Wired(g) && Increases(g, level) && Supplied(g, initial) && StateInv(g, initial, s) && Tracks(g, s)
    requires ReadySet(g, s) == {} && ImpossibleSet(g, s) == {} && n in g.nodes && n.id in s.status
    ensures s.status[n.id] != Pending
    decreases if n.id in level then level[n.id] else 0
  {
    assert n.id !in ReadySet(g, s) && n.id !in ImpossibleSet(g, s);
    if s.status[n.id] == Pending {
      forall e | e in g.edges && e.dst == n.id ensures Terminal(s.status[e.src]) {
        Settled(g, level, initial, s, NodeOf(g.nodes, e.src));
      }
      ReadyXorImpossible(g, initial, s, n);
    }
  }
}
