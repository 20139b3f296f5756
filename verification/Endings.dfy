/** How runs end: deadlocks are precise, every node runs at most once, and the number of waves
    is bounded. */
module Endings {
  import opened Types
  import opened Sorting
  import opened Layering
  import opened Scheduling
  import opened Committing
  import opened Runs
  import opened Progress
  import Compiler

  ghost function PendingSet(s: State): set<NodeId> {
    set id | id in s.status && s.status[id] == Pending
  }

  lemma SkipShrinks(g: Graph, s: State)
    requires Tracks(g, s)
    ensures ImpossibleSet(g, s) <= PendingSet(s)
    ensures PendingSet(SkipPass(g, s)) == PendingSet(s) - ImpossibleSet(g, s)
  {
  }

  /* ---------- deadlock ---------- */

  /** Skip passes repeated until nothing is impossible any more. */
  ghost function Closure(g: Graph, s: State): (c: State)
    requires Tracks(g, s)
    ensures Tracks(g, c) && ImpossibleSet(g, c) == {}
    decreases |PendingSet(s)|
  {
    if ImpossibleSet(g, s) == {} then s
    else
      SkipShrinks(g, s);
      SubsetSize(PendingSet(SkipPass(g, s)), PendingSet(s));
      Closure(g, SkipPass(g, s))
  }

  lemma SkipKeeps(g: Graph, s: State)
    requires Tracks(g, s)
    ensures Grows(s, SkipPass(g, s))
    ensures ReadySet(g, SkipPass(g, s)) <= ReadySet(g, s)
    ensures SkipPass(g, s).outputs == s.outputs && SkipPass(g, s).frozen == s.frozen
  {
    SkipIsMark(g, s);
    MarkGrows(s, ImpossibleSet(g, s));
    forall n: Node | n in g.nodes && IsReady(g, SkipPass(g, s), n) ensures IsReady(g, s, n) {
      forall slot | slot in n.inputs ensures ResolvedId(g, s, n.id, slot).Some? {
        assert ResolvedId(g, SkipPass(g, s), n.id, slot).Some?;
        if slot !in s.initial {
          var e :| e in EdgesInto(g.edges, n.id, slot) && Available(SkipPass(g, s), e);
          assert Available(s, e);
        }
      }
    }
  }

  lemma {:induction false} ClosureKeeps(g: Graph, initial: map<Slot, ArtifactId>, s: State)
    requires Wired(g) && StateInv(g, initial, s) && Tracks(g, s)
    ensures StateInv(g, initial, Closure(g, s)) && Grows(s, Closure(g, s))
    ensures ReadySet(g, Closure(g, s)) <= ReadySet(g, s)
    ensures Closure(g, s).outputs == s.outputs && Closure(g, s).frozen == s.frozen
    decreases |PendingSet(s)|
  {
    if ImpossibleSet(g, s) == {} {
      GrowsReflexive(s);
    } else {
      SkipShrinks(g, s);
      SubsetSize(PendingSet(SkipPass(g, s)), PendingSet(s));
      SkipInv(g, initial, s);
      SkipKeeps(g, s);
      ClosureKeeps(g, initial, SkipPass(g, s));
      GrowsTransitive(s, SkipPass(g, s), Closure(g, SkipPass(g, s)));
    }
  }

  lemma NothingReady(g: Graph, s: State, k: int)
    requires Tracks(g, s) && k >= 1 && ReadyList(g, s, k) == []
    ensures ReadySet(g, s) == {}
  {
    var sorted := Sorted(ReadySet(g, s));
    assert sorted == [];
    forall id ensures id !in ReadySet(g, s) {
      assert id !in sorted;
    }
  }

  lemma DeadlockSettles(g: Graph, level: map<NodeId, nat>, initial: map<Slot, ArtifactId>, k: int, s: State)
    requires AllFilled(g, s)
    requires Wired(g) && Increases(g, level) && Supplied(g, initial) && StateInv(g, initial, s)
    requires k >= 1 && Deadlocks(g, k, s)
    ensures StateInv(g, initial, SkipPass(g, s)) && Closure(g, SkipPass(g, s)).outputs == s.outputs
    ensures var c := Closure(g, SkipPass(g, s)); StateInv(g, initial, c) && AllSettled(c) && !c.frozen
  {
    var d := SkipPass(g, s);
    SkipInv(g, initial, s);
    SkipKeeps(g, s);
    NothingReady(g, d, k);
    ClosureKeeps(g, initial, d);
    NoneStuck(g, level, initial, Closure(g, d));
  }

  /** When the deadlock error is raised, repeating the skip pass settles every node, and leaves
      every final producer failed or skipped. */
  lemma DeadlockIsPrecise(g: Graph, level: map<NodeId, nat>, initial: map<Slot, ArtifactId>, k: int, s: State,
                          p: NodeId)
    requires Wired(g) && Increases(g, level) && Supplied(g, initial) && StateInv(g, initial, s)
    requires AllFilled(g, s) && AllFinal(g, s) && k >= 1 && Deadlocks(g, k, s) && p in Compiler.ProducerIds(g)
    ensures AllSettled(Closure(g, SkipPass(g, s)))
    ensures p in Closure(g, SkipPass(g, s)).status
    ensures Closure(g, SkipPass(g, s)).status[p] in {Failed, Skipped}
  {
    DeadlockSettles(g, level, initial, k, s);
    var c := Closure(g, SkipPass(g, s));
    var n :| n in g.nodes && Compiler.Produces(g, n) && n.id == p;
    if c.status[p] == Succeeded {
      ProducerFreezes(g, initial, c, p);
    }
  }

  /** A state in which a final producer has succeeded is frozen. */
  lemma ProducerFreezes(g: Graph, initial: map<Slot, ArtifactId>, s: State, p: NodeId)
    requires StateInv(g, initial, s) && AllFinal(g, s)
    requires p in Compiler.ProducerIds(g) && p in s.status && s.status[p] == Succeeded
    ensures s.frozen
  {
    var n :| n in g.nodes && Compiler.Produces(g, n) && n.id == p;
    assert g.finalSlot in s.outputs[p];
  }

  ghost predicate Unconditional(g: Graph) {
    forall e :: e in g.edges ==> e.cond.None?
  }

  ghost predicate NoneLost(s: State) {
    forall id :: id in s.status ==> s.status[id] in {Pending, Succeeded}
  }

  lemma NothingImpossible(g: Graph, initial: map<Slot, ArtifactId>, s: State)
    requires Unconditional(g) && StateInv(g, initial, s) && Tracks(g, s) && NoneLost(s)
    ensures ImpossibleSet(g, s) == {}
    ensures SkipPass(g, s) == s
  {
    forall n: Node | n in g.nodes ensures !IsImpossible(g, s, n) {
      forall slot | slot in n.inputs ensures !Starved(g, s, n.id, slot) {
        if slot !in s.initial && EdgesInto(g.edges, n.id, slot) != [] {
          var e := EdgesInto(g.edges, n.id, slot)[0];
          assert e in EdgesInto(g.edges, n.id, slot);
          assert EdgeStatus(s, e);
          assert !Dead(s, e);
        }
      }
    }
    assert SkipPass(g, s).status == s.status;
  }

  lemma ApplySuccesses(g: Graph, s: State, results: Results)
    requires NoneLost(s) && results.Keys <= s.status.Keys && forall id :: id in results ==> results[id].Success?
    ensures NoneLost(Apply(g, s, results))
  {
  }

  lemma OnlySuccesses(g: Graph, k: int, run: Oracle, c: Config)
    requires Tracks(g, c.st) && forall n, ins :: run(n, ins).Success?
    ensures forall id :: id in WaveResults(g, k, run, c) ==> WaveResults(g, k, run, c)[id].Success?
  {
  }

  lemma AllSucceed(g: Graph, initial: map<Slot, ArtifactId>, k: int, run: Oracle, c: Config, c': Config)
    requires Wired(g) && Unconditional(g) && StateInv(g, initial, c.st) && NoneLost(c.st)
    requires forall n, ins :: run(n, ins).Success?
    requires Step(g, k, run, c, c')
    ensures NoneLost(c'.st)
  {
    NothingImpossible(g, initial, c.st);
    WaveIsGood(g, k, run, c);
    OnlySuccesses(g, k, run, c);
    CommitSuccesses(g, initial, c.st, WaveResults(g, k, run, c));
  }

  lemma CommitSuccesses(g: Graph, initial: map<Slot, ArtifactId>, s: State, results: Results)
    requires Wired(g) && Unconditional(g) && StateInv(g, initial, s) && Tracks(g, s) && NoneLost(s)
    requires GoodResults(s, results) && results.Keys <= s.status.Keys
    requires forall id :: id in results ==> results[id].Success?
    ensures NoneLost(Commit(g, s, results))
  {
    ApplySuccesses(g, s, results);
    ApplyInv(g, initial, s, results);
    ApplyTracks(g, s, results);
    NothingImpossible(g, initial, Apply(g, s, results));
  }

  ghost predicate AllSucceeding(turns: seq<Turn>) {
    forall t, n, ins :: t in turns ==> t.run(n, ins).Success?
  }

  lemma NoneLostNext(g: Graph, initial: map<Slot, ArtifactId>, turns: seq<Turn>, trace: seq<Config>, i: nat)
    requires Wired(g) && Unconditional(g) && AllSucceeding(turns)
    requires IsRun(g, initial, turns, trace) && i < |turns| && NoneLost(trace[i].st)
    ensures NoneLost(trace[i + 1].st)
  {
    RunInv(g, initial, turns, trace, i);
    TurnStep(g, initial, turns, trace, i);
    assert turns[i] in turns;
    AllSucceed(g, initial, turns[i].limit, turns[i].run, TopAt(turns, trace, i), trace[i + 1]);
  }

  lemma {:induction false} RunLosesNone(g: Graph, initial: map<Slot, ArtifactId>, turns: seq<Turn>, trace: seq<Config>,
                                        i: nat)
    requires Wired(g) && Unconditional(g) && AllSucceeding(turns)
    requires IsRun(g, initial, turns, trace) && i <= |turns| && NoneLost(trace[0].st)
    ensures NoneLost(trace[i].st)
  {
    if i > 0 {
      RunLosesNone(g, initial, turns, trace, i - 1);
      NoneLostNext(g, initial, turns, trace, i - 1);
    }
  }

  /** Without conditional edges and failures, no state of any run deadlocks. */
  lemma UnconditionalNeverDeadlocks(g: Graph, level: map<NodeId, nat>, initial: map<Slot, ArtifactId>, turns: seq<Turn>,
                                    trace: seq<Config>, i: nat, k: int)
    requires Wired(g) && Increases(g, level) && Supplied(g, initial) && Unconditional(g)
    requires Compiler.ProducerIds(g) != {} && AllSucceeding(turns) && AllFill(g, turns) && AllDeliver(g, turns)
    requires IsRun(g, initial, turns, trace) && i <= |turns| && k >= 1
    requires NoneLost(trace[0].st) && AllFilled(g, trace[0].st) && AllFinal(g, trace[0].st)
    ensures !Deadlocks(g, k, trace[i].st)
  {
    RunLosesNone(g, initial, turns, trace, i);
    RunFilled(g, initial, turns, trace, i);
    RunInv(g, initial, turns, trace, i);
    NoDeadlockHere(g, level, initial, k, trace[i].st);
  }

  lemma NoDeadlockHere(g: Graph, level: map<NodeId, nat>, initial: map<Slot, ArtifactId>, k: int, s: State)
    requires Wired(g) && Increases(g, level) && Supplied(g, initial) && StateInv(g, initial, s)
    requires AllFilled(g, s) && AllFinal(g, s)
    requires Unconditional(g) && NoneLost(s) && Compiler.ProducerIds(g) != {} && k >= 1
    ensures !Deadlocks(g, k, s)
  {
    if Deadlocks(g, k, s) {
      NothingImpossible(g, initial, s);
      var p :| p in Compiler.ProducerIds(g);
      DeadlockIsPrecise(g, level, initial, k, s, p);
    }
  }

  /* ---------- at most once, and termination ---------- */

  lemma ApplyPending(g: Graph, s: State, results: Results)
    requires results.Keys <= s.status.Keys
    ensures PendingSet(Apply(g, s, results)) == PendingSet(s) - results.Keys
  {
  }

  lemma CommitPending(g: Graph, s: State, results: Results)
    requires Tracks(g, s) && results.Keys <= s.status.Keys
    ensures PendingSet(Commit(g, s, results)) <= PendingSet(s) - results.Keys
    ensures Commit(g, s, results).waveId == s.waveId + 1
    ensures Commit(g, s, results).checkpointCount == s.checkpointCount + 1
  {
    ApplyPending(g, s, results);
    ApplyTracks(g, s, results);
    ClosePending(g, Apply(g, s, results));
  }

  lemma ClosePending(g: Graph, s: State)
    requires Tracks(g, s)
    ensures PendingSet(Close(g, s)) <= PendingSet(s)
  {
  }

  lemma StepLaunches(g: Graph, initial: map<Slot, ArtifactId>, k: int, run: Oracle, c: Config, c': Config)
    requires Wired(g) && StateInv(g, initial, c.st) && Step(g, k, run, c, c')
    ensures WaveResults(g, k, run, c).Keys <= PendingSet(SkipPass(g, c.st)) <= PendingSet(c.st)
    ensures |WaveResults(g, k, run, c).Keys| == |ReadyList(g, SkipPass(g, c.st), k)| > 0
    ensures PendingSet(c'.st) <= PendingSet(SkipPass(g, c.st)) - WaveResults(g, k, run, c).Keys
    ensures c'.st.waveId == c.st.waveId + 1 && c'.st.checkpointCount == c.st.checkpointCount + 1
  {
    SkipShrinks(g, c.st);
    WaveSize(g, k, run, c);
    WaveIsGood(g, k, run, c);
    CommitPending(g, SkipPass(g, c.st), WaveResults(g, k, run, c));
  }

  lemma WaveSize(g: Graph, k: int, run: Oracle, c: Config)
    requires Tracks(g, c.st)
    ensures |WaveResults(g, k, run, c).Keys| == |ReadyList(g, SkipPass(g, c.st), k)|
  {
    WaveResultsKeys(g, k, run, c);
    SliceIncreasing(Sorted(ReadySet(g, SkipPass(g, c.st))), k);
    DistinctSize(ReadyList(g, SkipPass(g, c.st), k));
  }

  lemma SliceIncreasing(xs: seq<nat>, k: int)
    requires Increasing(xs)
    ensures Increasing(Slice(xs, k)) && Distinct(Slice(xs, k))
  {
  }

  /** Each wave launches at least one node, so there are at most as many waves as pending nodes; the
      wave id and the checkpoint count count the waves committed. */
  lemma {:induction false} WavesAreFinite(g: Graph, initial: map<Slot, ArtifactId>, turns: seq<Turn>,
                                          trace: seq<Config>, i: nat)
    requires Wired(g) && IsRun(g, initial, turns, trace) && i <= |turns|
    ensures trace[i].st.waveId == trace[0].st.waveId + i
    ensures trace[i].st.checkpointCount == trace[0].st.checkpointCount + i
    ensures i + |PendingSet(trace[i].st)| <= |PendingSet(trace[0].st)| <= |Ids(g)|
  {
    if i == 0 {
      RunInv(g, initial, turns, trace, 0);
      SubsetSize(PendingSet(trace[0].st), Ids(g));
    } else {
      WavesAreFinite(g, initial, turns, trace, i - 1);
      DropsInRun(g, initial, turns, trace, i - 1);
    }
  }

  lemma DropsInRun(g: Graph, initial: map<Slot, ArtifactId>, turns: seq<Turn>, trace: seq<Config>, i: nat)
    requires Wired(g) && IsRun(g, initial, turns, trace) && i < |turns|
    ensures |PendingSet(trace[i + 1].st)| < |PendingSet(trace[i].st)|
    ensures trace[i + 1].st.waveId == trace[i].st.waveId + 1
    ensures trace[i + 1].st.checkpointCount == trace[i].st.checkpointCount + 1
  {
    RunInv(g, initial, turns, trace, i);
    TurnStep(g, initial, turns, trace, i);
    PendingDrops(g, initial, turns[i].limit, turns[i].run, TopAt(turns, trace, i), trace[i + 1]);
  }

  lemma PendingDrops(g: Graph, initial: map<Slot, ArtifactId>, k: int, run: Oracle, c: Config, c': Config)
    requires Wired(g) && StateInv(g, initial, c.st) && Step(g, k, run, c, c')
    ensures |PendingSet(c'.st)| + |ReadyList(g, SkipPass(g, c.st), k)| <= |PendingSet(c.st)|
    ensures |ReadyList(g, SkipPass(g, c.st), k)| > 0
    ensures c'.st.waveId == c.st.waveId + 1 && c'.st.checkpointCount == c.st.checkpointCount + 1
  {
    StepLaunches(g, initial, k, run, c, c');
    var launched := WaveResults(g, k, run, c).Keys;
    SubsetSize(PendingSet(c'.st) + launched, PendingSet(c.st));
    assert |PendingSet(c'.st) + launched| == |PendingSet(c'.st)| + |launched|;
  }

  /** The outcomes of the nodes launched in turn i. */
  ghost function ResultsAt(g: Graph, turns: seq<Turn>, trace: seq<Config>, i: nat): Results
    requires i < |turns| <= |trace| && Tracks(g, trace[i].st)
  {
    WaveResults(g, turns[i].limit, turns[i].run, TopAt(turns, trace, i))
  }

  /** No node is launched in two waves of a run. */
  lemma LaunchedOnce(g: Graph, initial: map<Slot, ArtifactId>, turns: seq<Turn>, trace: seq<Config>, i: nat, j: nat,
                     n: NodeId)
    requires Wired(g) && IsRun(g, initial, turns, trace) && i < j < |turns|
    requires Tracks(g, trace[i].st) && Tracks(g, trace[j].st) && n in ResultsAt(g, turns, trace, i)
    ensures n !in ResultsAt(g, turns, trace, j)
  {
    LaunchLeavesPending(g, initial, turns, trace, i, n);
    RunInv(g, initial, turns, trace, i + 1);
    RunGrows(g, initial, turns, trace, i + 1, j);
    SettledStays(trace[i + 1].st, trace[j].st, n, g);
    if n in ResultsAt(g, turns, trace, j) {
      LaunchLeavesPending(g, initial, turns, trace, j, n);
    }
  }

  /** A launched node was pending before the wave and is not after it. */
  lemma LaunchLeavesPending(g: Graph, initial: map<Slot, ArtifactId>, turns: seq<Turn>, trace: seq<Config>, i: nat,
                            n: NodeId)
    requires Wired(g) && IsRun(g, initial, turns, trace) && i < |turns|
    requires Tracks(g, trace[i].st) && n in ResultsAt(g, turns, trace, i)
    ensures n in PendingSet(trace[i].st)
    ensures n in trace[i + 1].st.status && n !in PendingSet(trace[i + 1].st)
  {
    RunInv(g, initial, turns, trace, i);
    TurnStep(g, initial, turns, trace, i);
    StepLaunches(g, initial, turns[i].limit, turns[i].run, TopAt(turns, trace, i), trace[i + 1]);
    StepGrows(g, initial, turns[i].limit, turns[i].run, TopAt(turns, trace, i), trace[i + 1]);
  }

  lemma SettledStays(s: State, s': State, n: NodeId, g: Graph)
    requires StatusInv(g, s) && Grows(s, s') && n in s.status && n !in PendingSet(s)
    ensures n !in PendingSet(s')
  {
  }

  /* ---------- the wave bound ---------- */

  /** Every node below level m is settled. */
  ghost predicate Cleared(level: map<NodeId, nat>, s: State, m: nat) {
    forall id :: id in s.status && id in level && level[id] < m ==> s.status[id] != Pending
  }

  lemma ClearedStays(g: Graph, level: map<NodeId, nat>, s: State, s': State, m: nat)
    requires StatusInv(g, s) && Grows(s, s') && Cleared(level, s, m)
    ensures Cleared(level, s', m)
  {
  }

  /** At the lowest pending level every node is ready or impossible, so a wave that is not full
      settles the whole level. */
  lemma LowestIsReady(g: Graph, level: map<NodeId, nat>, initial: map<Slot, ArtifactId>, s: State, m: nat, n: Node)
    requires AllFilled(g, s)
    requires Wired(g) && Increases(g, level) && Supplied(g, initial) && StateInv(g, initial, s) && Tracks(g, s)
    requires Cleared(level, s, m) && n in g.nodes && n.id in level && level[n.id] == m
    requires n.id in PendingSet(SkipPass(g, s))
    ensures n.id in ReadySet(g, SkipPass(g, s))
  {
    SkipShrinks(g, s);
    forall e | e in g.edges && e.dst == n.id ensures e.src in s.status && Terminal(s.status[e.src]) {
      assert e.src in level && level[e.src] < m;
    }
    ReadyXorImpossible(g, initial, s, n);
    assert n.id !in ImpossibleSet(g, s);
    SkipKeeps(g, s);
    FedStays(g, s, SkipPass(g, s), n);
  }

  lemma ShortWaveClears(g: Graph, level: map<NodeId, nat>, initial: map<Slot, ArtifactId>, k: int, run: Oracle,
                        c: Config, c': Config, m: nat)
    requires AllFilled(g, c.st)
    requires Wired(g) && Increases(g, level) && Supplied(g, initial)
    requires StateInv(g, initial, c.st) && Step(g, k, run, c, c') && Cleared(level, c.st, m)
    requires k >= 1 && |ReadyList(g, SkipPass(g, c.st), k)| < k
    ensures Cleared(level, c'.st, m + 1)
  {
    StepGrows(g, initial, k, run, c, c');
    ClearedStays(g, level, c.st, c'.st, m);
    forall id | id in c'.st.status && id in level && level[id] < m + 1 ensures c'.st.status[id] != Pending {
      if level[id] == m {
        ShortWaveTakes(g, level, initial, k, run, c, c', m, id);
      }
    }
  }

  lemma ShortWaveTakes(g: Graph, level: map<NodeId, nat>, initial: map<Slot, ArtifactId>, k: int, run: Oracle,
                       c: Config, c': Config, m: nat, id: NodeId)
    requires AllFilled(g, c.st)
    requires Wired(g) && Increases(g, level) && Supplied(g, initial)
    requires StateInv(g, initial, c.st) && Step(g, k, run, c, c') && Cleared(level, c.st, m)
    requires k >= 1 && |ReadyList(g, SkipPass(g, c.st), k)| < k && id in level && level[id] == m
    ensures id !in PendingSet(c'.st)
  {
    StepLaunches(g, initial, k, run, c, c');
    if id in PendingSet(SkipPass(g, c.st)) {
      LowestIsReady(g, level, initial, c.st, m, NodeOf(g.nodes, id));
      ShortWaveLaunches(g, k, run, c, id);
    }
  }

  /** A wave that is not full launches every ready node. */
  lemma ShortWaveLaunches(g: Graph, k: int, run: Oracle, c: Config, id: NodeId)
    requires Tracks(g, c.st) && k >= 1 && |ReadyList(g, SkipPass(g, c.st), k)| < k
    requires id in ReadySet(g, SkipPass(g, c.st))
    ensures id in WaveResults(g, k, run, c).Keys
  {
    WaveResultsKeys(g, k, run, c);
    assert ReadyList(g, SkipPass(g, c.st), k) == Sorted(ReadySet(g, SkipPass(g, c.st)));
    assert id in Sorted(ReadySet(g, SkipPass(g, c.st)));
  }

  /** A wave launches a node that is not below the cleared levels. */
  lemma LaunchesAbove(g: Graph, level: map<NodeId, nat>, initial: map<Slot, ArtifactId>, k: int, run: Oracle, c: Config,
                      c': Config, m: nat)
    requires Wired(g) && Increases(g, level)
    requires StateInv(g, initial, c.st) && Step(g, k, run, c, c') && Cleared(level, c.st, m)
    ensures exists id :: id in level && level[id] >= m
  {
    StepLaunches(g, initial, k, run, c, c');
    var launched := WaveResults(g, k, run, c).Keys;
    assert launched != {};
    var first :| first in launched;
    assert first in PendingSet(c.st);
    assert first in level && level[first] >= m;
  }

  lemma TimesMonotonic(a: nat, b: nat, k: nat)
    requires a <= b
    ensures a * k <= b * k
  {
  }

  lemma QuotientBound(f: nat, k: int, n: nat)
    requires k >= 1 && f * k <= n
    ensures f <= n / k
  {
    if f >= n / k + 1 {
      TimesMonotonic(n / k + 1, f, k);
      assert false;
    }
  }

  ghost predicate Below(level: map<NodeId, nat>, depth: nat) {
    forall id :: id in level ==> level[id] < depth
  }

  /** The nodes launched by f full waves. */
  ghost function Full(f: nat, k: int): int {
    if f == 0 then 0 else Full(f - 1, k) + k
  }

  lemma {:induction false} FullIsProduct(f: nat, k: int)
    ensures Full(f, k) == f * k
  {
    if f > 0 {
      FullIsProduct(f - 1, k);
    }
  }

  /** f full waves and at most m short ones so far, below level m nothing is pending. */
  ghost predicate Spent(g: Graph, level: map<NodeId, nat>, k: int, s: State, waves: nat, f: nat, m: nat) {
    waves <= f + m && Cleared(level, s, m) && Full(f, k) + |PendingSet(s)| <= |Ids(g)|
  }

  lemma SpendShort(g: Graph, level: map<NodeId, nat>, depth: nat, initial: map<Slot, ArtifactId>, k: int, run: Oracle,
                   c: Config, c': Config, waves: nat, f: nat, m: nat)
    requires AllFilled(g, c.st)
    requires Wired(g) && Increases(g, level) && Supplied(g, initial)
    requires StateInv(g, initial, c.st) && Step(g, k, run, c, c') && k >= 1
    requires Below(level, depth)
    requires Spent(g, level, k, c.st, waves, f, m) && m <= depth
    requires |ReadyList(g, SkipPass(g, c.st), k)| < k
    ensures Spent(g, level, k, c'.st, waves + 1, f, m + 1) && m + 1 <= depth
  {
    PendingDrops(g, initial, k, run, c, c');
    ShortWaveClears(g, level, initial, k, run, c, c', m);
    LaunchesAbove(g, level, initial, k, run, c, c', m);
  }

  lemma SpendFull(g: Graph, level: map<NodeId, nat>, initial: map<Slot, ArtifactId>, k: int, run: Oracle, c: Config,
                  c': Config, waves: nat, f: nat, m: nat)
    requires Wired(g)
    requires StateInv(g, initial, c.st) && Step(g, k, run, c, c') && k >= 1
    requires Spent(g, level, k, c.st, waves, f, m)
    requires |ReadyList(g, SkipPass(g, c.st), k)| >= k
    ensures Spent(g, level, k, c'.st, waves + 1, f + 1, m)
  {
    PendingDrops(g, initial, k, run, c, c');
    StepGrows(g, initial, k, run, c, c');
    ClearedStays(g, level, c.st, c'.st, m);
  }

  ghost predicate Affordable(g: Graph, level: map<NodeId, nat>, depth: nat, k: int, s: State, waves: nat) {
    exists f: nat, m: nat :: m <= depth && Spent(g, level, k, s, waves, f, m)
  }

  lemma SpendWave(g: Graph, level: map<NodeId, nat>, depth: nat, initial: map<Slot, ArtifactId>, k: int, run: Oracle,
                  c: Config, c': Config, waves: nat)
    requires AllFilled(g, c.st)
    requires Wired(g) && Increases(g, level) && Supplied(g, initial)
    requires StateInv(g, initial, c.st) && Step(g, k, run, c, c') && k >= 1
    requires Below(level, depth) && Affordable(g, level, depth, k, c.st, waves)
    ensures Affordable(g, level, depth, k, c'.st, waves + 1)
  {
    var f: nat, m: nat :| m <= depth && Spent(g, level, k, c.st, waves, f, m);
    if |ReadyList(g, SkipPass(g, c.st), k)| < k {
      SpendShort(g, level, depth, initial, k, run, c, c', waves, f, m);
    } else {
      SpendFull(g, level, initial, k, run, c, c', waves, f, m);
    }
  }

  lemma SpendNothing(g: Graph, level: map<NodeId, nat>, depth: nat, initial: map<Slot, ArtifactId>, k: int, s: State)
    requires StateInv(g, initial, s)
    ensures Affordable(g, level, depth, k, s, 0)
  {
    SubsetSize(PendingSet(s), Ids(g));
    assert Spent(g, level, k, s, 0, 0, 0);
  }

  ghost predicate SameLimit(turns: seq<Turn>, k: int) {
    forall i :: 0 <= i < |turns| ==> turns[i].limit == k
  }

  lemma SpendInRun(g: Graph, level: map<NodeId, nat>, depth: nat, initial: map<Slot, ArtifactId>, k: int,
                   turns: seq<Turn>, trace: seq<Config>, i: nat)
    requires Wired(g) && Increases(g, level) && Supplied(g, initial) && SameLimit(turns, k) && k >= 1
    requires IsRun(g, initial, turns, trace) && i < |turns| && AllFill(g, turns) && AllFilled(g, trace[0].st)
    requires Below(level, depth) && Affordable(g, level, depth, k, trace[i].st, i)
    ensures Affordable(g, level, depth, k, trace[i + 1].st, i + 1)
  {
    RunInv(g, initial, turns, trace, i);
    RunFilled(g, initial, turns, trace, i);
    TurnStep(g, initial, turns, trace, i);
    SpendWave(g, level, depth, initial, k, turns[i].run, TopAt(turns, trace, i), trace[i + 1], i);
  }

  lemma {:induction false} SpendRun(g: Graph, level: map<NodeId, nat>, depth: nat, initial: map<Slot, ArtifactId>,
                                    k: int, turns: seq<Turn>, trace: seq<Config>, i: nat)
    requires Wired(g) && Increases(g, level) && Supplied(g, initial) && SameLimit(turns, k) && k >= 1
    requires IsRun(g, initial, turns, trace) && i <= |turns| && AllFill(g, turns) && AllFilled(g, trace[0].st)
    requires Below(level, depth)
    ensures Affordable(g, level, depth, k, trace[i].st, i)
  {
    if i == 0 {
      RunInv(g, initial, turns, trace, 0);
      SpendNothing(g, level, depth, initial, k, trace[0].st);
    } else {
      SpendRun(g, level, depth, initial, k, turns, trace, i - 1);
      SpendInRun(g, level, depth, initial, k, turns, trace, i - 1);
    }
  }

  /** A run commits at most |nodes| div k full waves plus one short wave per compiled wave. */
  lemma WaveBound(g: Graph, waves: seq<seq<NodeId>>, initial: map<Slot, ArtifactId>, k: int, turns: seq<Turn>,
                  trace: seq<Config>)
    requires Wired(g) && Placed(g, waves) && Increases(g, Levels(g, waves)) && Supplied(g, initial)
    requires IsRun(g, initial, turns, trace) && SameLimit(turns, k) && k >= 1
    requires AllFill(g, turns) && AllFilled(g, trace[0].st)
    ensures |turns| <= |Ids(g)| / k + |waves|
  {
    SpendRun(g, Levels(g, waves), |waves|, initial, k, turns, trace, |turns|);
    var f: nat, m: nat :| m <= |waves| && Spent(g, Levels(g, waves), k, trace[|turns|].st, |turns|, f, m);
    FullIsProduct(f, k);
    QuotientBound(f, k, |Ids(g)|);
  }
}
