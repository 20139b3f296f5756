/** Where every committed artifact comes from, in any run of any graph: typed delivery, lineage and
    branch exclusion follow. */
module Provenance {
  import opened Types
  import opened EdgeConditions
  import opened Scheduling
  import opened Stores
  import opened Committing
  import opened Runs
  import opened Progress
  import opened Independence
  import Meaning

  /** What executors may return for a node and its inputs. */
  type Behaviour = (NodeId, Inputs, Outcome) -> bool

  ghost predicate Complies(may: Behaviour, run: Oracle) {
    forall n, ins: Inputs :: may(n, ins, run(n, ins))
  }

  ghost predicate AllComply(may: Behaviour, turns: seq<Turn>) {
    forall i :: 0 <= i < |turns| ==> Complies(may, turns[i].run)
  }

  /* ---------- the invariant ---------- */

  /** The artifact under an output of a node. */
  ghost predicate Holding(s: State, store: Store, n: NodeId, out: Slot, a: Artifact) {
    n in s.outputs && out in s.outputs[n] && s.outputs[n][out] in store && store[s.outputs[n][out]] == a
  }

  /** A slot was given the initial artifact, or the output of the source of an active edge. */
  ghost predicate Source(g: Graph, bundle: map<Slot, Artifact>, s: State, store: Store, n: NodeId, slot: Slot,
                         a: Artifact)
  {
    if slot in bundle then a == bundle[slot]
    else exists e :: e in g.edges && Feeds(e, n, slot) && e.id in s.active && Holding(s, store, e.src, e.out, a)
  }

  /** The node's outputs are what its executor made of artifacts from proper sources. */
  ghost predicate Made(g: Graph, may: Behaviour, bundle: map<Slot, Artifact>, s: State, store: Store, n: Node,
                       ins: Inputs, outs: map<Slot, Artifact>)
  {
    && may(n.id, ins, Success(outs))
    && n.id in s.outputs && s.outputs[n.id] == IdsOf(outs)
    && (forall slot :: slot in outs ==> outs[slot].id in store && store[outs[slot].id] == outs[slot])
    && ins.Keys == n.inputs.Keys
    && (forall slot :: slot in n.inputs ==> Source(g, bundle, s, store, n.id, slot, ins[slot]))
  }

  ghost predicate IsMade(g: Graph, may: Behaviour, bundle: map<Slot, Artifact>, s: State, store: Store, n: Node) {
    exists ins, outs :: Made(g, may, bundle, s, store, n, ins, outs)
  }

  /** The output holds an artifact of which the edge's condition holds. */
  ghost predicate Accepts(s: State, store: Store, e: Edge)
    requires e.cond.Some?
  {
    exists a :: Holding(s, store, e.src, e.out, a) && Holds(e.cond.value, a.payload)
  }

  /** A conditional edge is active exactly if its condition holds of an artifact on its output. */
  ghost predicate Decided(s: State, store: Store, e: Edge) {
    e.cond.Some? ==> (e.id in s.active <==> Accepts(s, store, e))
  }

  ghost predicate ProvInv(g: Graph, may: Behaviour, bundle: map<Slot, Artifact>, s: State, store: Store) {
    && (forall n: Node :: n in g.nodes && n.id in s.outputs ==> IsMade(g, may, bundle, s, store, n))
    && (forall e :: e in g.edges ==> Decided(s, store, e))
    && (forall slot :: slot in bundle ==> bundle[slot].id in store && store[bundle[slot].id] == bundle[slot])
  }

  lemma InitProv(g: Graph, may: Behaviour, bundle: map<Slot, Artifact>, before: Store, c: Config)
    requires Wired(g) && IsInit(g, bundle, before, c)
    ensures ProvInv(g, may, bundle, c.st, c.store)
  {
    forall slot | slot in bundle ensures bundle[slot].id in c.store && c.store[bundle[slot].id] == bundle[slot] {
      assert bundle[slot] in BundleArtifacts(bundle);
    }
  }

  /** Only outputs and active edges matter. */
  lemma SameProv(g: Graph, may: Behaviour, bundle: map<Slot, Artifact>, s: State, s': State, store: Store)
    requires ProvInv(g, may, bundle, s, store) && s'.outputs == s.outputs && s'.active == s.active
    ensures ProvInv(g, may, bundle, s', store)
  {
    forall n: Node | n in g.nodes && n.id in s'.outputs ensures IsMade(g, may, bundle, s', store, n) {
      var ins, outs :| Made(g, may, bundle, s, store, n, ins, outs);
      forall slot | slot in n.inputs ensures Source(g, bundle, s', store, n.id, slot, ins[slot]) {
        SourceStays(g, bundle, s, store, s', store, n.id, slot, ins[slot]);
      }
      assert Made(g, may, bundle, s', store, n, ins, outs);
    }
    forall e | e in g.edges ensures Decided(s', store, e) {
      assert Decided(s, store, e);
      assert forall a :: Holding(s', store, e.src, e.out, a) <==> Holding(s, store, e.src, e.out, a);
    }
  }

  lemma SourceStays(g: Graph, bundle: map<Slot, Artifact>, s: State, store: Store, s': State, store': Store, n: NodeId,
                    slot: Slot, a: Artifact)
    requires Source(g, bundle, s, store, n, slot, a) && s.active <= s'.active
    requires forall id :: id in s.outputs ==> id in s'.outputs && s'.outputs[id] == s.outputs[id]
    requires forall id :: id in store ==> id in store' && store'[id] == store[id]
    ensures Source(g, bundle, s', store', n, slot, a)
  {
    if slot !in bundle {
      var e :| e in g.edges && Feeds(e, n, slot) && e.id in s.active && Holding(s, store, e.src, e.out, a);
      assert Holding(s', store', e.src, e.out, a);
    }
  }

  lemma MadeStays(g: Graph, may: Behaviour, bundle: map<Slot, Artifact>, s: State, store: Store, s': State,
                  store': Store, n: Node)
    requires IsMade(g, may, bundle, s, store, n) && Grows(s, s')
    requires forall id :: id in store ==> id in store' && store'[id] == store[id]
    ensures IsMade(g, may, bundle, s', store', n)
  {
    var ins, outs :| Made(g, may, bundle, s, store, n, ins, outs);
    forall slot | slot in n.inputs ensures Source(g, bundle, s', store', n.id, slot, ins[slot]) {
      SourceStays(g, bundle, s, store, s', store', n.id, slot, ins[slot]);
    }
    assert Made(g, may, bundle, s', store', n, ins, outs);
  }

  /** An output that is there is held in the store. */
  lemma OutputHeld(g: Graph, may: Behaviour, bundle: map<Slot, Artifact>, s: State, store: Store, m: Node, out: Slot)
    requires ProvInv(g, may, bundle, s, store) && m in g.nodes && m.id in s.outputs && out in s.outputs[m.id]
    ensures s.outputs[m.id][out] in store && Holding(s, store, m.id, out, store[s.outputs[m.id][out]])
    ensures store[s.outputs[m.id][out]].id == s.outputs[m.id][out]
  {
    assert IsMade(g, may, bundle, s, store, m);
    var ins, outs: map<Slot, Artifact> :| Made(g, may, bundle, s, store, m, ins, outs);
    assert outs[out].id in store;
  }

  /** What a slot resolves to is in the store and has a proper source. */
  lemma ResolvedHasSource(g: Graph, may: Behaviour, bundle: map<Slot, Artifact>, s: State, store: Store, n: Node,
                          slot: Slot)
    requires Wired(g) && StateInv(g, IdsOf(bundle), s) && ProvInv(g, may, bundle, s, store)
    requires slot in n.inputs && ResolvedId(g, s, n.id, slot).Some?
    ensures var id := ResolvedId(g, s, n.id, slot).value;
      id in store && store[id].id == id && Source(g, bundle, s, store, n.id, slot, store[id])
  {
    if slot !in bundle {
      var e :| e in EdgesInto(g.edges, n.id, slot) && Available(s, e)
               && ResolvedId(g, s, n.id, slot).value == s.outputs[e.src][e.out];
      assert Joins(g, e);
      OutputHeld(g, may, bundle, s, store, NodeOf(g.nodes, e.src), e.out);
    }
  }

  /** A launched node that succeeds is properly made. */
  lemma LaunchedIsMade(g: Graph, may: Behaviour, bundle: map<Slot, Artifact>, s: State, store: Store, n: Node,
                       s': State, store': Store, outs: map<Slot, Artifact>)
    requires Wired(g) && StateInv(g, IdsOf(bundle), s) && ProvInv(g, may, bundle, s, store)
    requires n in g.nodes && Fed(g, s, n) && may(n.id, Delivered(g, s, store, n), Success(outs))
    requires Grows(s, s') && n.id in s'.outputs && s'.outputs[n.id] == IdsOf(outs)
    requires forall id :: id in store ==> id in store' && store'[id] == store[id]
    requires forall slot :: slot in outs ==> outs[slot].id in store' && store'[outs[slot].id] == outs[slot]
    ensures IsMade(g, may, bundle, s', store', n)
  {
    var ins := Delivered(g, s, store, n);
    LaunchedAllFrom(g, may, bundle, s, store, n, s', store');
    FromMakes(g, may, bundle, s', store', n, ins, outs);
  }

  lemma LaunchedAllFrom(g: Graph, may: Behaviour, bundle: map<Slot, Artifact>, s: State, store: Store, n: Node,
                        s': State, store': Store)
    requires Wired(g) && StateInv(g, IdsOf(bundle), s) && ProvInv(g, may, bundle, s, store)
    requires n in g.nodes && Fed(g, s, n) && Grows(s, s')
    requires Keeps(store, store')
    ensures IsFrom(g, bundle, s', store', n, Delivered(g, s, store, n))
  {
    forall slot | slot in n.inputs ensures From(g, bundle, s', store', n.id, slot, Delivered(g, s, store, n)) {
      LaunchedFrom(g, may, bundle, s, store, n, s', store', slot);
    }
  }

  lemma LaunchedFrom(g: Graph, may: Behaviour, bundle: map<Slot, Artifact>, s: State, store: Store, n: Node, s': State,
                     store': Store, slot: Slot)
    requires Wired(g) && StateInv(g, IdsOf(bundle), s) && ProvInv(g, may, bundle, s, store)
    requires n in g.nodes && Fed(g, s, n) && Grows(s, s') && slot in n.inputs
    requires Keeps(store, store')
    ensures From(g, bundle, s', store', n.id, slot, Delivered(g, s, store, n))
  {
    DeliveredFrom(g, may, bundle, s, store, n, slot);
    FromStays(g, bundle, s, store, s', store', n.id, slot, Delivered(g, s, store, n));
  }

  lemma FromStays(g: Graph, bundle: map<Slot, Artifact>, s: State, store: Store, s': State, store': Store, n: NodeId,
                  slot: Slot, ins: Inputs)
    requires From(g, bundle, s, store, n, slot, ins) && Grows(s, s')
    requires forall id :: id in store ==> id in store' && store'[id] == store[id]
    ensures From(g, bundle, s', store', n, slot, ins)
  {
    SourceStays(g, bundle, s, store, s', store', n, slot, ins[slot]);
  }

  lemma FromMakes(g: Graph, may: Behaviour, bundle: map<Slot, Artifact>, s: State, store: Store, n: Node, ins: Inputs,
                  outs: map<Slot, Artifact>)
    requires IsFrom(g, bundle, s, store, n, ins)
    requires may(n.id, ins, Success(outs)) && n.id in s.outputs && s.outputs[n.id] == IdsOf(outs)
    requires forall slot :: slot in outs ==> outs[slot].id in store && store[outs[slot].id] == outs[slot]
    ensures IsMade(g, may, bundle, s, store, n)
  {
    AllFrom(g, bundle, s, store, n, ins);
    assert Made(g, may, bundle, s, store, n, ins, outs);
  }

  ghost predicate From(g: Graph, bundle: map<Slot, Artifact>, s: State, store: Store, n: NodeId, slot: Slot,
                       ins: Inputs)
  {
    slot in ins && Source(g, bundle, s, store, n, slot, ins[slot])
  }

  /** Every slot of the node has been given something, and no other. */
  ghost predicate IsFrom(g: Graph, bundle: map<Slot, Artifact>, s: State, store: Store, n: Node, ins: Inputs) {
    ins.Keys <= n.inputs.Keys && forall slot :: slot in n.inputs ==> From(g, bundle, s, store, n.id, slot, ins)
  }

  lemma AllFrom(g: Graph, bundle: map<Slot, Artifact>, s: State, store: Store, n: Node, ins: Inputs)
    requires IsFrom(g, bundle, s, store, n, ins)
    ensures ins.Keys == n.inputs.Keys
    ensures forall slot :: slot in n.inputs ==> Source(g, bundle, s, store, n.id, slot, ins[slot])
  {
    assert forall slot :: slot in n.inputs ==> From(g, bundle, s, store, n.id, slot, ins) && slot in ins.Keys;
  }

  lemma DeliveredFrom(g: Graph, may: Behaviour, bundle: map<Slot, Artifact>, s: State, store: Store, n: Node,
                      slot: Slot)
    requires Wired(g) && StateInv(g, IdsOf(bundle), s) && ProvInv(g, may, bundle, s, store)
    requires n in g.nodes && Fed(g, s, n) && slot in n.inputs
    ensures From(g, bundle, s, store, n.id, slot, Delivered(g, s, store, n))
    ensures Delivered(g, s, store, n)[slot].id == ResolvedId(g, s, n.id, slot).value
  {
    ResolvedHasSource(g, may, bundle, s, store, n, slot);
    Meaning.DeliveredAt(g, s, store, n, slot);
  }

  /** The outcomes of a wave come from its executors, run on what was delivered. */
  ghost predicate FromExecutors(g: Graph, may: Behaviour, s: State, store: Store, results: Results) {
    forall n: Node :: n in g.nodes && n.id in results ==>
        Fed(g, s, n) && may(n.id, Delivered(g, s, store, n), results[n.id])
  }

  lemma WaveFromExecutors(g: Graph, k: int, may: Behaviour, run: Oracle, c: Config)
    requires Wired(g) && Tracks(g, c.st) && Complies(may, run)
    ensures FromExecutors(g, may, SkipPass(g, c.st), c.store, WaveResults(g, k, run, c))
  {
    WaveResultsKeys(g, k, run, c);
    var d := SkipPass(g, c.st);
    forall n: Node | n in g.nodes && n.id in WaveResults(g, k, run, c)
      ensures Fed(g, d, n) && WaveResults(g, k, run, c)[n.id] == run(n.id, Delivered(g, d, c.store, n))
    {
      LaunchedFed(g, d, n);
      Meaning.UniqueNodeOf(g, n);
    }
  }

  lemma ApplyMade(g: Graph, may: Behaviour, bundle: map<Slot, Artifact>, s: State, store: Store, results: Results,
                  store': Store, n: Node)
    requires Wired(g) && StateInv(g, IdsOf(bundle), s) && ProvInv(g, may, bundle, s, store)
    requires GoodResults(s, results) && FromExecutors(g, may, s, store, results)
    requires Stored(store, ArtifactsOf(results), store')
    requires n in g.nodes && n.id in Apply(g, s, results).outputs
    ensures IsMade(g, may, bundle, Apply(g, s, results), store', n)
  {
    ApplyGrows(g, s, results);
    ApplyOutputs(g, s, results, n.id);
    if n.id in s.outputs {
      MadeStays(g, may, bundle, s, store, Apply(g, s, results), store', n);
    } else {
      var outs := results[n.id].outputs;
      assert forall slot :: slot in outs ==> outs[slot] in ArtifactsOf(results);
      LaunchedIsMade(g, may, bundle, s, store, n, Apply(g, s, results), store', outs);
    }
  }

  lemma ApplyDecided(g: Graph, may: Behaviour, bundle: map<Slot, Artifact>, s: State, store: Store, results: Results,
                     store': Store, e: Edge)
    requires Wired(g) && StateInv(g, IdsOf(bundle), s) && ProvInv(g, may, bundle, s, store)
    requires GoodResults(s, results) && Stored(store, ArtifactsOf(results), store') && e in g.edges
    ensures Decided(Apply(g, s, results), store', e)
  {
    var s' := Apply(g, s, results);
    FiredIff(g, results, e);
    ApplyOutputs(g, s, results, e.src);
    assert EdgeStatus(s, e) && Decided(s, store, e);
    if e.src in s.outputs {
      assert Joins(g, e);
      HoldingStays(g, may, bundle, s, store, s', store', e);
    } else if Carries(results, e) {
      var a := results[e.src].outputs[e.out];
      assert a in ArtifactsOf(results);
      assert Holding(s', store', e.src, e.out, a);
    }
  }

  /** What an output holds does not change. */
  lemma HoldingStays(g: Graph, may: Behaviour, bundle: map<Slot, Artifact>, s: State, store: Store, s': State,
                     store': Store, e: Edge)
    requires Wired(g) && ProvInv(g, may, bundle, s, store) && e in g.edges && Joins(g, e) && e.src in s.outputs
    requires e.src in s'.outputs && s'.outputs[e.src] == s.outputs[e.src]
    requires forall id :: id in store ==> id in store' && store'[id] == store[id]
    ensures forall a :: Holding(s', store', e.src, e.out, a) <==> Holding(s, store, e.src, e.out, a)
  {
    if e.out in s.outputs[e.src] {
      OutputHeld(g, may, bundle, s, store, NodeOf(g.nodes, e.src), e.out);
    }
  }

  lemma ApplyProv(g: Graph, may: Behaviour, bundle: map<Slot, Artifact>, s: State, store: Store, results: Results,
                  store': Store)
    requires Wired(g) && StateInv(g, IdsOf(bundle), s) && ProvInv(g, may, bundle, s, store)
    requires GoodResults(s, results) && FromExecutors(g, may, s, store, results)
    requires Stored(store, ArtifactsOf(results), store')
    ensures ProvInv(g, may, bundle, Apply(g, s, results), store')
  {
    forall n: Node | n in g.nodes && n.id in Apply(g, s, results).outputs
      ensures IsMade(g, may, bundle, Apply(g, s, results), store', n)
    {
      ApplyMade(g, may, bundle, s, store, results, store', n);
    }
    forall e | e in g.edges ensures Decided(Apply(g, s, results), store', e) {
      ApplyDecided(g, may, bundle, s, store, results, store', e);
    }
  }

  lemma StepProv(g: Graph, may: Behaviour, run: Oracle, bundle: map<Slot, Artifact>, k: int, c: Config, c': Config)
    requires Wired(g) && Complies(may, run) && StateInv(g, IdsOf(bundle), c.st)
    requires ProvInv(g, may, bundle, c.st, c.store) && Step(g, k, run, c, c')
    ensures ProvInv(g, may, bundle, c'.st, c'.store)
  {
    var d, results := SkipPass(g, c.st), WaveResults(g, k, run, c);
    SkipInv(g, IdsOf(bundle), c.st);
    SameProv(g, may, bundle, c.st, d, c.store);
    WaveIsGood(g, k, run, c);
    WaveFromExecutors(g, k, may, run, c);
    ApplyProv(g, may, bundle, d, c.store, results, c'.store);
    SameProv(g, may, bundle, Apply(g, d, results), c'.st, c'.store);
  }

  /** Artifacts added to the store change nothing. */
  lemma KeepsProv(g: Graph, may: Behaviour, bundle: map<Slot, Artifact>, s: State, store: Store, store': Store)
    requires Wired(g) && ProvInv(g, may, bundle, s, store) && Keeps(store, store')
    ensures ProvInv(g, may, bundle, s, store')
  {
    GrowsReflexive(s);
    forall n: Node | n in g.nodes && n.id in s.outputs ensures IsMade(g, may, bundle, s, store', n) {
      MadeStays(g, may, bundle, s, store, s, store', n);
    }
    forall e | e in g.edges ensures Decided(s, store', e) {
      assert Joins(g, e) && Decided(s, store, e);
      if e.src in s.outputs {
        HoldingStays(g, may, bundle, s, store, s, store', e);
      }
    }
  }

  lemma NextProv(g: Graph, may: Behaviour, bundle: map<Slot, Artifact>, turns: seq<Turn>, trace: seq<Config>, i: nat)
    requires Wired(g) && IsRun(g, IdsOf(bundle), turns, trace) && AllComply(may, turns) && i < |turns|
    requires ProvInv(g, may, bundle, trace[i].st, trace[i].store)
    ensures ProvInv(g, may, bundle, trace[i + 1].st, trace[i + 1].store)
  {
    var top := TopAt(turns, trace, i);
    RunInv(g, IdsOf(bundle), turns, trace, i);
    TurnStep(g, IdsOf(bundle), turns, trace, i);
    KeepsProv(g, may, bundle, trace[i].st, trace[i].store, top.store);
    StepProv(g, may, turns[i].run, bundle, turns[i].limit, top, trace[i + 1]);
  }

  /** A run whose executors comply, from a state in which every output has been made properly. */
  ghost predicate IsMadeRun(g: Graph, may: Behaviour, bundle: map<Slot, Artifact>, turns: seq<Turn>,
                            trace: seq<Config>)
  {
    && IsRun(g, IdsOf(bundle), turns, trace)
    && AllComply(may, turns)
    && ProvInv(g, may, bundle, trace[0].st, trace[0].store)
  }

  /** In every run of every graph, each succeeded node's outputs were made by its executor from
      artifacts that an initial slot or an active edge delivered, and the edge outcomes are those
      the conditions decide. */
  lemma {:induction false} RunProv(g: Graph, may: Behaviour, bundle: map<Slot, Artifact>, turns: seq<Turn>,
                                   trace: seq<Config>, i: nat)
    requires Wired(g) && IsMadeRun(g, may, bundle, turns, trace) && i <= |turns|
    ensures ProvInv(g, may, bundle, trace[i].st, trace[i].store)
  {
    if i > 0 {
      RunProv(g, may, bundle, turns, trace, i - 1);
      NextProv(g, may, bundle, turns, trace, i - 1);
    }
  }
}
