/** What a graph means, independently of any schedule, and the proof that every step agrees. */
module Meaning {
  import opened Types
  import opened EdgeConditions
  import opened Scheduling
  import opened Stores
  import opened Committing
  import opened Runs

  /* ---------- artifacts that are as good as each other ---------- */

  /** Two artifacts that may differ in their ids and timestamps, say, but not in what matters. */
  type Likeness = (Artifact, Artifact) -> bool

  ghost predicate LikeSlots(like: Likeness, xs: map<Slot, Artifact>, ys: map<Slot, Artifact>) {
    xs.Keys == ys.Keys && forall slot :: slot in xs ==> like(xs[slot], ys[slot])
  }

  ghost predicate LikeOutcomes(like: Likeness, o: Outcome, o': Outcome) {
    match (o, o')
    case (Failure, Failure) => true
    case (Success(xs), Success(ys)) => LikeSlots(like, xs, ys)
    case _ => false
  }

  /** On like inputs the executors have like outcomes. */
  ghost predicate Congruent(like: Likeness, run: Oracle, run': Oracle) {
    forall n, ins: Inputs, ins': Inputs :: LikeSlots(like, ins, ins') ==> LikeOutcomes(like, run(n, ins), run'(n, ins'))
  }

  /** The conditions on edges do not tell like artifacts apart. */
  ghost predicate Respects(g: Graph, like: Likeness) {
    forall e, a: Artifact, b: Artifact :: e in g.edges && e.cond.Some? && like(a, b) ==>
      (Holds(e.cond.value, a.payload) <==> Holds(e.cond.value, b.payload))
  }

  /* ---------- the meaning ---------- */

  /** What a graph is read against: its levels, some executors, a bundle, and what counts as alike. The
      runs compared with it may have other executors and bundles that do alike things. */
  datatype Reference = Reference(level: map<NodeId, nat>, run: Oracle, bundle: map<Slot, Artifact>, like: Likeness)

  /** A node either runs, on determined inputs with a determined outcome, or is never fed. */
  datatype Fate = Unfed | Runs(inputs: Inputs, outcome: Outcome)

  ghost function FateOf(g: Graph, ref: Reference, id: NodeId): (fate: Fate)
    requires Increases(g, ref.level) && id in ref.level
    ensures fate.Runs? ==> fate.outcome == ref.run(id, fate.inputs)
    decreases ref.level[id], 2
  {
    var ins := Deliveries(g, ref, id, NodeOf(g.nodes, id).inputs.Keys);
    if ins.Keys == NodeOf(g.nodes, id).inputs.Keys then Runs(ins, ref.run(id, ins)) else Unfed
  }

  /** The artifacts the given slots receive; a slot that receives none is absent. */
  ghost function Deliveries(g: Graph, ref: Reference, id: NodeId, slots: set<Slot>): Inputs
    requires Increases(g, ref.level) && id in ref.level
    decreases ref.level[id], 1
  {
    map slot | slot in slots && Delivery(g, ref, id, slot).Some? :: Delivery(g, ref, id, slot).value
  }

  /** The artifact a slot receives: the initial one, or what some edge carries. */
  ghost function Delivery(g: Graph, ref: Reference, id: NodeId, slot: Slot): Option<Artifact>
    requires Increases(g, ref.level) && id in ref.level
    decreases ref.level[id], 0
  {
    if slot in ref.bundle then Some(ref.bundle[slot])
    else if exists e :: e in g.edges && Feeds(e, id, slot) && Carried(g, ref, e).Some? then
      var e :| e in g.edges && Feeds(e, id, slot) && Carried(g, ref, e).Some?;
      Carried(g, ref, e)
    else None
  }

  /** An edge carries its source's output if the source runs and succeeds and the condition holds. */
  ghost function Carried(g: Graph, ref: Reference, e: Edge): Option<Artifact>
    requires Increases(g, ref.level) && e in g.edges
    decreases ref.level[e.src], 3
  {
    CarriedFrom(FateOf(g, ref, e.src), e)
  }

  ghost function CarriedFrom(fate: Fate, e: Edge): Option<Artifact> {
    match fate
    case Runs(_, Success(outs)) =>
      if e.out in outs && (e.cond.None? || Holds(e.cond.value, outs[e.out].payload)) then Some(outs[e.out]) else None
    case _ => None
  }

  /** At most one edge into a slot carries anything. */
  ghost predicate Unambiguous(g: Graph, ref: Reference)
    requires Increases(g, ref.level)
  {
    forall a, b :: a in g.edges && b in g.edges && Rivals(a, b, ref.bundle) ==>
      !(Carried(g, ref, a).Some? && Carried(g, ref, b).Some?)
  }

  /** Two edges compete for one slot that has no initial artifact. */
  ghost predicate Rivals(a: Edge, b: Edge, bundle: map<Slot, Artifact>) {
    a != b && a.dst == b.dst && a.inp == b.inp && a.inp !in bundle
  }

  /** A graph for which the meaning decides: its edges are filled, no two of them carry into one slot,
      and their conditions go by what matters. */
  ghost predicate Decisive(g: Graph, ref: Reference) {
    && Wired(g) && Increases(g, ref.level) && FillsEdges(g, ref.run)
    && Unambiguous(g, ref) && Respects(g, ref.like)
  }

  /** The slot has been given something like what it is meant to receive. */
  ghost predicate IsDelivered(like: Likeness, delivery: Option<Artifact>, ins: Inputs, slot: Slot) {
    slot in ins && delivery.Some? && like(delivery.value, ins[slot])
  }

  ghost predicate AreDeliveries(g: Graph, ref: Reference, n: Node, ins: Inputs)
    requires Increases(g, ref.level) && n.id in ref.level
  {
    && ins.Keys <= n.inputs.Keys
    && forall slot :: slot in n.inputs ==> IsDelivered(ref.like, Delivery(g, ref, n.id, slot), ins, slot)
  }

  ghost predicate FedLike(g: Graph, ref: Reference, id: NodeId, ins: Inputs)
    requires Increases(g, ref.level) && id in ref.level
  {
    FateOf(g, ref, id).Runs? && LikeSlots(ref.like, FateOf(g, ref, id).inputs, ins)
  }

  lemma FateWhenFed(g: Graph, ref: Reference, n: Node, ins: Inputs)
    requires Increases(g, ref.level) && n.id in ref.level && NodeOf(g.nodes, n.id) == n
    requires AreDeliveries(g, ref, n, ins)
    ensures FedLike(g, ref, n.id, ins)
  {
    DeliveriesAre(g, ref, n, ins);
  }

  lemma DeliveriesAre(g: Graph, ref: Reference, n: Node, ins: Inputs)
    requires Increases(g, ref.level) && n.id in ref.level && AreDeliveries(g, ref, n, ins)
    ensures Deliveries(g, ref, n.id, n.inputs.Keys).Keys == n.inputs.Keys == ins.Keys
    ensures LikeSlots(ref.like, Deliveries(g, ref, n.id, n.inputs.Keys), ins)
  {
    forall slot | slot in n.inputs ensures IsDelivered(ref.like, Delivery(g, ref, n.id, slot), ins, slot) {
    }
    assert forall slot :: slot in n.inputs ==> slot in ins.Keys;
  }

  lemma FateWhenStarved(g: Graph, ref: Reference, n: Node, slot: Slot)
    requires Increases(g, ref.level) && n.id in ref.level && NodeOf(g.nodes, n.id) == n
    requires slot in n.inputs && slot !in ref.bundle
    requires forall e :: e in g.edges && Feeds(e, n.id, slot) ==> Carried(g, ref, e).None?
    ensures FateOf(g, ref, n.id) == Unfed
  {
    assert Delivery(g, ref, n.id, slot).None?;
    assert slot !in Deliveries(g, ref, n.id, n.inputs.Keys);
  }

  lemma DeliveryIsCarried(g: Graph, ref: Reference, e: Edge)
    requires Increases(g, ref.level) && Unambiguous(g, ref) && e in g.edges && e.dst in ref.level
    requires e.inp !in ref.bundle && Carried(g, ref, e).Some?
    ensures Delivery(g, ref, e.dst, e.inp) == Carried(g, ref, e)
  {
    assert Feeds(e, e.dst, e.inp);
  }

  /* ---------- agreement ---------- */

  /** The store has something like the artifact under this id. */
  ghost predicate HeldAs(like: Likeness, store: Store, a: Artifact, id: ArtifactId) {
    id in store && like(a, store[id])
  }

  ghost predicate HeldSlots(like: Likeness, store: Store, arts: map<Slot, Artifact>, ids: map<Slot, ArtifactId>) {
    arts.Keys == ids.Keys && forall slot :: slot in arts ==> HeldAs(like, store, arts[slot], ids[slot])
  }

  /** A node's status and outputs are what its fate says, up to likeness; a pending node has yet to
      meet it. */
  ghost predicate NodeAgrees(like: Likeness, fate: Fate, s: State, store: Store, id: NodeId)
    requires id in s.status
  {
    match s.status[id]
    case Succeeded =>
      && fate.Runs? && fate.outcome.Success?
      && id in s.outputs && HeldSlots(like, store, fate.outcome.outputs, s.outputs[id])
    case Failed => fate.Runs? && fate.outcome.Failure?
    case Skipped => fate.Unfed?
    case _ => true
  }

  ghost predicate EdgeAgrees(carried: Option<Artifact>, s: State, e: Edge)
    requires e.src in s.status
  {
    s.status[e.src] == Succeeded ==> (e.id in s.active <==> carried.Some?)
  }

  ghost predicate Agrees(g: Graph, ref: Reference, s: State, store: Store)
    requires Increases(g, ref.level)
  {
    && s.status.Keys == ref.level.Keys
    && (forall id :: id in ref.level ==> NodeAgrees(ref.like, FateOf(g, ref, id), s, store, id))
    && (forall e :: e in g.edges ==> EdgeAgrees(Carried(g, ref, e), s, e))
    && HeldSlots(ref.like, store, ref.bundle, s.initial)
  }

  lemma InitAgrees(g: Graph, ref: Reference, bundle: map<Slot, Artifact>, before: Store, c: Config)
    requires Increases(g, ref.level) && LikeSlots(ref.like, ref.bundle, bundle) && IsInit(g, bundle, before, c)
    ensures Agrees(g, ref, c.st, c.store)
  {
    forall slot | slot in bundle ensures bundle[slot].id in c.store && c.store[bundle[slot].id] == bundle[slot] {
      assert bundle[slot] in BundleArtifacts(bundle);
    }
  }

  /** A dead edge carries nothing. */
  lemma DeadCarriesNothing(g: Graph, ref: Reference, initial: map<Slot, ArtifactId>, s: State, store: Store, e: Edge)
    requires Increases(g, ref.level) && StateInv(g, initial, s) && Agrees(g, ref, s, store)
    requires e in g.edges && e.src in s.status && Dead(s, e)
    ensures Carried(g, ref, e).None?
  {
    assert EdgeStatus(s, e);
    assert EdgeAgrees(Carried(g, ref, e), s, e);
    assert NodeAgrees(ref.like, FateOf(g, ref, e.src), s, store, e.src);
  }

  /** A node is skipped only if it is never fed. */
  lemma ImpossibleIsUnfed(g: Graph, ref: Reference, initial: map<Slot, ArtifactId>, s: State, store: Store, n: Node)
    requires Wired(g) && Increases(g, ref.level) && StateInv(g, initial, s) && Agrees(g, ref, s, store)
    requires Tracks(g, s) && n in g.nodes && n.id in s.status && IsImpossible(g, s, n)
    ensures FateOf(g, ref, n.id) == Unfed
  {
    var slot :| slot in n.inputs && Starved(g, s, n.id, slot);
    assert slot !in ref.bundle;
    forall e | e in g.edges && Feeds(e, n.id, slot) ensures Carried(g, ref, e).None? {
      assert e in EdgesInto(g.edges, n.id, slot);
      DeadCarriesNothing(g, ref, initial, s, store, e);
    }
    FateWhenStarved(g, ref, n, slot);
  }

  lemma SkipAgrees(g: Graph, ref: Reference, initial: map<Slot, ArtifactId>, s: State, store: Store)
    requires Wired(g) && Increases(g, ref.level) && StateInv(g, initial, s) && Agrees(g, ref, s, store)
    requires Tracks(g, s)
    ensures Agrees(g, ref, SkipPass(g, s), store)
  {
    var s' := SkipPass(g, s);
    forall id | id in ref.level ensures NodeAgrees(ref.like, FateOf(g, ref, id), s', store, id) {
      assert NodeAgrees(ref.like, FateOf(g, ref, id), s, store, id);
      if id in ImpossibleSet(g, s) {
        var n :| n in g.nodes && IsImpossible(g, s, n) && n.id == id;
        ImpossibleIsUnfed(g, ref, initial, s, store, n);
      }
    }
    forall e | e in g.edges ensures EdgeAgrees(Carried(g, ref, e), s', e) {
      assert EdgeAgrees(Carried(g, ref, e), s, e);
    }
  }

  /** What an available edge offers is like what the edge carries. */
  lemma AvailableCarries(g: Graph, ref: Reference, initial: map<Slot, ArtifactId>, s: State, store: Store, e: Edge)
    requires Increases(g, ref.level) && StateInv(g, initial, s) && Agrees(g, ref, s, store)
    requires e in g.edges && Available(s, e)
    ensures Carried(g, ref, e).Some? && HeldAs(ref.like, store, Carried(g, ref, e).value, s.outputs[e.src][e.out])
  {
    assert s.status[e.src] == Succeeded;
    assert EdgeAgrees(Carried(g, ref, e), s, e);
    assert NodeAgrees(ref.like, FateOf(g, ref, e.src), s, store, e.src);
  }

  /** What the slot resolves to is held like what it is meant to receive. */
  ghost predicate Resolves(g: Graph, ref: Reference, s: State, store: Store, id: NodeId, slot: Slot)
    requires Increases(g, ref.level) && id in ref.level && ResolvedId(g, s, id, slot).Some?
  {
    && Delivery(g, ref, id, slot).Some?
    && HeldAs(ref.like, store, Delivery(g, ref, id, slot).value, ResolvedId(g, s, id, slot).value)
  }

  lemma ResolvedIsDelivery(g: Graph, ref: Reference, initial: map<Slot, ArtifactId>, s: State, store: Store, n: Node,
                           slot: Slot)
    requires Increases(g, ref.level) && StateInv(g, initial, s) && Agrees(g, ref, s, store) && Unambiguous(g, ref)
    requires n in g.nodes && n.id in ref.level && slot in n.inputs && ResolvedId(g, s, n.id, slot).Some?
    ensures Resolves(g, ref, s, store, n.id, slot)
  {
    if slot !in s.initial {
      var e :| e in EdgesInto(g.edges, n.id, slot) && Available(s, e)
               && ResolvedId(g, s, n.id, slot).value == s.outputs[e.src][e.out];
      AvailableCarries(g, ref, initial, s, store, e);
      DeliveryIsCarried(g, ref, e);
    }
  }

  lemma DeliveredAt(g: Graph, s: State, store: Store, n: Node, slot: Slot)
    requires slot in n.inputs && ResolvedId(g, s, n.id, slot).Some? && ResolvedId(g, s, n.id, slot).value in store
    ensures slot in Delivered(g, s, store, n)
    ensures Delivered(g, s, store, n)[slot] == store[ResolvedId(g, s, n.id, slot).value]
  {
  }

  lemma SlotDelivered(g: Graph, ref: Reference, initial: map<Slot, ArtifactId>, s: State, store: Store, n: Node,
                      slot: Slot)
    requires Increases(g, ref.level) && StateInv(g, initial, s) && Agrees(g, ref, s, store) && Unambiguous(g, ref)
    requires n in g.nodes && n.id in ref.level && Fed(g, s, n) && slot in n.inputs
    ensures IsDelivered(ref.like, Delivery(g, ref, n.id, slot), Delivered(g, s, store, n), slot)
  {
    ResolvedIsDelivery(g, ref, initial, s, store, n, slot);
    DeliveredAt(g, s, store, n, slot);
  }

  /** A fed node gets inputs like those its fate gives it. */
  lemma FedGetsFate(g: Graph, ref: Reference, initial: map<Slot, ArtifactId>, s: State, store: Store, n: Node)
    requires UniqueNodes(g) && Increases(g, ref.level) && StateInv(g, initial, s) && Agrees(g, ref, s, store)
    requires Unambiguous(g, ref) && n in g.nodes && n.id in ref.level && Fed(g, s, n)
    ensures FedLike(g, ref, n.id, Delivered(g, s, store, n))
  {
    UniqueNodeOf(g, n);
    AllDelivered(g, ref, initial, s, store, n);
    FateWhenFed(g, ref, n, Delivered(g, s, store, n));
  }

  lemma AllDelivered(g: Graph, ref: Reference, initial: map<Slot, ArtifactId>, s: State, store: Store, n: Node)
    requires Increases(g, ref.level) && StateInv(g, initial, s) && Agrees(g, ref, s, store) && Unambiguous(g, ref)
    requires n in g.nodes && n.id in ref.level && Fed(g, s, n)
    ensures AreDeliveries(g, ref, n, Delivered(g, s, store, n))
  {
    forall slot | slot in n.inputs
      ensures IsDelivered(ref.like, Delivery(g, ref, n.id, slot), Delivered(g, s, store, n), slot)
    {
      SlotDelivered(g, ref, initial, s, store, n, slot);
    }
  }

  lemma UniqueNodeOf(g: Graph, n: Node)
    requires UniqueNodes(g) && n in g.nodes
    ensures NodeOf(g.nodes, n.id) == n
  {
  }

  /** The results of a wave are like those the fates predict. */
  ghost predicate FatedResults(g: Graph, ref: Reference, results: Results)
    requires Increases(g, ref.level)
  {
    forall id :: id in results ==> FatedResult(g, ref, id, results[id])
  }

  ghost predicate FatedResult(g: Graph, ref: Reference, id: NodeId, o: Outcome)
    requires Increases(g, ref.level)
  {
    id in ref.level && FateOf(g, ref, id).Runs? && LikeOutcomes(ref.like, FateOf(g, ref, id).outcome, o)
  }

  lemma RunsAsFated(g: Graph, ref: Reference, run: Oracle, id: NodeId, ins: Inputs)
    requires Increases(g, ref.level) && id in ref.level && FedLike(g, ref, id, ins) && Congruent(ref.like, ref.run, run)
    ensures FatedResult(g, ref, id, run(id, ins))
  {
  }

  lemma WaveIsFated(g: Graph, ref: Reference, initial: map<Slot, ArtifactId>, k: int, run: Oracle, c: Config)
    requires UniqueNodes(g) && Increases(g, ref.level) && Tracks(g, c.st) && Unambiguous(g, ref)
    requires Congruent(ref.like, ref.run, run) && StateInv(g, initial, SkipPass(g, c.st))
    requires Agrees(g, ref, SkipPass(g, c.st), c.store)
    ensures FatedResults(g, ref, WaveResults(g, k, run, c))
  {
    WaveResultsKeys(g, k, run, c);
    var s1, results := SkipPass(g, c.st), WaveResults(g, k, run, c);
    forall id | id in results ensures FatedResult(g, ref, id, results[id]) {
      var n :| n in g.nodes && IsReady(g, s1, n) && n.id == id;
      assert NodeOf(g.nodes, id) == n;
      FedGetsFate(g, ref, initial, s1, c.store, n);
      RunsAsFated(g, ref, run, id, Delivered(g, s1, c.store, n));
    }
  }

  lemma ApplyAgrees(g: Graph, ref: Reference, initial: map<Slot, ArtifactId>, s: State, store: Store, results: Results,
                    store': Store)
    requires Decisive(g, ref) && StateInv(g, initial, s) && Agrees(g, ref, s, store)
    requires GoodResults(s, results) && FatedResults(g, ref, results)
    requires Stored(store, ArtifactsOf(results), store')
    ensures Agrees(g, ref, Apply(g, s, results), store')
  {
    var s' := Apply(g, s, results);
    ApplyStatusInv(g, s, results);
    forall id | id in ref.level ensures NodeAgrees(ref.like, FateOf(g, ref, id), s', store', id) {
      assert id in results ==> FatedResult(g, ref, id, results[id]);
      NodeStillAgrees(g, ref.like, s, store, results, store', id, FateOf(g, ref, id));
    }
    forall e | e in g.edges ensures EdgeAgrees(Carried(g, ref, e), s', e) {
      assert EdgeAgrees(Carried(g, ref, e), s, e);
      assert e.src in results ==> FatedResult(g, ref, e.src, results[e.src]);
      FateFills(g, ref, e.src);
      EdgeStillAgrees(g, ref.like, initial, s, results, e, FateOf(g, ref, e.src));
    }
  }

  lemma FateFills(g: Graph, ref: Reference, id: NodeId)
    requires Increases(g, ref.level) && FillsEdges(g, ref.run) && id in ref.level
    ensures FateOf(g, ref, id).Runs? ==> Fills(g, id, FateOf(g, ref, id).outcome)
  {
  }

  lemma NodeStillAgrees(g: Graph, like: Likeness, s: State, store: Store, results: Results, store': Store, id: NodeId,
                        fate: Fate)
    requires StatusInv(g, s) && OutputInv(s) && GoodResults(s, results) && id in s.status
    requires NodeAgrees(like, fate, s, store, id)
    requires id in results ==> fate.Runs? && LikeOutcomes(like, fate.outcome, results[id])
    requires Stored(store, ArtifactsOf(results), store')
    ensures id in Apply(g, s, results).status && NodeAgrees(like, fate, Apply(g, s, results), store', id)
  {
    ApplyOutputs(g, s, results, id);
    if id in results && results[id].Success? {
      ResultIsHeld(like, results, id, store, store', fate.outcome);
    }
  }

  lemma ResultIsHeld(like: Likeness, results: Results, id: NodeId, store: Store, store': Store, o: Outcome)
    requires id in results && results[id].Success? && LikeOutcomes(like, o, results[id])
    requires Stored(store, ArtifactsOf(results), store')
    ensures HeldSlots(like, store', o.outputs, IdsOf(results[id].outputs))
  {
    forall slot | slot in o.outputs
      ensures HeldAs(like, store', o.outputs[slot], IdsOf(results[id].outputs)[slot])
    {
      assert results[id].outputs[slot] in ArtifactsOf(results);
    }
  }

  lemma EdgeStillAgrees(g: Graph, like: Likeness, initial: map<Slot, ArtifactId>, s: State, results: Results, e: Edge,
                        fate: Fate)
    requires Wired(g) && Respects(g, like) && StateInv(g, initial, s) && GoodResults(s, results)
    requires e in g.edges && e.src in s.status
    requires e.src in results ==> fate.Runs? && LikeOutcomes(like, fate.outcome, results[e.src])
    requires fate.Runs? ==> Fills(g, e.src, fate.outcome)
    requires EdgeAgrees(CarriedFrom(fate, e), s, e)
    ensures e.src in Apply(g, s, results).status
    ensures EdgeAgrees(CarriedFrom(fate, e), Apply(g, s, results), e)
  {
    assert EdgeStatus(s, e);
    FiredIff(g, results, e);
    if e.src in results && results[e.src].Success? {
      FiresAsCarried(g, like, results, e, fate);
    }
  }

  lemma FiresAsCarried(g: Graph, like: Likeness, results: Results, e: Edge, fate: Fate)
    requires Respects(g, like) && e in g.edges && e.src in results && results[e.src].Success?
    requires fate.Runs? && LikeOutcomes(like, fate.outcome, results[e.src]) && Fills(g, e.src, fate.outcome)
    ensures CarriedFrom(fate, e).Some? <==> e.cond.None? || Fires(results, e)
  {
  }

  /** A wave by executors that do alike things keeps the agreement. */
  lemma StepAgrees(g: Graph, ref: Reference, initial: map<Slot, ArtifactId>, k: int, run: Oracle, c: Config, c': Config)
    requires Decisive(g, ref) && Congruent(ref.like, ref.run, run)
    requires StateInv(g, initial, c.st) && Agrees(g, ref, c.st, c.store)
    requires Step(g, k, run, c, c')
    ensures Agrees(g, ref, c'.st, c'.store)
  {
    var s1, results := SkipPass(g, c.st), WaveResults(g, k, run, c);
    SkipInv(g, initial, c.st);
    SkipAgrees(g, ref, initial, c.st, c.store);
    WaveIsGood(g, k, run, c);
    WaveIsFated(g, ref, initial, k, run, c);
    ApplyAgrees(g, ref, initial, s1, c.store, results, c'.store);
    ApplyInv(g, initial, s1, results);
    ApplyTracks(g, s1, results);
    CloseAgrees(g, ref, initial, Apply(g, s1, results), c'.store);
  }

  lemma CloseAgrees(g: Graph, ref: Reference, initial: map<Slot, ArtifactId>, s: State, store: Store)
    requires Wired(g) && Increases(g, ref.level) && StateInv(g, initial, s) && Agrees(g, ref, s, store)
    requires Tracks(g, s)
    ensures Agrees(g, ref, Close(g, s), store)
  {
    SkipAgrees(g, ref, initial, s, store);
    SameAgrees(g, ref, SkipPass(g, s), Close(g, s), store);
  }

  lemma SameAgrees(g: Graph, ref: Reference, s: State, s': State, store: Store)
    requires Increases(g, ref.level) && Agrees(g, ref, s, store)
    requires s'.status == s.status && s'.outputs == s.outputs && s'.active == s.active && s'.initial == s.initial
    ensures Agrees(g, ref, s', store)
  {
    forall id | id in ref.level ensures NodeAgrees(ref.like, FateOf(g, ref, id), s', store, id) {
      assert NodeAgrees(ref.like, FateOf(g, ref, id), s, store, id);
    }
    forall e | e in g.edges ensures EdgeAgrees(Carried(g, ref, e), s', e) {
      assert EdgeAgrees(Carried(g, ref, e), s, e);
    }
  }

  /** Artifacts added to the store change nothing. */
  lemma KeepsAgrees(g: Graph, ref: Reference, s: State, store: Store, store': Store)
    requires Increases(g, ref.level) && Agrees(g, ref, s, store) && Keeps(store, store')
    ensures Agrees(g, ref, s, store')
  {
    forall id | id in ref.level ensures NodeAgrees(ref.like, FateOf(g, ref, id), s, store', id) {
      assert NodeAgrees(ref.like, FateOf(g, ref, id), s, store, id);
    }
    forall e | e in g.edges ensures EdgeAgrees(Carried(g, ref, e), s, e) {
      assert EdgeAgrees(Carried(g, ref, e), s, e);
    }
  }

  /* ---------- the levels do not matter ---------- */

  /** Another numbering along the edges, the rest alike. */
  ghost predicate Renumbers(g: Graph, ref: Reference, ref': Reference) {
    && Increases(g, ref.level) && Increases(g, ref'.level)
    && ref'.run == ref.run && ref'.bundle == ref.bundle
  }

  lemma {:induction false} FateIgnoresLevels(g: Graph, ref: Reference, ref': Reference, id: NodeId)
    requires Renumbers(g, ref, ref') && Unambiguous(g, ref) && id in ref.level
    ensures id in ref'.level && FateOf(g, ref, id) == FateOf(g, ref', id)
    decreases ref.level[id]
  {
    forall e | e in g.edges && e.dst == id ensures Carried(g, ref, e) == Carried(g, ref', e) {
      FateIgnoresLevels(g, ref, ref', e.src);
    }
    SameDeliveries(g, ref, ref', id, NodeOf(g.nodes, id).inputs.Keys);
  }

  lemma SameDeliveries(g: Graph, ref: Reference, ref': Reference, id: NodeId, slots: set<Slot>)
    requires Renumbers(g, ref, ref') && Unambiguous(g, ref) && id in ref.level
    requires forall e :: e in g.edges && e.dst == id ==> Carried(g, ref, e) == Carried(g, ref', e)
    ensures Deliveries(g, ref, id, slots) == Deliveries(g, ref', id, slots)
  {
    forall slot | slot in slots ensures Delivery(g, ref, id, slot) == Delivery(g, ref', id, slot) {
      SameDelivery(g, ref, ref', id, slot);
    }
  }

  lemma SameDelivery(g: Graph, ref: Reference, ref': Reference, id: NodeId, slot: Slot)
    requires Renumbers(g, ref, ref') && Unambiguous(g, ref) && id in ref.level
    requires forall e :: e in g.edges && Feeds(e, id, slot) ==> Carried(g, ref, e) == Carried(g, ref', e)
    ensures Delivery(g, ref, id, slot) == Delivery(g, ref', id, slot)
  {
    if slot !in ref.bundle {
      if e :| e in g.edges && Feeds(e, id, slot) && Carried(g, ref, e).Some? {
        DeliveryIsCarried(g, ref, e);
        OnlyCarrier(g, ref, ref', id, slot, e);
      }
    }
  }

  lemma OnlyCarrier(g: Graph, ref: Reference, ref': Reference, id: NodeId, slot: Slot, e: Edge)
    requires Renumbers(g, ref, ref') && Unambiguous(g, ref) && id in ref.level && slot !in ref.bundle
    requires forall d :: d in g.edges && Feeds(d, id, slot) ==> Carried(g, ref, d) == Carried(g, ref', d)
    requires e in g.edges && Feeds(e, id, slot) && Carried(g, ref, e).Some?
    ensures Delivery(g, ref', id, slot) == Carried(g, ref, e)
  {
    var d :| d in g.edges && Feeds(d, id, slot) && Carried(g, ref', d).Some?
             && Delivery(g, ref', id, slot) == Carried(g, ref', d);
    assert d != e ==> Rivals(d, e, ref.bundle);
  }

  /** So the meaning depends on the graph, the executors and the bundle only. */
  lemma MeaningIgnoresLevels(g: Graph, ref: Reference, ref': Reference)
    requires Renumbers(g, ref, ref') && Unambiguous(g, ref)
    ensures forall id :: id in ref.level ==> id in ref'.level && FateOf(g, ref, id) == FateOf(g, ref', id)
    ensures Unambiguous(g, ref')
  {
    forall id | id in ref.level ensures id in ref'.level && FateOf(g, ref, id) == FateOf(g, ref', id) {
      FateIgnoresLevels(g, ref, ref', id);
    }
    forall e | e in g.edges ensures Carried(g, ref, e) == Carried(g, ref', e) {
      FateIgnoresLevels(g, ref, ref', e.src);
    }
  }
}
