/** What provenance gives the users of a graph: typed inputs, a well-founded lineage, and branches
    that exclude each other. */
module Guarantees {
  import opened Types
  import opened EdgeConditions
  import opened Scheduling
  import opened Stores
  import opened Runs
  import opened Progress
  import opened Endings
  import opened Independence
  import opened Provenance
  import Compiler

  /* ---------- typed delivery ---------- */

  ghost predicate EdgeTyped(g: Graph, e: Edge) {
    forall s: Node, d: Node :: s in g.nodes && d in g.nodes && s.id == e.src && d.id == e.dst ==>
      e.out in s.outputs && e.inp in d.inputs && s.outputs[e.out] == d.inputs[e.inp]
  }

  ghost predicate TypedEdges(g: Graph) {
    forall e :: e in g.edges ==> EdgeTyped(g, e)
  }

  lemma CompiledIsTyped(reg: Compiler.Registry, g: Graph)
    requires Compiler.AllEdgesOk(reg, g) && UniqueNodes(g)
    ensures TypedEdges(g)
  {
    forall e | e in g.edges ensures EdgeTyped(g, e) {
      assert Compiler.EdgeOk(reg, g, e);
    }
  }

  /** The initial artifacts are the declared ones, with the declared types. */
  ghost predicate TypedBundle(g: Graph, bundle: map<Slot, Artifact>) {
    bundle.Keys == g.initialSlots.Keys && forall slot :: slot in bundle ==> bundle[slot].schema == g.initialSlots[slot]
  }

  ghost predicate WellTyped(n: Node, o: Outcome) {
    o.Success? ==> forall slot :: slot in o.outputs && slot in n.outputs ==> o.outputs[slot].schema == n.outputs[slot]
  }

  /** Executors return artifacts of the declared types. */
  ghost predicate TypedExecutors(g: Graph, may: Behaviour) {
    forall n: Node, ins: Inputs, o :: n in g.nodes && may(n.id, ins, o) ==> WellTyped(n, o)
  }

  lemma HeldIsTyped(g: Graph, may: Behaviour, bundle: map<Slot, Artifact>, s: State, store: Store, m: Node, out: Slot,
                    a: Artifact)
    requires TypedExecutors(g, may) && ProvInv(g, may, bundle, s, store)
    requires m in g.nodes && out in m.outputs && Holding(s, store, m.id, out, a)
    ensures a.schema == m.outputs[out]
  {
    assert IsMade(g, may, bundle, s, store, m);
    var ins, outs: map<Slot, Artifact> :| Made(g, may, bundle, s, store, m, ins, outs);
    assert WellTyped(m, Success(outs));
    assert a == outs[out];
  }

  /** What the slot resolves to is stored, and has the slot's declared type exactly unless the slot has the
      name of an initial slot of another type, which the compiler lets pass. */
  ghost predicate DeliversTyped(g: Graph, s: State, store: Store, n: Node, slot: Slot)
    requires slot in n.inputs && ResolvedId(g, s, n.id, slot).Some?
  {
    var id := ResolvedId(g, s, n.id, slot).value;
    && id in store
    && (store[id].schema == n.inputs[slot] <==> !(slot in g.initialSlots && g.initialSlots[slot] != n.inputs[slot]))
  }

  lemma TypedHere(g: Graph, may: Behaviour, bundle: map<Slot, Artifact>, s: State, store: Store, n: Node, slot: Slot)
    requires Wired(g) && TypedEdges(g) && TypedExecutors(g, may) && TypedBundle(g, bundle)
    requires StateInv(g, IdsOf(bundle), s) && ProvInv(g, may, bundle, s, store)
    requires n in g.nodes && slot in n.inputs && ResolvedId(g, s, n.id, slot).Some?
    ensures DeliversTyped(g, s, store, n, slot)
  {
    ResolvedHasSource(g, may, bundle, s, store, n, slot);
    SourceIsTyped(g, may, bundle, s, store, n, slot, store[ResolvedId(g, s, n.id, slot).value]);
  }

  /** So it is in every state of every run, at the launch of every wave. */
  lemma TypedDelivery(g: Graph, may: Behaviour, bundle: map<Slot, Artifact>, turns: seq<Turn>, trace: seq<Config>,
                      i: nat, n: Node, slot: Slot)
    requires Wired(g) && TypedEdges(g) && TypedExecutors(g, may) && TypedBundle(g, bundle)
    requires IsMadeRun(g, may, bundle, turns, trace) && i < |turns|
    requires n in g.nodes && slot in n.inputs && ResolvedId(g, trace[i].st, n.id, slot).Some?
    ensures DeliversTyped(g, trace[i].st, turns[i].store, n, slot)
  {
    RunInv(g, IdsOf(bundle), turns, trace, i);
    RunProv(g, may, bundle, turns, trace, i);
    TurnStep(g, IdsOf(bundle), turns, trace, i);
    KeepsProv(g, may, bundle, trace[i].st, trace[i].store, turns[i].store);
    TypedHere(g, may, bundle, trace[i].st, turns[i].store, n, slot);
  }

  lemma SourceIsTyped(g: Graph, may: Behaviour, bundle: map<Slot, Artifact>, s: State, store: Store, n: Node,
                      slot: Slot, a: Artifact)
    requires Wired(g) && TypedEdges(g) && TypedExecutors(g, may) && TypedBundle(g, bundle)
    requires ProvInv(g, may, bundle, s, store) && n in g.nodes && slot in n.inputs
    requires Source(g, bundle, s, store, n.id, slot, a)
    ensures a.schema == if slot in g.initialSlots then g.initialSlots[slot] else n.inputs[slot]
  {
    if slot !in bundle {
      var e :| e in g.edges && Feeds(e, n.id, slot) && e.id in s.active && Holding(s, store, e.src, e.out, a);
      assert Joins(g, e) && EdgeTyped(g, e);
      HeldIsTyped(g, may, bundle, s, store, NodeOf(g.nodes, e.src), e.out, a);
    }
  }

  /* ---------- lineage ---------- */

  /** Executors record the ids of their inputs, and nothing else, as parents. */
  ghost predicate RecordsParents(may: Behaviour) {
    forall n, ins: Inputs, outs: map<Slot, Artifact> :: may(n, ins, Success(outs)) ==> ParentsOf(ins, outs)
  }

  ghost predicate ParentsOf(ins: Inputs, outs: map<Slot, Artifact>) {
    forall slot, p :: slot in outs ==> (p in outs[slot].parents <==> exists from :: from in ins && ins[from].id == p)
  }

  ghost predicate Initial(bundle: map<Slot, Artifact>, id: ArtifactId) {
    exists slot :: slot in bundle && bundle[slot].id == id
  }

  /** The id is an output of this node. */
  ghost predicate OutputOf(s: State, n: NodeId, id: ArtifactId) {
    n in s.outputs && exists slot :: slot in s.outputs[n] && s.outputs[n][slot] == id
  }

  /** Each parent of a node's output is in the store, and is an initial artifact or the output of a
      node on a strictly lower level. */
  lemma ParentsAreLower(g: Graph, level: map<NodeId, nat>, may: Behaviour, bundle: map<Slot, Artifact>, s: State,
                        store: Store, n: Node, id: ArtifactId, p: ArtifactId)
    requires Wired(g) && Increases(g, level) && RecordsParents(may) && ProvInv(g, may, bundle, s, store)
    requires n in g.nodes && OutputOf(s, n.id, id) && id in store && p in store[id].parents
    ensures p in store
    ensures Initial(bundle, p) || exists m :: m in level && level[m] < level[n.id] && OutputOf(s, m, p)
  {
    var ins, from := MadeFrom(g, may, bundle, s, store, n, id, p);
    var a := ins[from];
    if from !in bundle {
      var e :| e in g.edges && Feeds(e, n.id, from) && e.id in s.active && Holding(s, store, e.src, e.out, a);
      assert Joins(g, e);
      OutputHeld(g, may, bundle, s, store, NodeOf(g.nodes, e.src), e.out);
      assert OutputOf(s, e.src, p);
    }
  }

  lemma MadeFrom(g: Graph, may: Behaviour, bundle: map<Slot, Artifact>, s: State, store: Store, n: Node, id: ArtifactId,
                 p: ArtifactId) returns (ins: Inputs, from: Slot)
    requires RecordsParents(may) && ProvInv(g, may, bundle, s, store)
    requires n in g.nodes && OutputOf(s, n.id, id) && id in store && p in store[id].parents
    ensures from in ins && ins[from].id == p && Source(g, bundle, s, store, n.id, from, ins[from])
  {
    assert IsMade(g, may, bundle, s, store, n);
    var outs: map<Slot, Artifact>;
    ins, outs :| Made(g, may, bundle, s, store, n, ins, outs);
    var slot :| slot in s.outputs[n.id] && s.outputs[n.id][slot] == id;
    assert ParentsOf(ins, outs) && store[id] == outs[slot];
    from :| from in ins && ins[from].id == p;
  }

  /** A descent from artifact to parent that does not touch an initial artifact before its end. */
  ghost predicate Descent(bundle: map<Slot, Artifact>, store: Store, ids: seq<ArtifactId>) {
    && |ids| >= 1
    && (forall i :: 0 <= i < |ids| - 1 ==> ids[i] in store && ids[i + 1] in store[ids[i]].parents)
    && (forall i :: 0 < i < |ids| - 1 ==> !Initial(bundle, ids[i]))
  }

  /** Following parents from a node's output reaches an initial artifact, or ends, within as many
      steps as the node's level plus one: lineage is well founded. */
  lemma {:induction false} LineageIsShort(g: Graph, level: map<NodeId, nat>, may: Behaviour,
                                          bundle: map<Slot, Artifact>, s: State, store: Store, n: Node,
                                          ids: seq<ArtifactId>)
    requires Wired(g) && Increases(g, level) && RecordsParents(may) && ProvInv(g, may, bundle, s, store)
    requires n in g.nodes && n.id in level && Descent(bundle, store, ids) && OutputOf(s, n.id, ids[0])
    ensures |ids| <= level[n.id] + 2
    decreases |ids|
  {
    if |ids| >= 3 {
      ParentsAreLower(g, level, may, bundle, s, store, n, ids[0], ids[1]);
      var m :| m in level && level[m] < level[n.id] && OutputOf(s, m, ids[1]);
      DescentTail(bundle, store, ids);
      LineageIsShort(g, level, may, bundle, s, store, NodeOf(g.nodes, m), ids[1..]);
    }
  }

  lemma DescentTail(bundle: map<Slot, Artifact>, store: Store, ids: seq<ArtifactId>)
    requires Descent(bundle, store, ids) && |ids| >= 2
    ensures Descent(bundle, store, ids[1..])
  {
    var tail := ids[1..];
    forall i | 0 <= i < |tail| - 1 ensures tail[i] in store && tail[i + 1] in store[tail[i]].parents {
      assert tail[i] == ids[i + 1] && tail[i + 1] == ids[i + 2];
    }
    forall i | 0 < i < |tail| - 1 ensures !Initial(bundle, tail[i]) {
      assert tail[i] == ids[i + 1];
    }
  }

  /** An artifact has no parents exactly if it was made by a node without inputs. */
  lemma RootsHaveNoInputs(g: Graph, may: Behaviour, bundle: map<Slot, Artifact>, s: State, store: Store, n: Node,
                          id: ArtifactId)
    requires RecordsParents(may) && ProvInv(g, may, bundle, s, store)
    requires n in g.nodes && OutputOf(s, n.id, id) && id in store
    ensures store[id].parents == [] <==> n.inputs.Keys == {}
  {
    assert IsMade(g, may, bundle, s, store, n);
    var ins: Inputs, outs: map<Slot, Artifact> :| Made(g, may, bundle, s, store, n, ins, outs);
    var slot :| slot in s.outputs[n.id] && s.outputs[n.id][slot] == id;
    assert ParentsOf(ins, outs) && store[id] == outs[slot];
    if n.inputs.Keys != {} {
      var from :| from in n.inputs.Keys;
      assert ins[from].id in store[id].parents;
    } else {
      HasMember(store[id].parents);
    }
  }

  lemma HasMember(ids: seq<ArtifactId>)
    ensures ids != [] ==> exists p :: p in ids
  {
    if ids != [] {
      assert ids[0] in ids;
    }
  }

  /* ---------- branch exclusion ---------- */

  /** The condition's path leads to a boolean. */
  ghost predicate IsBoolean(e: Edge, art: Artifact)
    requires e.cond.Some?
  {
    var found := Walk(Obj(art.payload), e.cond.value.path);
    found.Some? && found.value.Bool?
  }

  /** Opposite edges are never both active; once their source has succeeded and delivered that output,
      one of them is active exactly if the field is there and is a boolean. */
  lemma OppositeEdgesExclude(g: Graph, may: Behaviour, bundle: map<Slot, Artifact>, initial: map<Slot, ArtifactId>,
                             s: State, store: Store, a: Edge, b: Edge)
    requires Wired(g) && StateInv(g, initial, s) && ProvInv(g, may, bundle, s, store)
    requires a in g.edges && b in g.edges && OppositeEdges(a, b)
    ensures !(a.id in s.active && b.id in s.active)
    ensures a.src in s.outputs && a.out in s.outputs[a.src] ==>
      exists art :: Holding(s, store, a.src, a.out, art) && (a.id in s.active || b.id in s.active <==>
          IsBoolean(a, art))
  {
    assert EdgeStatus(s, a) && EdgeStatus(s, b) && Joins(g, a);
    if a.src in s.outputs && a.out in s.outputs[a.src] {
      var m := NodeOf(g.nodes, a.src);
      OutputHeld(g, may, bundle, s, store, m, a.out);
      var art := store[s.outputs[a.src][a.out]];
      assert Decided(s, store, a) && Decided(s, store, b);
      OppositeConditions(a.cond.value, b.cond.value, art.payload);
    }
  }

  /** The slot has no initial artifact, and this is the only edge into it. */
  ghost predicate OnlyFedBy(g: Graph, bundle: map<Slot, Artifact>, n: Node, slot: Slot, e: Edge) {
    slot in n.inputs && slot !in bundle && forall d :: d in g.edges && Feeds(d, n.id, slot) ==> d == e
  }

  lemma LaunchedThrough(g: Graph, bundle: map<Slot, Artifact>, turns: seq<Turn>, trace: seq<Config>, i: nat, n: Node,
                        slot: Slot, e: Edge)
    requires Wired(g) && IsRun(g, IdsOf(bundle), turns, trace) && i < |turns|
    requires n in g.nodes && OnlyFedBy(g, bundle, n, slot, e) && Tracks(g, trace[i].st)
    requires n.id in ResultsAt(g, turns, trace, i)
    ensures e.id in trace[i].st.active
  {
    var c := TopAt(turns, trace, i);
    RunInv(g, IdsOf(bundle), turns, trace, i);
    WaveResultsKeys(g, turns[i].limit, turns[i].run, c);
    LaunchedFed(g, SkipPass(g, c.st), n);
    assert ResolvedId(g, SkipPass(g, c.st), n.id, slot).Some?;
    var d :| d in EdgesInto(g.edges, n.id, slot) && Available(SkipPass(g, c.st), d);
  }

  /** Two nodes on opposite branches are never both launched, in any waves of any run. */
  lemma BranchesExclude(g: Graph, may: Behaviour, bundle: map<Slot, Artifact>, turns: seq<Turn>, trace: seq<Config>,
                        i: nat, j: nat, n: Node, m: Node, x: Slot, y: Slot, a: Edge, b: Edge)
    requires Wired(g) && IsMadeRun(g, may, bundle, turns, trace) && i < |turns| && j < |turns|
    requires n in g.nodes && m in g.nodes && a in g.edges && b in g.edges && OppositeEdges(a, b)
    requires OnlyFedBy(g, bundle, n, x, a) && OnlyFedBy(g, bundle, m, y, b)
    requires Tracks(g, trace[i].st) && Tracks(g, trace[j].st)
    ensures !(n.id in ResultsAt(g, turns, trace, i) && m.id in ResultsAt(g, turns, trace, j))
  {
    if n.id in ResultsAt(g, turns, trace, i) && m.id in ResultsAt(g, turns, trace, j) {
      LaunchedThrough(g, bundle, turns, trace, i, n, x, a);
      LaunchedThrough(g, bundle, turns, trace, j, m, y, b);
      var last := if i < j then j else i;
      RunGrows(g, IdsOf(bundle), turns, trace, i, last);
      RunGrows(g, IdsOf(bundle), turns, trace, j, last);
      RunInv(g, IdsOf(bundle), turns, trace, last);
      RunProv(g, may, bundle, turns, trace, last);
      OppositeEdgesExclude(g, may, bundle, IdsOf(bundle), trace[last].st, trace[last].store, a, b);
    }
  }
}
