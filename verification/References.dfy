/** The artifacts a state refers to, and which of them `get` returns. */
module References {
  import opened Types
  import opened Scheduling
  import opened Stores
  import opened Committing
  import opened Runs

  /* ---------- what a state names ---------- */

  /** Every artifact id a state names. */
  ghost predicate Names(s: State, id: ArtifactId) {
    || (exists slot :: slot in s.initial && s.initial[slot] == id)
    || (exists n, slot :: n in s.outputs && slot in s.outputs[n] && s.outputs[n][slot] == id)
  }

  ghost predicate Referenced(s: State, store: Store) {
    forall id :: Names(s, id) ==> id in store
  }

  lemma ReferencedGrows(s: State, store: Store, store': Store)
    requires Referenced(s, store) && forall id :: id in store ==> id in store'
    ensures Referenced(s, store')
  {
  }

  lemma SkipReferenced(g: Graph, s: State, store: Store)
    requires Tracks(g, s) && Referenced(s, store)
    ensures Referenced(SkipPass(g, s), store)
  {
    forall id | Names(SkipPass(g, s), id) ensures id in store {
      assert Names(s, id);
    }
  }

  lemma ApplyReferenced(g: Graph, s: State, store: Store, results: Results, store': Store)
    requires StatusInv(g, s) && OutputInv(s) && GoodResults(s, results) && Referenced(s, store)
    requires forall id :: id in store ==> id in store'
    requires forall a :: a in ArtifactsOf(results) ==> a.id in store'
    ensures Referenced(Apply(g, s, results), store')
  {
    var s' := Apply(g, s, results);
    forall id | Names(s', id) ensures id in store' {
      if n, slot :| n in s'.outputs && slot in s'.outputs[n] && s'.outputs[n][slot] == id {
        ApplyOutputs(g, s, results, n);
        if n in s.outputs {
          assert Names(s, id);
        } else {
          assert results[n].outputs[slot] in ArtifactsOf(results);
        }
      } else {
        assert Names(s, id);
      }
    }
  }

  lemma CloseReferenced(g: Graph, s: State, store: Store)
    requires Tracks(g, s) && Referenced(s, store)
    ensures Referenced(Close(g, s), store)
  {
    SkipReferenced(g, s, store);
    forall id | Names(Close(g, s), id) ensures id in store {
      assert Names(SkipPass(g, s), id);
    }
  }

  lemma CommitReferenced(g: Graph, s: State, store: Store, results: Results, store': Store)
    requires Tracks(g, s) && StatusInv(g, s) && OutputInv(s) && GoodResults(s, results) && Referenced(s, store)
    requires results.Keys <= s.status.Keys
    requires forall id :: id in store ==> id in store'
    requires forall a :: a in ArtifactsOf(results) ==> a.id in store'
    ensures Referenced(Commit(g, s, results), store')
  {
    ApplyReferenced(g, s, store, results, store');
    ApplyTracks(g, s, results);
    CloseReferenced(g, Apply(g, s, results), store');
  }

  lemma NextReferenced(g: Graph, initial: map<Slot, ArtifactId>, k: int, run: Oracle, c: Config, store: Store,
                       store': Store)
    requires Wired(g) && StateInv(g, initial, c.st) && Referenced(c.st, store)
    requires Tracks(g, c.st) && WaveResults(g, k, run, c).Keys <= c.st.status.Keys
    requires forall id :: id in store ==> id in store'
    requires forall a :: a in ArtifactsOf(WaveResults(g, k, run, c)) ==> a.id in store'
    ensures Referenced(Commit(g, SkipPass(g, c.st), WaveResults(g, k, run, c)), store')
  {
    SkipInv(g, initial, c.st);
    SkipReferenced(g, c.st, store);
    WaveIsGood(g, k, run, c);
    CommitReferenced(g, SkipPass(g, c.st), store, WaveResults(g, k, run, c), store');
  }

  lemma InitReferenced(g: Graph, bundle: map<Slot, Artifact>, before: Store, c: Config)
    requires IsInit(g, bundle, before, c)
    ensures Referenced(c.st, c.store)
  {
    forall id | Names(c.st, id) ensures id in c.store {
      var slot :| slot in c.st.initial && c.st.initial[slot] == id;
      assert bundle[slot] in BundleArtifacts(bundle);
    }
  }

  lemma ResolvedIsNamed(g: Graph, s: State, n: NodeId, slot: Slot)
    requires ResolvedId(g, s, n, slot).Some?
    ensures Names(s, ResolvedId(g, s, n, slot).value)
  {
    if slot !in s.initial {
      var e :| e in EdgesInto(g.edges, n, slot) && Available(s, e)
               && ResolvedId(g, s, n, slot).value == s.outputs[e.src][e.out];
    }
  }

  /** Artifacts put by an interrupted wave do not change what the executors are given. */
  lemma SameInputs(g: Graph, s: State, store: Store, store': Store, n: Node)
    requires Referenced(s, store) && forall id :: id in store ==> id in store' && store'[id] == store[id]
    ensures Delivered(g, s, store, n) == Delivered(g, s, store', n)
  {
    forall slot | slot in n.inputs && ResolvedId(g, s, n.id, slot).Some?
      ensures ResolvedId(g, s, n.id, slot).value in store
    {
      ResolvedIsNamed(g, s, n.id, slot);
    }
  }

  /* ---------- reading one task's artifacts ---------- */

  /** The memory and the disk at the top of the loop. */
  ghost function At(s: State, files: Files, task: TaskId): Config {
    Config(s, TaskFiles(files, task))
  }

  /** The artifacts of this task that `get` can return. */
  ghost function Readable(files: Files, task: TaskId): (store: Store)
    ensures forall id :: id in store <==> (task, id) in files && files[(task, id)].valid && !Foreign(files, task, id)
    ensures forall id :: id in store ==> store[id] == files[(task, id)]
  {
    map id | id in TaskFiles(files, task) && files[(task, id)].valid && !Foreign(files, task, id) :: files[(task, id)]
  }

  /** An artifact of this task under an id that no other task uses. */
  ghost predicate Own(files: Files, task: TaskId, a: Artifact) {
    a.task == task && !Foreign(files, task, a.id)
  }

  /** Executors put this task's name on their artifacts and choose globally unique ids. */
  ghost predicate OwnOutputs(files: Files, task: TaskId, run: Oracle) {
    forall n, ins: Inputs, slot :: run(n, ins).Success? && slot in run(n, ins).outputs ==>
      Own(files, task, run(n, ins).outputs[slot])
  }

  ghost predicate OwnBundle(files: Files, task: TaskId, bundle: map<Slot, Artifact>) {
    forall slot :: slot in bundle ==> Own(files, task, bundle[slot])
  }

  /** The ids a state names are not used by any other task. */
  ghost predicate OwnNames(files: Files, task: TaskId, s: State) {
    forall id :: Names(s, id) ==> !Foreign(files, task, id)
  }

  lemma ReadableFetches(files: Files, task: TaskId, id: ArtifactId)
    requires id in Readable(files, task)
    ensures Fetches(files, id, TaskFiles(files, task)[id])
    ensures forall a :: Fetches(files, id, a) ==> a == TaskFiles(files, task)[id]
  {
    OwnFetches(files, task, id);
  }

  lemma FetchedIsReadable(files: Files, task: TaskId, id: ArtifactId, a: Artifact)
    requires Fetches(files, id, a) && !Foreign(files, task, id)
    ensures id in Readable(files, task)
  {
    var k :| Matches(files, id) == {k} && files[k] == a;
    assert k in Matches(files, id);
  }

  /** Files of other tasks are untouched, and what was readable stays so. */
  ghost predicate Extends(before: Files, after: Files, task: TaskId) {
    && (forall id :: id in Readable(before, task) ==> id in Readable(after, task))
    && (forall id :: Foreign(after, task, id) <==> Foreign(before, task, id))
  }

  lemma PutsExtend(before: Files, arts: set<Artifact>, after: Files, task: TaskId)
    requires FilesStored(before, arts, after)
    requires forall a :: a in arts ==> Own(before, task, a)
    ensures Extends(before, after, task)
    ensures forall a :: a in arts ==> a.id in Readable(after, task)
    ensures Stored(TaskFiles(before, task), arts, TaskFiles(after, task))
  {
    FilesToStore(before, arts, after, task);
  }

  lemma PartlyExtends(before: Files, arts: set<Artifact>, after: Files, task: TaskId)
    requires FilesPartlyStored(before, arts, after)
    requires forall a :: a in arts ==> Own(before, task, a)
    ensures Extends(before, after, task)
    ensures PartlyStored(TaskFiles(before, task), arts, TaskFiles(after, task))
  {
    FilesToStore(before, arts, after, task);
  }

  lemma WaveIsOwn(g: Graph, k: int, run: Oracle, c: Config, files: Files, task: TaskId)
    requires Tracks(g, c.st) && OwnOutputs(files, task, run)
    ensures forall a :: a in ArtifactsOf(WaveResults(g, k, run, c)) ==> Own(files, task, a)
  {
  }

  lemma OwnStays(before: Files, after: Files, task: TaskId, run: Oracle)
    requires OwnOutputs(before, task, run) && Extends(before, after, task)
    ensures OwnOutputs(after, task, run)
  {
    forall n, ins: Inputs, slot | run(n, ins).Success? && slot in run(n, ins).outputs
      ensures Own(after, task, run(n, ins).outputs[slot])
    {
      assert Own(before, task, run(n, ins).outputs[slot]);
    }
  }

  /* ---------- the check at resume ---------- */

  ghost predicate CanFetch(files: Files, id: ArtifactId) {
    exists a :: Fetches(files, id, a)
  }

  /** The check at resume: every artifact that the checkpoint names can be fetched. */
  ghost predicate CanResume(files: Files, s: State) {
    forall id :: Names(s, id) ==> CanFetch(files, id)
  }

  lemma ResumeReadable(files: Files, task: TaskId, s: State)
    requires OwnNames(files, task, s)
    ensures CanResume(files, s) <==> Referenced(s, Readable(files, task))
  {
    forall id | Names(s, id) ensures CanFetch(files, id) <==> id in Readable(files, task) {
      if a :| Fetches(files, id, a) {
        FetchedIsReadable(files, task, id, a);
      }
      if id in Readable(files, task) {
        ReadableFetches(files, task, id);
      }
    }
  }
}
