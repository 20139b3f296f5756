/** The write-once artifact store and the checkpoint store. */
module Stores {
  import opened Types

  /* ---------- artifacts ---------- */

  /** Files under `tasks/<task>/artifacts/<id>.json`. */
  type Files = map<(TaskId, ArtifactId), Artifact>

  /** One task's artifacts by id. */
  type Store = map<ArtifactId, Artifact>

  /** `put` raises on an invalid payload and on a different artifact under the same name. */
  predicate PutAllowed(files: Files, a: Artifact) {
    a.valid && ((a.task, a.id) in files ==> files[(a.task, a.id)] == a)
  }

  ghost function Matches(files: Files, id: ArtifactId): set<(TaskId, ArtifactId)> {
    set k | k in files.Keys && k.1 == id
  }

  /** `get` looks in every task's directory and wants exactly one valid match. */
  ghost predicate Fetches(files: Files, id: ArtifactId, a: Artifact) {
    exists k :: Matches(files, id) == {k} && files[k] == a && a.valid
  }

  class FileArtifactStore {
    var files: Files

    constructor ()
      ensures files == map[]
    {
      files := map[];
    }

    method Put(a: Artifact) returns (ok: bool)
      modifies this
      ensures ok <==> PutAllowed(old(files), a)
      ensures files == if ok then old(files)[(a.task, a.id) := a] else old(files)
    {
      if !a.valid {
        return false;
      }
      var path := (a.task, a.id);
      if path in files {
        return files[path] == a;
      }
      files := files[path := a];
      ok := true;
    }

    method Get(id: ArtifactId) returns (r: Option<Artifact>)
      ensures r.Some? ==> Fetches(files, id, r.value)
      ensures r.None? ==> forall a :: !Fetches(files, id, a)
    {
      var matches := set k | k in files.Keys && k.1 == id;
      if |matches| != 1 {
        assert forall k :: Matches(files, id) == {k} ==> |matches| == 1;
        return None;
      }
      var k :| k in matches;
      Singleton(matches, k);
      if !files[k].valid {
        return None;
      }
      r := Some(files[k]);
    }
  }

  lemma Singleton<T>(s: set<T>, x: T)
    requires |s| == 1 && x in s
    ensures s == {x}
  {
    assert |s - {x}| == 0;
    assert s == {x} + (s - {x});
  }

  /** After a successful `put`, `get` returns the artifact exactly if no other task has a file
      under the same id. */
  lemma PutThenGet(files: Files, a: Artifact)
    requires PutAllowed(files, a)
    ensures Fetches(files[(a.task, a.id) := a], a.id, a) <==>
            forall t :: (t, a.id) in files ==> t == a.task
  {
    var after := files[(a.task, a.id) := a];
    var key := (a.task, a.id);
    assert key in Matches(after, a.id);
    if forall t :: (t, a.id) in files ==> t == a.task {
      assert Matches(after, a.id) == {key};
    } else {
      var t :| (t, a.id) in files && t != a.task;
      assert (t, a.id) in Matches(after, a.id);
    }
  }

  /** What one task sees. */
  ghost function TaskFiles(files: Files, task: TaskId): (store: Store)
    ensures forall id :: id in store <==> (task, id) in files
    ensures forall id :: id in store ==> store[id] == files[(task, id)]
  {
    map k | k in files.Keys && k.0 == task :: k.1 := files[k]
  }

  /** Another task has a file under this id. */
  ghost predicate Foreign(files: Files, task: TaskId, id: ArtifactId) {
    exists t :: t != task && (t, id) in files
  }

  /** A valid artifact of this task whose id no other task uses is what `get` returns. */
  lemma OwnFetches(files: Files, task: TaskId, id: ArtifactId)
    requires id in TaskFiles(files, task) && TaskFiles(files, task)[id].valid && !Foreign(files, task, id)
    ensures Fetches(files, id, TaskFiles(files, task)[id])
    ensures forall a :: Fetches(files, id, a) ==> a == TaskFiles(files, task)[id]
  {
    assert Matches(files, id) == {(task, id)};
  }

  /* ---------- several puts ---------- */

  /** Every artifact of the set has been put, and nothing else. */
  ghost predicate Stored(before: Store, arts: set<Artifact>, after: Store) {
    && (forall id :: id in before ==> id in after && after[id] == before[id])
    && (forall a :: a in arts ==> a.valid && a.id in after && after[a.id] == a)
    && (forall id :: id in after ==> id in before || exists a :: a in arts && a.id == id)
  }

  /** Some of the artifacts have been put, and nothing else. */
  ghost predicate PartlyStored(before: Store, arts: set<Artifact>, after: Store) {
    && (forall id :: id in before ==> id in after && after[id] == before[id])
    && (forall id :: id in after && id !in before ==> exists a :: a in arts && a.id == id && after[id] == a)
  }

  lemma StoredUnique(before: Store, arts: set<Artifact>, a1: Store, a2: Store)
    requires Stored(before, arts, a1) && Stored(before, arts, a2)
    ensures a1 == a2
  {
    forall id ensures id in a1 <==> id in a2 {
    }
    forall id | id in a1 ensures a1[id] == a2[id] {
      if id !in before {
        var a :| a in arts && a.id == id;
      }
    }
  }

  /** Putting everything again after an interrupted attempt ends where an uninterrupted
      attempt would have. */
  lemma RetryStores(before: Store, arts: set<Artifact>, partial: Store, after: Store)
    requires PartlyStored(before, arts, partial)
    ensures Stored(partial, arts, after) <==> Stored(before, arts, after)
  {
    if Stored(before, arts, after) {
      forall id | id in partial ensures id in after && after[id] == partial[id] {
        if id !in before {
          var a :| a in arts && a.id == id && partial[id] == a;
        }
      }
    }
  }

  ghost predicate FilesStored(before: Files, arts: set<Artifact>, after: Files) {
    && (forall k :: k in before ==> k in after && after[k] == before[k])
    && (forall a :: a in arts ==> a.valid && (a.task, a.id) in after && after[(a.task, a.id)] == a)
    && (forall k :: k in after ==> k in before || exists a :: a in arts && (a.task, a.id) == k)
  }

  ghost predicate FilesPartlyStored(before: Files, arts: set<Artifact>, after: Files) {
    && (forall k :: k in before ==> k in after && after[k] == before[k])
    && (forall k :: k in after && k !in before ==> exists a :: a in arts && (a.task, a.id) == k && after[k] == a)
  }

  lemma PutAdds(before: Files, done: set<Artifact>, files: Files, a: Artifact)
    requires FilesStored(before, done, files) && PutAllowed(files, a)
    ensures FilesStored(before, done + {a}, files[(a.task, a.id) := a])
  {
    var after := files[(a.task, a.id) := a];
    forall k | k in after ensures k in before || exists b :: b in done + {a} && (b.task, b.id) == k {
      if k in files && k !in before {
        var b :| b in done && (b.task, b.id) == k;
        assert b in done + {a};
      } else if k !in files {
        assert a in done + {a};
      }
    }
  }

  /** A refused put means the whole set can never be stored. */
  lemma PutRefused(before: Files, done: set<Artifact>, files: Files, a: Artifact, arts: set<Artifact>, after: Files)
    requires FilesStored(before, done, files) && done <= arts && a in arts && !PutAllowed(files, a)
    ensures !FilesStored(before, arts, after)
  {
    if a.valid {
      var key := (a.task, a.id);
      if key !in before {
        var b :| b in done && (b.task, b.id) == key;
        assert files[key] == b != a;
      }
    }
  }

  lemma StoredIsPartly(before: Files, done: set<Artifact>, files: Files, arts: set<Artifact>)
    requires FilesStored(before, done, files) && done <= arts
    ensures FilesPartlyStored(before, arts, files)
  {
    forall k | k in files && k !in before ensures exists a :: a in arts && (a.task, a.id) == k && files[k] == a {
      var a :| a in done && (a.task, a.id) == k;
      assert a in arts && files[k] == a;
    }
  }

  lemma FilesToStore(before: Files, arts: set<Artifact>, after: Files, task: TaskId)
    requires forall a :: a in arts ==> a.task == task
    ensures FilesStored(before, arts, after) ==> Stored(TaskFiles(before, task), arts, TaskFiles(after, task))
    ensures FilesPartlyStored(before, arts, after) ==>
              PartlyStored(TaskFiles(before, task), arts, TaskFiles(after, task))
    ensures FilesStored(before, arts, after) || FilesPartlyStored(before, arts, after) ==>
              forall id :: Foreign(after, task, id) <==> Foreign(before, task, id)
  {
    if FilesStored(before, arts, after) || FilesPartlyStored(before, arts, after) {
      forall id: ArtifactId ensures Foreign(after, task, id) <==> Foreign(before, task, id) {
        if Foreign(after, task, id) {
          var t :| t != task && (t, id) in after;
          assert (t, id) in before;
        }
        if t :| t != task && (t, id) in before {
          assert (t, id) in after;
        }
      }
    }
  }

  /* ---------- checkpoints ---------- */

  datatype Record = Record(
    task: TaskId,
    graphHash: Digest,
    contractHash: Digest,
    state: State,
    latencies: map<NodeId, nat>)

  datatype Loaded = NoCheckpoint | ConfigDrift | Checkpoint(record: Record)

  /** Nothing was saved; or what was saved has drifted and drift is not allowed; or it is the answer. */
  ghost predicate Loads(saved: map<TaskId, Record>, task: TaskId, graphHash: Digest, contractHash: Digest,
                        allowDrift: bool, r: Loaded)
  {
    && (r.NoCheckpoint? <==> task !in saved)
    && (r.ConfigDrift? <==>
          && task in saved && !allowDrift
          && (saved[task].graphHash != graphHash || saved[task].contractHash != contractHash))
    && (r.Checkpoint? ==> r.record == saved[task])
  }

  class CheckpointStore {
    var saved: map<TaskId, Record>

    constructor ()
      ensures saved == map[]
    {
      saved := map[];
    }

    /** The temporary file replaces the old checkpoint in one step. */
    method Save(record: Record)
      modifies this
      ensures saved == old(saved)[record.task := record]
    {
      saved := saved[record.task := record];
    }

    method Load(task: TaskId, graphHash: Digest, contractHash: Digest, allowDrift: bool) returns (r: Loaded)
      ensures r.NoCheckpoint? <==> task !in saved
      ensures r.ConfigDrift? <==>
                && task in saved && !allowDrift
                && (saved[task].graphHash != graphHash || saved[task].contractHash != contractHash)
      ensures r.Checkpoint? ==> r.record == saved[task]
    {
      if task !in saved {
        return NoCheckpoint;
      }
      var record := saved[task];
      var drift := record.graphHash != graphHash || record.contractHash != contractHash;
      if drift && !allowDrift {
        return ConfigDrift;
      }
      r := Checkpoint(record);
    }
  }
}
