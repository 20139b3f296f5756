/** Kahn's layering of the graph into waves, and what it says about walks and cycles. */
module Layering {
  import opened Types
  import opened Sorting

  /* ---------- walks ---------- */

  predicate Linked(edges: seq<Edge>, a: NodeId, b: NodeId) {
    exists e :: e in edges && e.src == a && e.dst == b
  }

  /** A walk of |w| - 1 edges. */
  ghost predicate IsWalk(edges: seq<Edge>, w: seq<NodeId>) {
    |w| >= 1 && forall i | 0 <= i < |w| - 1 :: Linked(edges, w[i], w[i + 1])
  }

  ghost predicate EndsWalk(edges: seq<Edge>, n: NodeId, len: nat) {
    exists w :: IsWalk(edges, w) && |w| == len + 1 && w[len] == n
  }

  ghost predicate Acyclic(edges: seq<Edge>) {
    forall w :: IsWalk(edges, w) && |w| >= 2 ==> w[0] != w[|w| - 1]
  }

  predicate Closed(nodes: set<NodeId>, edges: seq<Edge>) {
    forall e :: e in edges ==> e.src in nodes && e.dst in nodes
  }

  lemma WalkPrefix(edges: seq<Edge>, w: seq<NodeId>)
    requires IsWalk(edges, w) && |w| >= 2
    ensures IsWalk(edges, w[..|w| - 1]) && Linked(edges, w[|w| - 2], w[|w| - 1])
  {
    var prefix := w[..|w| - 1];
    forall j | 0 <= j < |prefix| - 1 ensures Linked(edges, prefix[j], prefix[j + 1]) {
      assert Linked(edges, w[j], w[j + 1]);
    }
  }

  lemma WalkExtend(edges: seq<Edge>, w: seq<NodeId>, n: NodeId)
    requires IsWalk(edges, w) && Linked(edges, w[|w| - 1], n)
    ensures IsWalk(edges, w + [n])
  {
    var longer := w + [n];
    forall j | 0 <= j < |longer| - 1 ensures Linked(edges, longer[j], longer[j + 1]) {
      if j < |w| - 1 {
        assert Linked(edges, w[j], w[j + 1]);
      }
    }
  }

  lemma WalkInside(nodes: set<NodeId>, edges: seq<Edge>, w: seq<NodeId>, n: NodeId)
    requires Closed(nodes, edges) && IsWalk(edges, w) && w[|w| - 1] == n && n in nodes
    ensures forall x :: x in w ==> x in nodes
  {
    forall i | 0 <= i < |w| ensures w[i] in nodes {
      if i < |w| - 1 {
        assert Linked(edges, w[i], w[i + 1]);
      }
    }
  }

  /* ---------- peeling ---------- */

  /** Every edge into n comes from one of the given nodes. */
  predicate ParentsIn(edges: seq<Edge>, n: NodeId, gone: set<NodeId>) {
    forall e | e in edges && e.dst == n :: e.src in gone
  }

  /** The nodes removed by the first i rounds: those whose parents all went in earlier rounds. */
  ghost function Peeled(nodes: set<NodeId>, edges: seq<Edge>, i: nat): set<NodeId> {
    if i == 0 then {}
    else set n | n in nodes && ParentsIn(edges, n, Peeled(nodes, edges, i - 1))
  }

  lemma PeeledInside(nodes: set<NodeId>, edges: seq<Edge>, i: nat)
    ensures Peeled(nodes, edges, i) <= nodes
  {
  }

  lemma {:induction false} PeeledGrows(nodes: set<NodeId>, edges: seq<Edge>, i: nat, j: nat)
    requires i <= j
    ensures Peeled(nodes, edges, i) <= Peeled(nodes, edges, j)
  {
    if 0 < i {
      PeeledGrows(nodes, edges, i - 1, j - 1);
    }
  }

  /** A node is gone after i rounds exactly if no walk of i edges ends at it. */
  lemma {:induction false} PeeledIff(nodes: set<NodeId>, edges: seq<Edge>, i: nat, n: NodeId)
    requires Closed(nodes, edges) && n in nodes
    ensures n in Peeled(nodes, edges, i) <==> !EndsWalk(edges, n, i)
  {
    if i == 0 {
      assert IsWalk(edges, [n]) && [n][0] == n;
    } else {
      if EndsWalk(edges, n, i) {
        var w :| IsWalk(edges, w) && |w| == i + 1 && w[i] == n;
        WalkPrefix(edges, w);
        var prefix := w[..i];
        assert prefix[i - 1] == w[i - 1];
        var e :| e in edges && e.src == w[i - 1] && e.dst == n;
        PeeledIff(nodes, edges, i - 1, e.src);
      }
      if n !in Peeled(nodes, edges, i) {
        var e :| e in edges && e.dst == n && e.src !in Peeled(nodes, edges, i - 1);
        PeeledIff(nodes, edges, i - 1, e.src);
        var w :| IsWalk(edges, w) && |w| == i && w[i - 1] == e.src;
        WalkExtend(edges, w, n);
        assert (w + [n])[i] == n;
      }
    }
  }

  /** Once a round removes nothing, no later round does. */
  lemma {:induction false} PeeledStays(nodes: set<NodeId>, edges: seq<Edge>, i: nat, j: nat)
    requires i <= j && Peeled(nodes, edges, i + 1) == Peeled(nodes, edges, i)
    ensures Peeled(nodes, edges, j) == Peeled(nodes, edges, i)
  {
    if i < j {
      PeeledStays(nodes, edges, i, j - 1);
    }
  }

  lemma {:induction false} SubsetSize<T>(a: set<T>, b: set<T>)
    requires a <= b
    ensures |a| <= |b|
    ensures |a| == |b| ==> a == b
  {
    assert b == a + (b - a);
  }

  /** A walk longer than the graph visits some node twice, so it contains a cycle. */
  lemma LongWalkHasCycle(nodes: set<NodeId>, edges: seq<Edge>, w: seq<NodeId>)
    requires IsWalk(edges, w) && (forall x :: x in w ==> x in nodes) && |w| > |nodes|
    ensures !Acyclic(edges)
  {
    if Distinct(w) {
      DistinctSize(w);
      SubsetSize(Elements(w), nodes);
      assert false;
    }
    var i, j :| 0 <= i < j < |w| && w[i] == w[j];
    var cycle := w[i..j + 1];
    forall k | 0 <= k < |cycle| - 1 ensures Linked(edges, cycle[k], cycle[k + 1]) {
      assert Linked(edges, w[i + k], w[i + k + 1]);
    }
    assert IsWalk(edges, cycle) && cycle[0] == cycle[|cycle| - 1];
  }

  lemma StuckHasCycle(nodes: set<NodeId>, edges: seq<Edge>, i: nat)
    requires Closed(nodes, edges)
    requires Peeled(nodes, edges, i + 1) == Peeled(nodes, edges, i) != nodes
    ensures !Acyclic(edges)
  {
    var gone := Peeled(nodes, edges, i);
    assert gone <= nodes;
    var n :| n in nodes && n !in gone;
    var j := i + |nodes|;
    PeeledStays(nodes, edges, i, j);
    CycleFromLongWalk(nodes, edges, j, n);
  }

  lemma CycleFromLongWalk(nodes: set<NodeId>, edges: seq<Edge>, j: nat, n: NodeId)
    requires Closed(nodes, edges) && n in nodes && j >= |nodes| && n !in Peeled(nodes, edges, j)
    ensures !Acyclic(edges)
  {
    PeeledIff(nodes, edges, j, n);
    var w :| IsWalk(edges, w) && |w| == j + 1 && w[j] == n;
    WalkInside(nodes, edges, w, n);
    LongWalkHasCycle(nodes, edges, w);
  }

  /* ---------- layerings ---------- */

  /** Round i in id order. */
  ghost function Wave(nodes: set<NodeId>, edges: seq<Edge>, i: nat): seq<NodeId> {
    Sorted(Peeled(nodes, edges, i + 1) - Peeled(nodes, edges, i))
  }

  ghost predicate IsWave(nodes: set<NodeId>, edges: seq<Edge>, i: nat, wave: seq<NodeId>) {
    wave == Wave(nodes, edges, i) && |wave| > 0
  }

  ghost predicate WavesSoFar(nodes: set<NodeId>, edges: seq<Edge>, waves: seq<seq<NodeId>>) {
    forall i :: 0 <= i < |waves| ==> IsWave(nodes, edges, i, waves[i])
  }

  /** The waves are the successive rounds until every node is placed. */
  ghost predicate IsLayering(nodes: set<NodeId>, edges: seq<Edge>, waves: seq<seq<NodeId>>) {
    WavesSoFar(nodes, edges, waves) && Peeled(nodes, edges, |waves|) == nodes
  }

  /** The round in which a node is removed. */
  ghost function Round(nodes: set<NodeId>, edges: seq<Edge>, i: nat, n: NodeId): (r: nat)
    requires n in Peeled(nodes, edges, i)
    ensures r < i && n in Peeled(nodes, edges, r + 1) && n !in Peeled(nodes, edges, r)
  {
    if n in Peeled(nodes, edges, i - 1) then Round(nodes, edges, i - 1, n) else i - 1
  }

  lemma RoundUnique(nodes: set<NodeId>, edges: seq<Edge>, i: nat, j: nat, n: NodeId)
    requires n in Peeled(nodes, edges, i + 1) && n !in Peeled(nodes, edges, i)
    requires n in Peeled(nodes, edges, j + 1)
    ensures i <= j
  {
    if j < i {
      PeeledGrows(nodes, edges, j + 1, i);
    }
  }

  lemma InWave(nodes: set<NodeId>, edges: seq<Edge>, waves: seq<seq<NodeId>>, i: nat, n: NodeId)
    requires IsLayering(nodes, edges, waves) && i < |waves|
    ensures n in waves[i] <==> n in Peeled(nodes, edges, i + 1) && n !in Peeled(nodes, edges, i)
  {
    assert IsWave(nodes, edges, i, waves[i]);
  }

  ghost predicate OnceIn(waves: seq<seq<NodeId>>, n: NodeId) {
    && (exists i :: 0 <= i < |waves| && n in waves[i])
    && (forall i, j :: 0 <= i < |waves| && 0 <= j < |waves| && n in waves[i] && n in waves[j] ==> i == j)
  }

  /** In a layering each node, and nothing else, sits in exactly one wave, at one position. */
  lemma NodeOnce(nodes: set<NodeId>, edges: seq<Edge>, waves: seq<seq<NodeId>>, n: NodeId)
    requires IsLayering(nodes, edges, waves)
    ensures n in nodes <==> OnceIn(waves, n)
    ensures forall i :: 0 <= i < |waves| ==> Distinct(waves[i])
  {
    WavesDistinct(nodes, edges, waves);
    forall i, j | 0 <= i < |waves| && 0 <= j < |waves| && n in waves[i] && n in waves[j] ensures i == j {
      OneWave(nodes, edges, waves, n, i, j);
    }
    if n in nodes {
      var i := Round(nodes, edges, |waves|, n);
      InWave(nodes, edges, waves, i, n);
      assert n in waves[i];
    }
    if OnceIn(waves, n) {
      var i :| 0 <= i < |waves| && n in waves[i];
      InWave(nodes, edges, waves, i, n);
    }
  }

  lemma OneWave(nodes: set<NodeId>, edges: seq<Edge>, waves: seq<seq<NodeId>>, n: NodeId, i: nat, j: nat)
    requires IsLayering(nodes, edges, waves) && i < |waves| && j < |waves| && n in waves[i] && n in waves[j]
    ensures i == j
  {
    InWave(nodes, edges, waves, i, n);
    InWave(nodes, edges, waves, j, n);
    RoundUnique(nodes, edges, i, j, n);
    RoundUnique(nodes, edges, j, i, n);
  }

  lemma WavesDistinct(nodes: set<NodeId>, edges: seq<Edge>, waves: seq<seq<NodeId>>)
    requires IsLayering(nodes, edges, waves)
    ensures forall i :: 0 <= i < |waves| ==> Distinct(waves[i])
  {
    forall i | 0 <= i < |waves| ensures Distinct(waves[i]) {
      assert IsWave(nodes, edges, i, waves[i]);
    }
  }

  /** A node's wave is the number of edges of the longest walk ending at it. */
  lemma WaveIsLongestWalk(nodes: set<NodeId>, edges: seq<Edge>, waves: seq<seq<NodeId>>, n: NodeId, i: nat)
    requires Closed(nodes, edges) && IsLayering(nodes, edges, waves) && n in nodes && i < |waves|
    ensures n in waves[i] <==> EndsWalk(edges, n, i) && forall j: nat :: EndsWalk(edges, n, j) ==> j <= i
  {
    PeeledIff(nodes, edges, i, n);
    PeeledIff(nodes, edges, i + 1, n);
    InWave(nodes, edges, waves, i, n);
    if n in waves[i] {
      forall j: nat | EndsWalk(edges, n, j) ensures j <= i {
        PeeledIff(nodes, edges, j, n);
        if j > i {
          PeeledGrows(nodes, edges, i + 1, j);
        }
      }
    }
  }

  /** Every edge leads to a strictly later wave. */
  lemma EdgesGoLater(nodes: set<NodeId>, edges: seq<Edge>, waves: seq<seq<NodeId>>, e: Edge, i: nat, j: nat)
    requires Closed(nodes, edges) && IsLayering(nodes, edges, waves)
    requires e in edges && i < |waves| && j < |waves| && e.src in waves[i] && e.dst in waves[j]
    ensures i < j
  {
    InWave(nodes, edges, waves, i, e.src);
    InWave(nodes, edges, waves, j, e.dst);
    assert ParentsIn(edges, e.dst, Peeled(nodes, edges, j));
    if j <= i {
      PeeledGrows(nodes, edges, j, i);
    }
  }

  /** A numbering that increases along edges increases along walks. */
  lemma {:induction false} RankAlongWalk(edges: seq<Edge>, rank: map<NodeId, nat>, w: seq<NodeId>)
    requires IsWalk(edges, w) && IsRanking(rank.Keys, edges, rank) && forall x :: x in w ==> x in rank
    ensures rank[w[0]] + |w| - 1 <= rank[w[|w| - 1]]
  {
    if |w| > 1 {
      WalkPrefix(edges, w);
      RankAlongWalk(edges, rank, w[..|w| - 1]);
    }
  }

  lemma RankAtLeastWalk(nodes: set<NodeId>, edges: seq<Edge>, rank: map<NodeId, nat>, i: nat, n: NodeId)
    requires Closed(nodes, edges) && n in nodes && EndsWalk(edges, n, i)
    requires IsRanking(nodes, edges, rank)
    ensures i <= rank[n]
  {
    var w :| IsWalk(edges, w) && |w| == i + 1 && w[i] == n;
    WalkInside(nodes, edges, w, n);
    RankAlongWalk(edges, rank, w);
  }

  /** A numbering of the nodes that increases along edges: any way to place them in waves. */
  ghost predicate IsRanking(nodes: set<NodeId>, edges: seq<Edge>, rank: map<NodeId, nat>) {
    rank.Keys == nodes && forall e :: e in edges && e.src in rank && e.dst in rank ==> rank[e.src] < rank[e.dst]
  }

  /** None puts a node earlier than its wave. */
  lemma RankAtLeastWave(nodes: set<NodeId>, edges: seq<Edge>, waves: seq<seq<NodeId>>, rank: map<NodeId, nat>, i: nat,
                        n: NodeId)
    requires Closed(nodes, edges) && IsLayering(nodes, edges, waves) && IsRanking(nodes, edges, rank)
    requires n in nodes && i < |waves| && n in waves[i]
    ensures i <= rank[n]
  {
    WaveIsLongestWalk(nodes, edges, waves, n, i);
    RankAtLeastWalk(nodes, edges, rank, i, n);
  }

  /** So no way to place the nodes along the edges needs fewer waves. */
  lemma LayeringIsMinimal(nodes: set<NodeId>, edges: seq<Edge>, waves: seq<seq<NodeId>>, rank: map<NodeId, nat>, d: nat)
    requires Closed(nodes, edges) && IsLayering(nodes, edges, waves) && IsRanking(nodes, edges, rank)
    requires forall n :: n in nodes ==> rank[n] < d
    ensures |waves| <= d
  {
    if waves != [] {
      var i := |waves| - 1;
      assert IsWave(nodes, edges, i, waves[i]);
      var n := waves[i][0];
      InWave(nodes, edges, waves, i, n);
      RankAtLeastWave(nodes, edges, waves, rank, i, n);
    }
  }

  ghost function RankOf(nodes: set<NodeId>, edges: seq<Edge>, i: nat): (rank: map<NodeId, nat>)
    requires Peeled(nodes, edges, i) == nodes
    ensures rank.Keys == nodes
    ensures forall n :: n in nodes ==> rank[n] == Round(nodes, edges, i, n)
  {
    map n | n in nodes :: Round(nodes, edges, i, n)
  }

  lemma RanksIncrease(nodes: set<NodeId>, edges: seq<Edge>, i: nat, e: Edge)
    requires Closed(nodes, edges) && Peeled(nodes, edges, i) == nodes && e in edges
    ensures RankOf(nodes, edges, i)[e.src] < RankOf(nodes, edges, i)[e.dst]
  {
    var s := Round(nodes, edges, i, e.src);
    var d := Round(nodes, edges, i, e.dst);
    assert ParentsIn(edges, e.dst, Peeled(nodes, edges, d));
    if d <= s {
      PeeledGrows(nodes, edges, d, s);
    }
  }

  lemma LayeredIsAcyclic(nodes: set<NodeId>, edges: seq<Edge>, i: nat)
    requires Closed(nodes, edges) && Peeled(nodes, edges, i) == nodes
    ensures Acyclic(edges)
  {
    var rank := RankOf(nodes, edges, i);
    forall e | e in edges ensures rank[e.src] < rank[e.dst] {
      RanksIncrease(nodes, edges, i, e);
    }
    forall w | IsWalk(edges, w) && |w| >= 2 ensures w[0] != w[|w| - 1] {
      WalkPrefix(edges, w);
      WalkInside(nodes, edges, w, w[|w| - 1]);
      RankAlongWalk(edges, rank, w);
    }
  }
}
