/** `_result`: the longest-path computation over the compiled waves. */
module CriticalPath {
  import opened Types
  import opened Sorting
  import opened Layering

  function Latency(lat: map<NodeId, nat>, n: NodeId): nat {
    if n in lat then lat[n] else 0
  }

  /** Total latency along a walk. */
  ghost function WalkLatency(lat: map<NodeId, nat>, w: seq<NodeId>): nat {
    if w == [] then 0 else WalkLatency(lat, w[..|w| - 1]) + Latency(lat, w[|w| - 1])
  }

  /** The latency of a walk is the sum of what its parts take. */
  lemma {:induction false} WalkAdds(lat: map<NodeId, nat>, v: seq<NodeId>, w: seq<NodeId>)
    ensures WalkLatency(lat, v + w) == WalkLatency(lat, v) + WalkLatency(lat, w)
    ensures |w| == 1 ==> WalkLatency(lat, w) == if w[0] in lat then lat[w[0]] else 0
  {
    if w == [] {
      assert v + w == v;
    } else {
      assert (v + w)[..|v + w| - 1] == v + w[..|w| - 1];
      WalkAdds(lat, v, w[..|w| - 1]);
    }
  }

  /** The value is the latency of some walk ending at n, and no walk ending there takes longer. */
  ghost predicate IsLongest(edges: seq<Edge>, lat: map<NodeId, nat>, n: NodeId, value: nat) {
    Attained(edges, lat, n, value) && Bounds(edges, lat, n, value)
  }

  /** `longest.get(parent, 0)` over the edges into n, in edge order. */
  function Parents(edges: seq<Edge>, n: NodeId): (r: seq<NodeId>)
    ensures forall p :: p in r <==> Linked(edges, p, n)
  {
    if edges == [] then []
    else
      var last := edges[|edges| - 1];
      assert edges == edges[..|edges| - 1] + [last];
      var init := Parents(edges[..|edges| - 1], n);
      if last.dst == n then init + [last.src] else init
  }

  lemma SingleWalk(edges: seq<Edge>, lat: map<NodeId, nat>, n: NodeId)
    ensures IsWalk(edges, [n]) && WalkLatency(lat, [n]) == Latency(lat, n)
  {
    assert [n][..0] == [];
  }

  /** No walk takes longer than this. */
  ghost predicate Bounds(edges: seq<Edge>, lat: map<NodeId, nat>, n: NodeId, value: nat) {
    forall w :: IsWalk(edges, w) && w[|w| - 1] == n ==> WalkLatency(lat, w) <= value
  }

  ghost predicate Attained(edges: seq<Edge>, lat: map<NodeId, nat>, n: NodeId, value: nat) {
    exists w :: IsWalk(edges, w) && w[|w| - 1] == n && WalkLatency(lat, w) == value
  }

  lemma WalkWithin(edges: seq<Edge>, lat: map<NodeId, nat>, n: NodeId, best: nat, w: seq<NodeId>)
    requires forall p :: Linked(edges, p, n) ==> Bounds(edges, lat, p, best)
    requires IsWalk(edges, w) && w[|w| - 1] == n
    ensures WalkLatency(lat, w) <= Latency(lat, n) + best
  {
    var prefix := w[..|w| - 1];
    if |w| >= 2 {
      WalkPrefix(edges, w);
      assert Bounds(edges, lat, prefix[|prefix| - 1], best);
    }
  }

  lemma WalkAttains(edges: seq<Edge>, lat: map<NodeId, nat>, n: NodeId, p: NodeId, best: nat)
    requires Linked(edges, p, n) && Attained(edges, lat, p, best)
    ensures Attained(edges, lat, n, Latency(lat, n) + best)
  {
    var w :| IsWalk(edges, w) && w[|w| - 1] == p && WalkLatency(lat, w) == best;
    var longer := w + [n];
    WalkExtend(edges, w, n);
    assert longer[..|longer| - 1] == w && longer[|longer| - 1] == n;
  }

  lemma NodeAttains(edges: seq<Edge>, lat: map<NodeId, nat>, n: NodeId)
    ensures Attained(edges, lat, n, Latency(lat, n))
  {
    SingleWalk(edges, lat, n);
    assert [n][|[n]| - 1] == n;
  }

  /** The best parent plus the node's own latency is the longest, if the parents are known. */
  lemma LongestStep(edges: seq<Edge>, lat: map<NodeId, nat>, n: NodeId, longest: map<NodeId, nat>, best: nat)
    requires forall p :: Linked(edges, p, n) ==>
        p in longest && IsLongest(edges, lat, p, longest[p]) && longest[p] <= best
    requires best == 0 || exists p :: Linked(edges, p, n) && longest[p] == best
    ensures IsLongest(edges, lat, n, Latency(lat, n) + best)
  {
    forall p | Linked(edges, p, n) ensures Bounds(edges, lat, p, best) {
      BoundsWeaken(edges, lat, p, longest[p], best);
    }
    forall w | IsWalk(edges, w) && w[|w| - 1] == n ensures WalkLatency(lat, w) <= Latency(lat, n) + best {
      WalkWithin(edges, lat, n, best, w);
    }
    if p :| Linked(edges, p, n) && longest[p] == best {
      WalkAttains(edges, lat, n, p, best);
    } else {
      NodeAttains(edges, lat, n);
    }
  }

  lemma BoundsWeaken(edges: seq<Edge>, lat: map<NodeId, nat>, n: NodeId, a: nat, b: nat)
    requires Bounds(edges, lat, n, a) && a <= b
    ensures Bounds(edges, lat, n, b)
  {
  }

  /** `max(..., default=0)` over the parents. */
  method BestParent(parents: seq<NodeId>, longest: map<NodeId, nat>) returns (best: nat)
    ensures forall p :: p in parents && p in longest ==> longest[p] <= best
    ensures best == 0 || exists p :: p in parents && p in longest && longest[p] == best
  {
    best := 0;
    var i := 0;
    while i < |parents|
      invariant 0 <= i <= |parents|
      invariant forall j :: 0 <= j < i && parents[j] in longest ==> longest[parents[j]] <= best
      invariant best == 0 || exists p :: p in parents && p in longest && longest[p] == best
    {
      var p := parents[i];
      var value := if p in longest then longest[p] else 0;
      if value > best {
        best := value;
        assert p in parents && p in longest;
      }
      i := i + 1;
    }
  }

  ghost predicate LongestSoFar(edges: seq<Edge>, lat: map<NodeId, nat>, longest: map<NodeId, nat>) {
    forall n :: n in longest ==> IsLongest(edges, lat, n, longest[n])
  }

  lemma ParentsPeeled(nodes: set<NodeId>, edges: seq<Edge>, waves: seq<seq<NodeId>>, i: nat, n: NodeId)
    requires IsLayering(nodes, edges, waves) && i < |waves| && n in waves[i]
    ensures ParentsIn(edges, n, Peeled(nodes, edges, i)) && n in nodes
  {
    InWave(nodes, edges, waves, i, n);
    PeeledInside(nodes, edges, i + 1);
  }

  /** The nodes of the first i waves. */
  ghost predicate KnownAfter(nodes: set<NodeId>, edges: seq<Edge>, i: nat, known: set<NodeId>) {
    known == Peeled(nodes, edges, i)
  }

  lemma KnownAtEnds(nodes: set<NodeId>, edges: seq<Edge>, waves: seq<seq<NodeId>>)
    requires IsLayering(nodes, edges, waves)
    ensures KnownAfter(nodes, edges, 0, {})
    ensures forall known :: KnownAfter(nodes, edges, |waves|, known) ==> known == nodes
  {
  }

  lemma WaveReady(nodes: set<NodeId>, edges: seq<Edge>, waves: seq<seq<NodeId>>, i: nat, known: set<NodeId>)
    requires IsLayering(nodes, edges, waves) && i < |waves| && KnownAfter(nodes, edges, i, known)
    ensures forall n :: n in waves[i] ==> ParentsIn(edges, n, known)
    ensures KnownAfter(nodes, edges, i + 1, known + Elements(waves[i]))
  {
    forall n | n in waves[i] ensures ParentsIn(edges, n, known) {
      ParentsPeeled(nodes, edges, waves, i, n);
    }
    WaveCompletes(nodes, edges, waves, i, known, known + Elements(waves[i]));
  }

  /** The nested loop over waves and their nodes. No parent is read before its value is there, and
      each value is the greatest latency over the walks that end at the node. */
  method LongestPaths(g: Graph, waves: seq<seq<NodeId>>, lat: map<NodeId, nat>) returns (longest: map<NodeId, nat>)
    requires Closed(Ids(g), g.edges) && IsLayering(Ids(g), g.edges, waves)
    ensures longest.Keys == Ids(g)
    ensures LongestSoFar(g.edges, lat, longest)
  {
    longest := map[];
    ghost var known: set<NodeId> := {};
    KnownAtEnds(Ids(g), g.edges, waves);
    var i := 0;
    while i < |waves|
      invariant 0 <= i <= |waves|
      invariant longest.Keys == known && KnownAfter(Ids(g), g.edges, i, known)
      invariant LongestSoFar(g.edges, lat, longest)
    {
      WaveReady(Ids(g), g.edges, waves, i, known);
      longest := LongestInWave(g, waves[i], lat, longest);
      known := known + Elements(waves[i]);
      i := i + 1;
    }
  }

  lemma ParentsStay(edges: seq<Edge>, n: NodeId, known: set<NodeId>, more: set<NodeId>)
    requires ParentsIn(edges, n, known) && known <= more
    ensures ParentsIn(edges, n, more)
  {
  }

  lemma OneMoreKnown(known: set<NodeId>, wave: seq<NodeId>, j: nat)
    requires j < |wave|
    ensures known + Elements(wave[..j]) + {wave[j]} == known + Elements(wave[..j + 1])
  {
    assert wave[..j + 1] == wave[..j] + [wave[j]];
  }

  method LongestInWave(g: Graph, wave: seq<NodeId>, lat: map<NodeId, nat>, before: map<NodeId, nat>)
    returns (longest: map<NodeId, nat>)
    requires LongestSoFar(g.edges, lat, before) && forall n :: n in wave ==> ParentsIn(g.edges, n, before.Keys)
    ensures longest.Keys == before.Keys + Elements(wave) && LongestSoFar(g.edges, lat, longest)
  {
    longest := before;
    var j := 0;
    while j < |wave|
      invariant 0 <= j <= |wave|
      invariant longest.Keys == before.Keys + Elements(wave[..j])
      invariant LongestSoFar(g.edges, lat, longest)
    {
      var n := wave[j];
      ParentsStay(g.edges, n, before.Keys, longest.Keys);
      longest := LongestAt(g, lat, n, longest);
      OneMoreKnown(before.Keys, wave, j);
      j := j + 1;
    }
    assert wave[..j] == wave;
  }

  method LongestAt(g: Graph, lat: map<NodeId, nat>, n: NodeId, before: map<NodeId, nat>)
    returns (longest: map<NodeId, nat>)
    requires LongestSoFar(g.edges, lat, before) && ParentsIn(g.edges, n, before.Keys)
    ensures longest.Keys == before.Keys + {n} && LongestSoFar(g.edges, lat, longest)
  {
    var best := BestParent(Parents(g.edges, n), before);
    LongestStep(g.edges, lat, n, before, best);
    longest := before[n := Latency(lat, n) + best];
  }

  lemma WaveCompletes(nodes: set<NodeId>, edges: seq<Edge>, waves: seq<seq<NodeId>>, i: nat, before: set<NodeId>,
                      after: set<NodeId>)
    requires IsLayering(nodes, edges, waves) && i < |waves| && before == Peeled(nodes, edges, i)
    requires forall n :: n in after <==> n in before || n in waves[i]
    ensures after == Peeled(nodes, edges, i + 1)
  {
    var next := Peeled(nodes, edges, i + 1);
    PeeledGrows(nodes, edges, i, i + 1);
    forall n ensures n in after <==> n in next {
      InWave(nodes, edges, waves, i, n);
    }
  }

  /* ---------- the reported totals ---------- */

  /** Sum of the latencies of a set of nodes. */
  ghost function Total(lat: map<NodeId, nat>, s: set<NodeId>): nat {
    if s == {} then 0
    else Latency(lat, Min(s)) + Total(lat, s - {Min(s)})
  }

  lemma {:induction false} TotalRemove(lat: map<NodeId, nat>, s: set<NodeId>, n: NodeId)
    requires n in s
    ensures Total(lat, s) == Latency(lat, n) + Total(lat, s - {n})
  {
    var m := Min(s);
    if n != m {
      assert m in s - {n};
      assert Min(s - {n}) == m;
      TotalRemove(lat, s - {m}, n);
      assert s - {m} - {n} == s - {n} - {m};
    }
  }

  /** The total adds up the values of the map. */
  lemma TotalAdds(lat: map<NodeId, nat>, n: NodeId)
    ensures Total(map[], {}) == 0
    ensures n in lat ==> Total(lat, lat.Keys) == lat[n] + Total(lat - {n}, (lat - {n}).Keys)
  {
    if n in lat {
      TotalRemove(lat, lat.Keys, n);
      assert (lat - {n}).Keys == lat.Keys - {n};
      TotalSame(lat, lat - {n}, lat.Keys - {n});
    }
  }

  lemma {:induction false} TotalSame(lat: map<NodeId, nat>, lat': map<NodeId, nat>, s: set<NodeId>)
    requires forall n :: n in s ==> Latency(lat, n) == Latency(lat', n)
    ensures Total(lat, s) == Total(lat', s)
  {
    if s != {} {
      TotalSame(lat, lat', s - {Min(s)});
    }
  }

  lemma {:induction false} WalkIsDistinct(edges: seq<Edge>, w: seq<NodeId>)
    requires Acyclic(edges) && IsWalk(edges, w)
    ensures Distinct(w)
  {
    forall i, j | 0 <= i < j < |w| ensures w[i] != w[j] {
      var part := w[i..j + 1];
      forall k | 0 <= k < |part| - 1 ensures Linked(edges, part[k], part[k + 1]) {
        assert Linked(edges, w[i + k], w[i + k + 1]);
      }
      assert IsWalk(edges, part) && part[0] == w[i] && part[|part| - 1] == w[j];
    }
  }

  /** Nodes visited once cannot take longer than all recorded latencies together. */
  lemma {:induction false} DistinctWithinTotal(lat: map<NodeId, nat>, w: seq<NodeId>, s: set<NodeId>)
    requires Distinct(w) && forall x :: x in w && x in lat ==> x in s
    ensures WalkLatency(lat, w) <= Total(lat, s)
  {
    if w != [] {
      var last, init := w[|w| - 1], w[..|w| - 1];
      assert w == init + [last];
      if last in s {
        DistinctWithinTotal(lat, init, s - {last});
        TotalRemove(lat, s, last);
      } else {
        DistinctWithinTotal(lat, init, s);
      }
    }
  }

  /** `sum(latencies.values())`. */
  method SumLatencies(lat: map<NodeId, nat>) returns (total: nat)
    ensures total == Total(lat, lat.Keys)
  {
    total := 0;
    var todo := lat.Keys;
    while todo != {}
      invariant todo <= lat.Keys
      invariant total + Total(lat, todo) == Total(lat, lat.Keys)
      decreases todo
    {
      var n :| n in todo;
      TotalRemove(lat, todo, n);
      total := total + lat[n];
      todo := todo - {n};
    }
  }

  /** `max(longest.values(), default=0)`. */
  method Critical(longest: map<NodeId, nat>) returns (critical: nat)
    ensures forall n :: n in longest ==> longest[n] <= critical
    ensures critical == 0 || exists n :: n in longest && longest[n] == critical
  {
    critical := 0;
    var todo := longest.Keys;
    while todo != {}
      invariant todo <= longest.Keys
      invariant forall n :: n in longest && n !in todo ==> longest[n] <= critical
      invariant critical == 0 || exists n :: n in longest && longest[n] == critical
      decreases todo
    {
      var n :| n in todo;
      if longest[n] > critical {
        critical := longest[n];
      }
      todo := todo - {n};
    }
  }

  /** The critical path is at least every single node's latency and at most all of them together. */
  lemma CriticalBounds(g: Graph, waves: seq<seq<NodeId>>, lat: map<NodeId, nat>, longest: map<NodeId, nat>,
                       critical: nat)
    requires Closed(Ids(g), g.edges) && IsLayering(Ids(g), g.edges, waves)
    requires longest.Keys == Ids(g) && LongestSoFar(g.edges, lat, longest)
    requires forall n :: n in longest ==> longest[n] <= critical
    requires critical == 0 || exists n :: n in longest && longest[n] == critical
    ensures forall n :: n in Ids(g) ==> Latency(lat, n) <= critical
    ensures critical <= Total(lat, lat.Keys)
  {
    forall n | n in Ids(g) ensures Latency(lat, n) <= critical {
      assert IsLongest(g.edges, lat, n, longest[n]);
      AtLeastOwn(g.edges, lat, n, longest[n]);
    }
    if critical > 0 {
      var n :| n in longest && longest[n] == critical;
      assert IsLongest(g.edges, lat, n, longest[n]);
      LayeredIsAcyclic(Ids(g), g.edges, |waves|);
      AtMostTotal(g.edges, lat, n, critical);
    }
  }

  lemma AtLeastOwn(edges: seq<Edge>, lat: map<NodeId, nat>, n: NodeId, value: nat)
    requires Bounds(edges, lat, n, value)
    ensures Latency(lat, n) <= value
  {
    SingleWalk(edges, lat, n);
    assert [n][|[n]| - 1] == n;
  }

  lemma AtMostTotal(edges: seq<Edge>, lat: map<NodeId, nat>, n: NodeId, value: nat)
    requires Attained(edges, lat, n, value) && Acyclic(edges)
    ensures value <= Total(lat, lat.Keys)
  {
    var w :| IsWalk(edges, w) && w[|w| - 1] == n && WalkLatency(lat, w) == value;
    WalkIsDistinct(edges, w);
    DistinctWithinTotal(lat, w, lat.Keys);
  }

  /** The total of all latencies, and the greatest latency of any walk. */
  ghost predicate AreFigures(g: Graph, lat: map<NodeId, nat>, total: nat, critical: nat) {
    && total == Total(lat, lat.Keys)
    && (forall n :: n in Ids(g) ==> Bounds(g.edges, lat, n, critical))
    && (critical == 0 || exists n :: n in Ids(g) && Attained(g.edges, lat, n, critical))
  }

  /** The latency figures of `_result`. */
  method LatencyFigures(g: Graph, waves: seq<seq<NodeId>>, lat: map<NodeId, nat>) returns (total: nat, critical: nat)
    requires Closed(Ids(g), g.edges) && IsLayering(Ids(g), g.edges, waves) && lat.Keys <= Ids(g)
    ensures AreFigures(g, lat, total, critical)
    ensures (forall n :: n in lat ==> lat[n] <= critical) && critical <= total
  {
    total := SumLatencies(lat);
    var longest := LongestPaths(g, waves, lat);
    critical := Critical(longest);
    CriticalBounds(g, waves, lat, longest, critical);
    assert forall n :: n in lat ==> Latency(lat, n) <= critical;
    CriticalIsGreatest(g, lat, longest, critical);
  }

  lemma CriticalIsGreatest(g: Graph, lat: map<NodeId, nat>, longest: map<NodeId, nat>, critical: nat)
    requires longest.Keys == Ids(g) && LongestSoFar(g.edges, lat, longest)
    requires forall n :: n in longest ==> longest[n] <= critical
    requires critical == 0 || exists n :: n in longest && longest[n] == critical
    ensures AreFigures(g, lat, Total(lat, lat.Keys), critical)
  {
    forall n | n in Ids(g) ensures Bounds(g.edges, lat, n, critical) {
      assert IsLongest(g.edges, lat, n, longest[n]);
      BoundsWeaken(g.edges, lat, n, longest[n], critical);
    }
    if critical > 0 {
      var n :| n in longest && longest[n] == critical;
      assert IsLongest(g.edges, lat, n, longest[n]);
    }
  }
}
