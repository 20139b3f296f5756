/** Python's `sorted` on distinct keys, and slicing to the first k. */
module Sorting {

  lemma {:induction false} MinExists(s: set<nat>, a: nat)
    requires a in s
    ensures exists m :: m in s && forall x :: x in s ==> m <= x
    decreases a
  {
    if b: nat :| b in s && b < a {
      MinExists(s, b);
    }
  }

  function Min(s: set<nat>): (m: nat)
    requires s != {}
    ensures m in s && forall x :: x in s ==> m <= x
  {
    assert exists m :: m in s && forall x :: x in s ==> m <= x by {
      var a :| a in s;
      MinExists(s, a);
    }
    var m :| m in s && forall x :: x in s ==> m <= x;
    m
  }

  ghost predicate Increasing(xs: seq<nat>) {
    forall i, j :: 0 <= i < j < |xs| ==> xs[i] < xs[j]
  }

  ghost predicate Distinct<T>(xs: seq<T>) {
    forall i, j :: 0 <= i < j < |xs| ==> xs[i] != xs[j]
  }

  function Elements<T>(xs: seq<T>): set<T> {
    set x | x in xs
  }

  /** The members of a set in increasing order. */
  function Sorted(s: set<nat>): (r: seq<nat>)
    ensures forall x :: x in r <==> x in s
    ensures Increasing(r)
    ensures |r| == |s|
  {
    if s == {} then [] else
      var m := Min(s);
      [m] + Sorted(s - {m})
  }

  /** An increasing sequence is determined by its members. */
  lemma {:induction false} SortedUnique(xs: seq<nat>, s: set<nat>)
    requires Increasing(xs)
    requires forall x :: x in xs <==> x in s
    ensures xs == Sorted(s)
  {
    if xs == [] {
      assert forall x :: x !in s;
    } else {
      assert xs[0] in xs;
      var tail := xs[1..];
      assert xs == [xs[0]] + tail;
      forall x ensures x in tail <==> x in s - {xs[0]} {
        if x in tail {
          assert x in xs;
        }
      }
      assert Min(s) == xs[0];
      SortedUnique(tail, s - {xs[0]});
    }
  }

  lemma AppendNext(picked: seq<nat>, ids: seq<nat>, i: nat)
    requires Increasing(ids) && i < |ids| && Increasing(picked)
    requires forall x :: x in picked ==> x in ids[..i]
    ensures Increasing(picked + [ids[i]])
  {
    forall j | 0 <= j < |picked| ensures picked[j] < ids[i] {
      assert picked[j] in ids[..i];
    }
  }

  /** Python's `xs[:k]`: a negative k counts from the end. */
  function Slice<T>(xs: seq<T>, k: int): (r: seq<T>)
    ensures r <= xs
    ensures k >= 0 ==> |r| == if k < |xs| then k else |xs|
    ensures k < 0 ==> |r| == if |xs| + k > 0 then |xs| + k else 0
  {
    if k >= 0 then xs[..if k < |xs| then k else |xs|]
    else xs[..if |xs| + k > 0 then |xs| + k else 0]
  }

  /** A list has as many members as positions exactly if nothing repeats. */
  lemma {:induction false} DistinctSize<T>(xs: seq<T>)
    ensures |Elements(xs)| <= |xs|
    ensures |Elements(xs)| == |xs| <==> Distinct(xs)
  {
    if xs != [] {
      var last := xs[|xs| - 1];
      var init := xs[..|xs| - 1];
      DistinctSize(init);
      assert xs == init + [last];
      assert Elements(xs) == Elements(init) + {last};
      if last in init {
        var i :| 0 <= i < |init| && init[i] == last;
        assert xs[i] == xs[|xs| - 1];
      } else if Distinct(init) {
        assert Distinct(xs);
      } else {
        var i, j :| 0 <= i < j < |init| && init[i] == init[j];
        assert xs[i] == xs[j];
      }
    }
  }
}
