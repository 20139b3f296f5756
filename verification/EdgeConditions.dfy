/** Edge conditions: a walk down the payload, then one comparison with Python's rules. */
module EdgeConditions {
  import opened Types

  /** The value at the end of a path of keys, if every step finds an object with that key. */
  function Walk(j: Json, path: seq<Key>): Option<Json>
    decreases |path|
  {
    if path == [] then Some(j)
    else if !j.Obj? || path[0] !in j.fields then None
    else Walk(j.fields[path[0]], path[1..])
  }

  /** Python counts True as 1 and False as 0. */
  function Numeric(j: Json): Option<real> {
    match j
    case Bool(b) => Some(if b then 1.0 else 0.0)
    case Num(r) => Some(r)
    case _ => None
  }

  /** Python's `==` on decoded JSON. */
  predicate PyEqual(a: Json, b: Json) {
    if Numeric(a).Some? || Numeric(b).Some? then Numeric(a) == Numeric(b)
    else match (a, b)
      case (Arr(xs), Arr(ys)) => |xs| == |ys| && forall i | 0 <= i < |xs| :: PyEqual(xs[i], ys[i])
      case (Obj(f), Obj(g)) => f.Keys == g.Keys && forall k | k in f.Keys :: PyEqual(f[k], g[k])
      case _ => a == b
  }

  predicate TextLess(a: string, b: string) {
    if a == "" || b == "" then |a| < |b|
    else a[0] < b[0] || (a[0] == b[0] && TextLess(a[1..], b[1..]))
  }

  /** Python's `<` on decoded JSON; None where Python raises TypeError. */
  function PyLess(a: Json, b: Json): Option<bool> {
    if Numeric(a).Some? && Numeric(b).Some? then Some(Numeric(a).value < Numeric(b).value)
    else match (a, b)
      case (Str(s), Str(t)) => Some(TextLess(s, t))
      case (Arr(xs), Arr(ys)) => ListLess(xs, ys)
      case _ => None
  }

  /** Lists compare at the first position where they differ, or by length. */
  function ListLess(xs: seq<Json>, ys: seq<Json>): Option<bool> {
    if xs == [] || ys == [] then Some(|xs| < |ys|)
    else if PyEqual(xs[0], ys[0]) then ListLess(xs[1..], ys[1..])
    else PyLess(xs[0], ys[0])
  }

  /** What the comparison says of the value found; None where Python raises TypeError. */
  function Compare(c: Condition, found: Json): Option<bool> {
    match c.operator
    case Equals => Some(PyEqual(found, c.value))
    case NotEquals => Some(!PyEqual(found, c.value))
    case GreaterThan => PyLess(c.value, found)
    case LessThan => PyLess(found, c.value)
    case IsTrue => Some(found == Bool(true))
    case IsFalse => Some(found == Bool(false))
  }

  function Evaluation(c: Condition, payload: map<Key, Json>): Option<bool> {
    match Walk(Obj(payload), c.path)
    case None => Some(false)
    case Some(found) => Compare(c, found)
  }

  /** The condition lets the edge carry this payload. */
  predicate Holds(c: Condition, payload: map<Key, Json>) {
    Evaluation(c, payload) == Some(true)
  }

  /** `EdgeCondition.evaluate`: the walk is a loop over the parts of the path. */
  method Evaluate(c: Condition, payload: map<Key, Json>) returns (r: Option<bool>)
    ensures r == Evaluation(c, payload)
  {
    var current := Obj(payload);
    var i := 0;
    while i < |c.path|
      invariant 0 <= i <= |c.path|
      invariant Walk(current, c.path[i..]) == Walk(Obj(payload), c.path)
    {
      var part := c.path[i];
      if !current.Obj? || part !in current.fields {
        return Some(false);
      }
      assert c.path[i..][1..] == c.path[i + 1..];
      current := current.fields[part];
      i := i + 1;
    }
    r := Compare(c, current);
  }

  /** Python's `==` is reflexive on JSON, so `equals` and `not_equals` are complementary on a
      value that is present, and both are false on a path that leads nowhere. */
  lemma {:induction false} EqualReflexive(a: Json)
    ensures PyEqual(a, a)
  {
    match a
    case Arr(xs) =>
      forall i | 0 <= i < |xs| ensures PyEqual(xs[i], xs[i]) {
        EqualReflexive(xs[i]);
      }
    case Obj(f) =>
      forall k | k in f.Keys ensures PyEqual(f[k], f[k]) {
        EqualReflexive(f[k]);
      }
    case _ =>
  }

  /** A value never orders strictly below itself, whatever the operands' types. */
  lemma {:induction false} LessIrreflexive(a: Json)
    ensures PyLess(a, a) != Some(true)
  {
    match a
    case Str(s) => TextLessIrreflexive(s);
    case Arr(xs) => ListLessIrreflexive(xs);
    case _ =>
  }

  lemma {:induction false} TextLessIrreflexive(s: string)
    ensures !TextLess(s, s)
  {
    if s != "" {
      TextLessIrreflexive(s[1..]);
    }
  }

  lemma {:induction false} ListLessIrreflexive(xs: seq<Json>)
    ensures ListLess(xs, xs) == Some(false)
  {
    if xs != [] {
      EqualReflexive(xs[0]);
      ListLessIrreflexive(xs[1..]);
    }
  }

  /* ---------- what the walk finds ---------- */

  /** Step by step the trail goes from an object to the value under the next key. */
  ghost predicate Descends(trail: seq<Json>, path: seq<Key>) {
    && |trail| == |path| + 1
    && forall i :: 0 <= i < |path| ==>
        trail[i].Obj? && path[i] in trail[i].fields && trail[i + 1] == trail[i].fields[path[i]]
  }

  /** The path leads from the payload to this value. */
  ghost predicate LeadsTo(payload: map<Key, Json>, path: seq<Key>, found: Json) {
    exists trail :: Descends(trail, path) && trail[0] == Obj(payload) && trail[|path|] == found
  }

  lemma {:induction false} WalkFollows(j: Json, path: seq<Key>) returns (trail: seq<Json>)
    requires Walk(j, path).Some?
    ensures Descends(trail, path) && trail[0] == j && Walk(j, path) == Some(trail[|path|])
  {
    if path == [] {
      trail := [j];
    } else {
      var rest := WalkFollows(j.fields[path[0]], path[1..]);
      trail := [j] + rest;
    }
  }

  lemma {:induction false} FollowsWalks(trail: seq<Json>, path: seq<Key>)
    requires Descends(trail, path)
    ensures Walk(trail[0], path) == Some(trail[|path|])
  {
    if path != [] {
      assert Descends(trail[1..], path[1..]);
      FollowsWalks(trail[1..], path[1..]);
    }
  }

  /** The walk finds a value exactly if the path leads to it. */
  lemma WalkIff(payload: map<Key, Json>, path: seq<Key>, found: Json)
    ensures Walk(Obj(payload), path) == Some(found) <==> LeadsTo(payload, path, found)
  {
    if Walk(Obj(payload), path) == Some(found) {
      var trail := WalkFollows(Obj(payload), path);
    }
    if LeadsTo(payload, path, found) {
      var trail :| Descends(trail, path) && trail[0] == Obj(payload) && trail[|path|] == found;
      FollowsWalks(trail, path);
    }
  }

  /** One key, and two nested keys. */
  lemma ShortPaths(payload: map<Key, Json>, k: Key, l: Key, found: Json)
    ensures LeadsTo(payload, [k], found) <==> k in payload && payload[k] == found
    ensures LeadsTo(payload, [k, l], found) <==>
            k in payload && payload[k].Obj? && l in payload[k].fields && payload[k].fields[l] == found
  {
    WalkIff(payload, [k], found);
    WalkIff(payload, [k, l], found);
    assert [k][1..] == [] && [l][1..] == [] && [k, l][1..] == [l];
    if k in payload {
      assert Walk(Obj(payload), [k, l]) == Walk(payload[k], [l]);
      if payload[k].Obj? && l in payload[k].fields {
        assert Walk(payload[k], [l]) == Walk(payload[k].fields[l], []);
      }
    }
  }

  /* ---------- what the comparisons mean ---------- */

  /** Booleans and numbers are equal exactly if their values are, True counting as 1 and False as 0;
      otherwise only values of one kind are equal: equal strings, lists that are equal item by item, and
      objects with the same keys and equal values. */
  lemma EqualIff(a: Json, b: Json)
    ensures a.Num? && b.Num? ==> (PyEqual(a, b) <==> a.r == b.r)
    ensures a.Bool? && b.Bool? ==> (PyEqual(a, b) <==> a.b == b.b)
    ensures a.Bool? && b.Num? ==> (PyEqual(a, b) <==> (a.b && b.r == 1.0) || (!a.b && b.r == 0.0))
    ensures a.Num? && b.Bool? ==> (PyEqual(a, b) <==> (b.b && a.r == 1.0) || (!b.b && a.r == 0.0))
    ensures a.Str? && b.Str? ==> (PyEqual(a, b) <==> a.s == b.s)
    ensures a.Null? && b.Null? ==> PyEqual(a, b)
    ensures a.Arr? && b.Arr? ==>
      (PyEqual(a, b) <==> |a.items| == |b.items| && forall i :: 0 <= i < |a.items| ==> PyEqual(a.items[i], b.items[i]))
    ensures a.Obj? && b.Obj? ==>
      (PyEqual(a, b) <==>
        a.fields.Keys == b.fields.Keys && forall k :: k in a.fields ==> PyEqual(a.fields[k], b.fields[k]))
    ensures PyEqual(a, b) ==>
      || (a.Null? && b.Null?) || ((a.Bool? || a.Num?) && (b.Bool? || b.Num?))
      || (a.Str? && b.Str?) || (a.Arr? && b.Arr?) || (a.Obj? && b.Obj?)
  {
    if a.Arr? && b.Arr? && |a.items| == |b.items| {
      if !PyEqual(a, b) {
        var i :| 0 <= i < |a.items| && !PyEqual(a.items[i], b.items[i]);
      }
    }
    if a.Obj? && b.Obj? && a.fields.Keys == b.fields.Keys {
      if !PyEqual(a, b) {
        var k :| k in a.fields.Keys && !PyEqual(a.fields[k], b.fields[k]);
      }
    }
  }

  /** The first string is a proper prefix, or has the smaller character where they first differ. */
  ghost predicate TextBelow(s: string, t: string) {
    exists k: nat :: k <= |s| && k < |t| && s[..k] == t[..k] && (k == |s| || s[k] < t[k])
  }

  lemma {:induction false} TextLessIff(s: string, t: string)
    ensures TextLess(s, t) <==> TextBelow(s, t)
  {
    if s == "" || t == "" {
      if t != "" {
        assert s[..0] == t[..0];
      }
    } else if s[0] != t[0] {
      if s[0] < t[0] {
        assert s[..0] == t[..0];
      }
      forall k: nat | 0 < k <= |s| && k < |t| ensures s[..k] != t[..k] {
        assert s[..k][0] == s[0] && t[..k][0] == t[0];
      }
    } else {
      TextLessIff(s[1..], t[1..]);
      TextTails(s, t);
    }
  }

  lemma TextTails(s: string, t: string)
    requires s != "" && t != "" && s[0] == t[0]
    ensures TextBelow(s, t) <==> TextBelow(s[1..], t[1..])
  {
    if k: nat :| k <= |s| && k < |t| && s[..k] == t[..k] && (k == |s| || s[k] < t[k]) {
      assert k > 0;
      assert s[1..][..k - 1] == s[..k][1..] && t[1..][..k - 1] == t[..k][1..];
    }
    if k: nat :| k < |s| && k < |t| - 1 && s[1..][..k] == t[1..][..k]
                 && (k == |s[1..]| || s[1..][k] < t[1..][k])
    {
      assert s[..k + 1] == [s[0]] + s[1..][..k] && t[..k + 1] == [t[0]] + t[1..][..k];
    }
  }

  ghost predicate NumberBelow(a: Json, b: Json) {
    || (a.Num? && b.Num? && a.r < b.r)
    || (a.Bool? && b.Num? && (if a.b then 1.0 else 0.0) < b.r)
    || (a.Num? && b.Bool? && a.r < if b.b then 1.0 else 0.0)
    || (a.Bool? && b.Bool? && !a.b && b.b)
  }

  /** All items of the shorter list are equal to those of the longer. */
  ghost predicate ProperPrefix(xs: seq<Json>, ys: seq<Json>) {
    |xs| < |ys| && forall i :: 0 <= i < |xs| ==> PyEqual(xs[i], ys[i])
  }

  /** Numbers by value, strings as above, and lists by a proper prefix or where they first differ. */
  ghost predicate Below(a: Json, b: Json) {
    || NumberBelow(a, b)
    || (a.Str? && b.Str? && TextBelow(a.s, b.s))
    || (a.Arr? && b.Arr? && (ProperPrefix(a.items, b.items) ||
          exists k: nat :: FirstDifference(a.items, b.items, k) && Below(a.items[k], b.items[k])))
  }

  ghost predicate ListBelow(xs: seq<Json>, ys: seq<Json>) {
    ProperPrefix(xs, ys) || exists k: nat :: FirstDifference(xs, ys, k) && Below(xs[k], ys[k])
  }

  lemma {:induction false} LessIff(a: Json, b: Json)
    ensures PyLess(a, b) == Some(true) <==> Below(a, b)
  {
    if a.Str? && b.Str? {
      TextLessIff(a.s, b.s);
    } else if a.Arr? && b.Arr? {
      ListLessIff(a.items, b.items);
      assert Below(a, b) <==> ListBelow(a.items, b.items);
    }
  }

  lemma {:induction false} ListLessIff(xs: seq<Json>, ys: seq<Json>)
    ensures ListLess(xs, ys) == Some(true) <==> ListBelow(xs, ys)
  {
    if xs != [] && ys != [] {
      if PyEqual(xs[0], ys[0]) {
        ListLessIff(xs[1..], ys[1..]);
        TailsBelow(xs, ys);
      } else {
        LessIff(xs[0], ys[0]);
        if Below(xs[0], ys[0]) {
          assert FirstDifference(xs, ys, 0);
        }
      }
    }
  }

  lemma TailsBelow(xs: seq<Json>, ys: seq<Json>)
    requires xs != [] && ys != [] && PyEqual(xs[0], ys[0])
    ensures ListBelow(xs, ys) <==> ListBelow(xs[1..], ys[1..])
  {
    if ProperPrefix(xs[1..], ys[1..]) {
      forall i | 0 <= i < |xs| ensures PyEqual(xs[i], ys[i]) {
        assert i > 0 ==> PyEqual(xs[1..][i - 1], ys[1..][i - 1]);
      }
    }
    if k: nat :| FirstDifference(xs, ys, k) && Below(xs[k], ys[k]) {
      assert FirstDifference(xs[1..], ys[1..], k - 1);
      assert Below(xs[1..][k - 1], ys[1..][k - 1]);
    }
    if k: nat :| FirstDifference(xs[1..], ys[1..], k) && Below(xs[1..][k], ys[1..][k]) {
      assert FirstDifference(xs, ys, k + 1);
      assert Below(xs[k + 1], ys[k + 1]);
    }
  }

  /** When a condition lets an edge carry a payload, operator by operator. */
  lemma OperatorsMean(c: Condition, payload: map<Key, Json>)
    ensures c.operator == IsTrue ==> (Holds(c, payload) <==> LeadsTo(payload, c.path, Bool(true)))
    ensures c.operator == IsFalse ==> (Holds(c, payload) <==> LeadsTo(payload, c.path, Bool(false)))
    ensures c.operator == Equals ==>
      (Holds(c, payload) <==> exists found :: LeadsTo(payload, c.path, found) && PyEqual(found, c.value))
    ensures c.operator == NotEquals ==>
      (Holds(c, payload) <==> exists found :: LeadsTo(payload, c.path, found) && !PyEqual(found, c.value))
    ensures c.operator == GreaterThan ==>
      (Holds(c, payload) <==> exists found :: LeadsTo(payload, c.path, found) && Below(c.value, found))
    ensures c.operator == LessThan ==>
      (Holds(c, payload) <==> exists found :: LeadsTo(payload, c.path, found) && Below(found, c.value))
  {
    forall found ensures LeadsTo(payload, c.path, found) <==> Walk(Obj(payload), c.path) == Some(found) {
      WalkIff(payload, c.path, found);
    }
    var w := Walk(Obj(payload), c.path);
    if w.Some? {
      LessIff(w.value, c.value);
      LessIff(c.value, w.value);
      assert LeadsTo(payload, c.path, w.value);
    }
  }

  /* ---------- when a comparison raises ---------- */

  ghost predicate FirstDifference(xs: seq<Json>, ys: seq<Json>, k: nat) {
    k < |xs| && k < |ys| && !PyEqual(xs[k], ys[k]) && forall i :: 0 <= i < k ==> PyEqual(xs[i], ys[i])
  }

  /** Python cannot order these: they are neither two numbers nor two strings, and if they are two
      lists, they first differ in such a pair. */
  ghost predicate Incomparable(a: Json, b: Json) {
    && !(Numeric(a).Some? && Numeric(b).Some?)
    && !(a.Str? && b.Str?)
    && (a.Arr? && b.Arr? ==>
          exists k: nat :: FirstDifference(a.items, b.items, k) && Incomparable(a.items[k], b.items[k]))
  }

  ghost predicate DifferIncomparably(xs: seq<Json>, ys: seq<Json>) {
    exists k: nat :: FirstDifference(xs, ys, k) && Incomparable(xs[k], ys[k])
  }

  lemma {:induction false} LessRaises(a: Json, b: Json)
    ensures PyLess(a, b).None? <==> Incomparable(a, b)
  {
    if a.Arr? && b.Arr? {
      ListLessRaises(a.items, b.items);
      assert Incomparable(a, b) <==> DifferIncomparably(a.items, b.items);
    }
  }

  lemma {:induction false} ListLessRaises(xs: seq<Json>, ys: seq<Json>)
    ensures ListLess(xs, ys).None? <==> DifferIncomparably(xs, ys)
  {
    if xs != [] && ys != [] {
      if PyEqual(xs[0], ys[0]) {
        ListLessRaises(xs[1..], ys[1..]);
        TailsDiffer(xs, ys);
      } else {
        LessRaises(xs[0], ys[0]);
        if Incomparable(xs[0], ys[0]) {
          assert FirstDifference(xs, ys, 0);
        }
      }
    }
  }

  lemma TailsDiffer(xs: seq<Json>, ys: seq<Json>)
    requires xs != [] && ys != [] && PyEqual(xs[0], ys[0])
    ensures DifferIncomparably(xs, ys) <==> DifferIncomparably(xs[1..], ys[1..])
  {
    if k: nat :| FirstDifference(xs, ys, k) && Incomparable(xs[k], ys[k]) {
      assert FirstDifference(xs[1..], ys[1..], k - 1);
      assert Incomparable(xs[1..][k - 1], ys[1..][k - 1]);
    }
    if k: nat :| FirstDifference(xs[1..], ys[1..], k) && Incomparable(xs[1..][k], ys[1..][k]) {
      assert FirstDifference(xs, ys, k + 1);
      assert Incomparable(xs[k + 1], ys[k + 1]);
    }
  }

  lemma {:induction false} EqualSymmetric(a: Json, b: Json)
    ensures PyEqual(a, b) <==> PyEqual(b, a)
  {
    match (a, b)
    case (Arr(xs), Arr(ys)) =>
      forall i | 0 <= i < |xs| && i < |ys| ensures PyEqual(xs[i], ys[i]) <==> PyEqual(ys[i], xs[i]) {
        EqualSymmetric(xs[i], ys[i]);
      }
    case (Obj(f), Obj(g)) =>
      forall k | k in f.Keys && k in g.Keys ensures PyEqual(f[k], g[k]) <==> PyEqual(g[k], f[k]) {
        EqualSymmetric(f[k], g[k]);
      }
    case _ =>
  }

  lemma DifferenceSymmetric(xs: seq<Json>, ys: seq<Json>, k: nat)
    requires FirstDifference(xs, ys, k)
    ensures FirstDifference(ys, xs, k)
  {
    forall i | 0 <= i <= k ensures PyEqual(xs[i], ys[i]) <==> PyEqual(ys[i], xs[i]) {
      EqualSymmetric(xs[i], ys[i]);
    }
  }

  lemma {:induction false} IncomparableSymmetric(a: Json, b: Json)
    requires Incomparable(a, b)
    ensures Incomparable(b, a)
  {
    if a.Arr? && b.Arr? {
      var k: nat :| FirstDifference(a.items, b.items, k) && Incomparable(a.items[k], b.items[k]);
      DifferenceSymmetric(a.items, b.items, k);
      IncomparableSymmetric(a.items[k], b.items[k]);
    }
  }

  /** The evaluation raises exactly if the operator orders, the path leads to a value, and Python
      cannot order that value and the operand. */
  lemma EvaluationRaises(c: Condition, payload: map<Key, Json>)
    ensures Evaluation(c, payload).None? <==>
      (var found := Walk(Obj(payload), c.path);
       c.operator in {GreaterThan, LessThan} && found.Some? && Incomparable(found.value, c.value))
  {
    var found := Walk(Obj(payload), c.path);
    if found.Some? {
      LessRaises(found.value, c.value);
      LessRaises(c.value, found.value);
      if Incomparable(found.value, c.value) {
        IncomparableSymmetric(found.value, c.value);
      } else if Incomparable(c.value, found.value) {
        IncomparableSymmetric(c.value, found.value);
      }
    }
  }

  /* ---------- opposite conditions ---------- */

  ghost predicate Opposite(c: Condition, d: Condition) {
    c.path == d.path && c.operator == IsTrue && d.operator == IsFalse
  }

  /** An `is_true` and an `is_false` condition on one field never both hold, and exactly one
      holds precisely when the path leads to a boolean. */
  lemma OppositeConditions(c: Condition, d: Condition, payload: map<Key, Json>)
    requires Opposite(c, d)
    ensures !(Holds(c, payload) && Holds(d, payload))
    ensures (Holds(c, payload) || Holds(d, payload)) <==>
            (Walk(Obj(payload), c.path).Some? && Walk(Obj(payload), c.path).value.Bool?)
  {
  }
}
