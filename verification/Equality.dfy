/** `isEqual` (go/utils.go): equality of dynamic values, numbers by value and,
    on request, lists as multisets at every level. */
module DeepEquality {
  import opened GoValues

  ghost predicate IsPermutation(p: seq<nat>, n: nat) {
    && |p| == n
    && (forall i | 0 <= i < n :: p[i] < n)
    && (forall i, j | 0 <= i < j < n :: p[i] != p[j])
  }

  /** The meaning of `isEqual`: equal up to number width and, with `anyOrder`,
      up to a permutation of every list at every level. */
  ghost predicate Equal(a: Val, b: Val, anyOrder: bool)
    decreases a
  {
    match (a, b)
    case (Nil, Nil) => true
    case (Bool(x), Bool(y)) => x == y
    case (Str(x), Str(y)) => x == y
    case (Num(x), Num(y)) => FloatEq(AsFloat64(x), AsFloat64(y))
    case (Struct(x), Struct(y)) => x == y
    case (List(xs), List(ys)) =>
      && |xs| == |ys|
      && if anyOrder then
        exists p :: IsPermutation(p, |xs|) && EqualAlong(xs, ys, p)
      else
        forall i | 0 <= i < |xs| :: Equal(xs[i], ys[i], false)
    case (Map(m), Map(n)) =>
      && m.Keys == n.Keys
      && forall k | k in m :: Equal(m[k], n[k], anyOrder)
    case _ => false
  }

  /** `p` pairs every element of `xs` with an equal element of `ys`. */
  ghost predicate EqualAlong(xs: seq<Val>, ys: seq<Val>, p: seq<nat>)
    requires |xs| == |ys| && IsPermutation(p, |xs|)
    decreases xs
  {
    forall i | 0 <= i < |xs| :: Equal(xs[i], ys[p[i]], true)
  }

  // ---- permutations ----

  ghost predicate Hits(p: seq<nat>, v: nat) {
    exists i | 0 <= i < |p| :: p[i] == v
  }

  ghost function Image(p: seq<nat>): set<nat> {
    set i | 0 <= i < |p| :: p[i]
  }

  ghost function Below(n: nat): (s: set<nat>)
    ensures |s| == n
    ensures forall v: nat :: v in s <==> v < n
  {
    if n == 0 then {} else Below(n - 1) + {n - 1}
  }

  lemma ImageSize(p: seq<nat>)
    requires forall i, j | 0 <= i < j < |p| :: p[i] != p[j]
    ensures |Image(p)| == |p|
  {
    if p != [] {
      var last := |p| - 1;
      var init := p[..last];
      ImageSize(init);
      assert Image(p) == Image(init) + {p[last]} by {
        forall v | v in Image(p) ensures v in Image(init) + {p[last]} {
          var i :| 0 <= i < |p| && p[i] == v;
          if i < last { assert init[i] == v; }
        }
        forall v | v in Image(init) ensures v in Image(p) {
          var i :| 0 <= i < |init| && init[i] == v;
          assert p[i] == v;
        }
      }
      assert p[last] !in Image(init);
    }
  }

  lemma SubsetOfSameSize<T>(a: set<T>, b: set<T>)
    requires a <= b && |a| == |b|
    ensures a == b
  {
    assert b == a + (b - a);
    assert |b - a| == 0;
  }

  /** An injection of a finite range into itself is onto. */
  lemma PermutationIsOnto(p: seq<nat>, n: nat, v: nat)
    requires IsPermutation(p, n) && v < n
    ensures Hits(p, v)
  {
    ImageSize(p);
    assert Image(p) <= Below(n);
    SubsetOfSameSize(Image(p), Below(n));
    assert v in Image(p);
  }

  lemma InverseExists(p: seq<nat>, n: nat) returns (q: seq<nat>)
    requires IsPermutation(p, n)
    ensures IsPermutation(q, n)
    ensures forall j | 0 <= j < n :: p[q[j]] == j
  {
    q := [];
    while |q| < n
      invariant |q| <= n
      invariant forall j | 0 <= j < |q| :: q[j] < n && p[q[j]] == j
    {
      PermutationIsOnto(p, n, |q|);
      var i :| 0 <= i < |p| && p[i] == |q|;
      q := q + [i];
    }
  }

  ghost function Compose(p: seq<nat>, q: seq<nat>, n: nat): (r: seq<nat>)
    requires IsPermutation(p, n) && IsPermutation(q, n)
    ensures IsPermutation(r, n) && forall i | 0 <= i < n :: r[i] == q[p[i]]
  {
    seq(n, i requires 0 <= i < n => q[p[i]])
  }

  // ---- isEqual is a partial equivalence, total exactly on NaN-free values ----

  lemma {:induction false} EqualSymmetric(a: Val, b: Val, anyOrder: bool)
    requires Equal(a, b, anyOrder)
    ensures Equal(b, a, anyOrder)
    decreases a
  {
    match (a, b)
    case (List(xs), List(ys)) =>
      if anyOrder {
        var p :| IsPermutation(p, |xs|) && EqualAlong(xs, ys, p);
        var q := InverseExists(p, |xs|);
        forall j | 0 <= j < |ys| ensures Equal(ys[j], xs[q[j]], true) {
          EqualSymmetric(xs[q[j]], ys[j], true);
        }
        assert EqualAlong(ys, xs, q);
      } else {
        forall i | 0 <= i < |xs| ensures Equal(ys[i], xs[i], false) {
          EqualSymmetric(xs[i], ys[i], false);
        }
      }
    case (Map(m), Map(n)) =>
      forall k | k in m ensures Equal(n[k], m[k], anyOrder) {
        EqualSymmetric(m[k], n[k], anyOrder);
      }
    case _ =>
  }

  lemma {:induction false} EqualTransitive(a: Val, b: Val, c: Val, anyOrder: bool)
    requires Equal(a, b, anyOrder) && Equal(b, c, anyOrder)
    ensures Equal(a, c, anyOrder)
    decreases a
  {
    match (a, b, c)
    case (List(xs), List(ys), List(zs)) =>
      if anyOrder {
        var p :| IsPermutation(p, |xs|) && EqualAlong(xs, ys, p);
        var q :| IsPermutation(q, |ys|) && EqualAlong(ys, zs, q);
        var r := Compose(p, q, |xs|);
        forall i | 0 <= i < |xs| ensures Equal(xs[i], zs[r[i]], true) {
          EqualTransitive(xs[i], ys[p[i]], zs[r[i]], true);
        }
        assert EqualAlong(xs, zs, r);
      } else {
        forall i | 0 <= i < |xs| ensures Equal(xs[i], zs[i], false) {
          EqualTransitive(xs[i], ys[i], zs[i], false);
        }
      }
    case (Map(m), Map(n), Map(o)) =>
      forall k | k in m ensures Equal(m[k], o[k], anyOrder) {
        EqualTransitive(m[k], n[k], o[k], anyOrder);
      }
    case _ =>
  }

  /** A value equals itself if and only if it holds no NaN. */
  lemma {:induction false} EqualReflexive(a: Val, anyOrder: bool)
    ensures Equal(a, a, anyOrder) <==> NaNFree(a)
    decreases a
  {
    match a
    case List(xs) =>
      forall i | 0 <= i < |xs| ensures Equal(xs[i], xs[i], anyOrder) <==> NaNFree(xs[i]) {
        EqualReflexive(xs[i], anyOrder);
      }
      if anyOrder {
        if NaNFree(a) {
          var id: seq<nat> := seq(|xs|, i requires 0 <= i < |xs| => i);
          assert IsPermutation(id, |xs|) && EqualAlong(xs, xs, id);
        }
        if Equal(a, a, true) {
          forall i | 0 <= i < |xs| ensures Equal(xs[i], xs[i], true) {
            SelfEqualElement(xs, i);
          }
        }
      }
    case Map(m) =>
      forall k | k in m ensures Equal(m[k], m[k], anyOrder) <==> NaNFree(m[k]) {
        EqualReflexive(m[k], anyOrder);
      }
    case _ =>
  }

  lemma SelfEqualElement(xs: seq<Val>, i: nat)
    requires Equal(List(xs), List(xs), true) && i < |xs|
    ensures Equal(xs[i], xs[i], true)
  {
    var p :| IsPermutation(p, |xs|) && EqualAlong(xs, xs, p);
    EqualSymmetric(xs[i], xs[p[i]], true);
    EqualTransitive(xs[i], xs[p[i]], xs[i], true);
  }

  /** Ignoring order only ever adds equal pairs. */
  lemma {:induction false} OrderedImpliesUnordered(a: Val, b: Val)
    requires Equal(a, b, false)
    ensures Equal(a, b, true)
    decreases a
  {
    match (a, b)
    case (List(xs), List(ys)) =>
      var id: seq<nat> := seq(|xs|, i requires 0 <= i < |xs| => i);
      forall i | 0 <= i < |xs| ensures Equal(xs[i], ys[id[i]], true) {
        OrderedImpliesUnordered(xs[i], ys[i]);
      }
      assert IsPermutation(id, |xs|) && EqualAlong(xs, ys, id);
    case (Map(m), Map(n)) =>
      forall k | k in m ensures Equal(m[k], n[k], true) {
        OrderedImpliesUnordered(m[k], n[k]);
      }
    case _ =>
  }

  // ---- the greedy matching loop, for any symmetric and transitive relation ----

  type Relation<!T> = (T, T) -> bool

  ghost predicate PartialEquivalence<T(!new)>(same: Relation<T>) {
    && (forall x, y :: same(x, y) ==> same(y, x))
    && (forall x, y, z :: same(x, y) && same(y, z) ==> same(x, z))
  }

  ghost predicate Matching<T>(same: Relation<T>, xs: seq<T>, ys: seq<T>, p: seq<nat>) {
    && |xs| == |ys|
    && IsPermutation(p, |xs|)
    && forall i | 0 <= i < |xs| :: same(xs[i], ys[p[i]])
  }

  /** The part of a matching fixed after `|m|` outer iterations. */
  ghost predicate PartialMatching<T>(same: Relation<T>, xs: seq<T>, ys: seq<T>, m: seq<nat>) {
    && |m| <= |xs| == |ys|
    && (forall i | 0 <= i < |m| :: m[i] < |ys| && same(xs[i], ys[m[i]]))
    && (forall i, j | 0 <= i < j < |m| :: m[i] != m[j])
  }

  /** Some full matching extends what the loop has fixed so far. */
  ghost predicate Extensible<T>(same: Relation<T>, xs: seq<T>, ys: seq<T>, m: seq<nat>) {
    exists p :: Matching(same, xs, ys, p) && m <= p
  }

  ghost function Swapped(p: seq<nat>, n: nat, i: nat, j: nat): (q: seq<nat>)
    requires IsPermutation(p, n) && i < n && j < n
    ensures IsPermutation(q, n)
    ensures q == p[j := p[i]][i := p[j]]
  {
    p[j := p[i]][i := p[j]]
  }

  /** Taking the first free equal element never costs a matching: in any full
      matching that extends `m`, the partner of element `|m|` can be exchanged for `j`. */
  lemma GreedyExchange<T(!new)>(same: Relation<T>, xs: seq<T>, ys: seq<T>, m: seq<nat>, j: nat)
    requires PartialEquivalence(same)
    requires PartialMatching(same, xs, ys, m) && |m| < |xs|
    requires j < |ys| && !Hits(m, j) && same(xs[|m|], ys[j])
    requires Extensible(same, xs, ys, m)
    ensures Extensible(same, xs, ys, m + [j])
  {
    var p :| Matching(same, xs, ys, p) && m <= p;
    var i := |m|;
    PermutationIsOnto(p, |xs|, j);
    var i' :| 0 <= i' < |p| && p[i'] == j;
    assert forall k | 0 <= k < i :: m[k] == p[k] && m[k] != j;
    var q := Swapped(p, |xs|, i, i');
    assert same(xs[i'], xs[i]) && same(xs[i'], ys[p[i]]);
    assert Matching(same, xs, ys, q);
    assert m + [j] <= q;
  }

  /** With no free equal element left, no full matching extends `m`. */
  lemma StuckMeansNoMatching<T>(same: Relation<T>, xs: seq<T>, ys: seq<T>, m: seq<nat>)
    requires PartialMatching(same, xs, ys, m) && |m| < |xs|
    requires forall j | 0 <= j < |ys| :: Hits(m, j) || !same(xs[|m|], ys[j])
    ensures !Extensible(same, xs, ys, m)
  {
    forall p | Matching(same, xs, ys, p) ensures !(m <= p) {
      var j := p[|m|];
      assert Hits(m, j);
      var i :| 0 <= i < |m| && m[i] == j;
      assert p[i] != p[|m|];
    }
  }

  lemma HitsAppend(m: seq<nat>, j: nat, v: nat)
    ensures Hits(m + [j], v) <==> Hits(m, v) || v == j
  {
    if Hits(m, v) {
      var i :| 0 <= i < |m| && m[i] == v;
      assert (m + [j])[i] == v;
    }
    if v == j {
      assert (m + [j])[|m|] == v;
    }
  }

  /** `isEqual`: first-free-match over a `used` array when order is ignored. */
  method IsEqual(a: Val, b: Val, ignoreOrder: bool) returns (equal: bool)
    ensures equal <==> Equal(a, b, ignoreOrder)
    decreases a, 2
  {
    if a.Nil? || b.Nil? {
      return a.Nil? && b.Nil?;
    }
    if a.Num? {
      return b.Num? && FloatEq(AsFloat64(a.num), AsFloat64(b.num));
    }
    match a
    case List(xs) =>
      if !b.List? || |xs| != |b.items| {
        return false;
      }
      if !ignoreOrder {
        equal := EqualInOrder(a, b);
        return;
      }
      equal := EqualAsMultisets(a, b);
    case Map(m) =>
      if !b.Map? || |m| != |b.entries| {
        return false;
      }
      equal := EqualEntries(a, b, ignoreOrder);
    case _ =>
      equal := a == b;
  }

  method EqualInOrder(a: Val, b: Val) returns (equal: bool)
    requires a.List? && b.List? && |a.items| == |b.items|
    ensures equal <==> Equal(a, b, false)
    decreases a, 0
  {
    for i := 0 to |a.items|
      invariant forall k | 0 <= k < i :: Equal(a.items[k], b.items[k], false)
    {
      var same := IsEqual(a.items[i], b.items[i], false);
      if !same {
        return false;
      }
    }
    return true;
  }

  method EqualAsMultisets(a: Val, b: Val) returns (equal: bool)
    requires a.List? && b.List? && |a.items| == |b.items|
    ensures equal <==> Equal(a, b, true)
    decreases a, 1
  {
    var xs, ys := a.items, b.items;
    var used := new bool[|ys|](_ => false);
    ghost var same := EqualAnyOrder();
    ghost var m: seq<nat> := [];
    MatchingIsEqual(xs, ys);
    ghost var solvable := Extensible(same, xs, ys, []);
    for i := 0 to |xs|
      invariant |m| == i
      invariant PartialMatching(same, xs, ys, m)
      invariant Marks(used[..], m)
      invariant solvable ==> Extensible(same, xs, ys, m)
    {
      var j := FirstFree(a, b, i, used, m);
      if j == |ys| {
        StuckMeansNoMatching(same, xs, ys, m);
        return false;
      }
      if solvable {
        GreedyExchange(same, xs, ys, m, j);
      }
      MarkOne(used[..], m, j);
      used[j] := true;
      m := m + [j];
    }
    assert Matching(same, xs, ys, m);
    assert [] <= m;
    return true;
  }

  /** `used` marks exactly the elements the matching has taken. */
  ghost predicate Marks(used: seq<bool>, m: seq<nat>) {
    forall k: nat | k < |used| :: used[k] <==> Hits(m, k)
  }

  lemma MarkOne(used: seq<bool>, m: seq<nat>, j: nat)
    requires Marks(used, m) && j < |used|
    ensures Marks(used[j := true], m + [j])
  {
    forall k: nat { HitsAppend(m, j, k); }
  }

  /** The inner loop: the first unused element equal to element `i`, if any. */
  method FirstFree(a: Val, b: Val, i: nat, used: array<bool>, ghost m: seq<nat>) returns (j: nat)
    requires a.List? && b.List? && i < |a.items| && used.Length == |b.items| && Marks(used[..], m)
    ensures j <= |b.items|
    ensures j < |b.items| ==> !Hits(m, j) && Equal(a.items[i], b.items[j], true)
    ensures forall k: nat | k < j :: Hits(m, k) || !Equal(a.items[i], b.items[k], true)
    decreases a, 0
  {
    j := 0;
    while j < |b.items|
      invariant j <= |b.items|
      invariant forall k: nat | k < j :: Hits(m, k) || !Equal(a.items[i], b.items[k], true)
    {
      assert used[..][j] == used[j];
      if !used[j] {
        var equalItems := IsEqual(a.items[i], b.items[j], true);
        if equalItems {
          return;
        }
      }
      j := j + 1;
    }
  }

  ghost function EqualAnyOrder(): (same: Relation<Val>)
    ensures PartialEquivalence(same)
  {
    var same := (x: Val, y: Val) => Equal(x, y, true);
    assert PartialEquivalence(same) by {
      forall x, y | same(x, y) ensures same(y, x) { EqualSymmetric(x, y, true); }
      forall x, y, z | same(x, y) && same(y, z) ensures same(x, z) { EqualTransitive(x, y, z, true); }
    }
    same
  }

  lemma MatchingIsEqual(xs: seq<Val>, ys: seq<Val>)
    requires |xs| == |ys|
    ensures Equal(List(xs), List(ys), true) <==> Extensible(EqualAnyOrder(), xs, ys, [])
  {
    if Equal(List(xs), List(ys), true) {
      var p :| IsPermutation(p, |xs|) && EqualAlong(xs, ys, p);
      assert Matching(EqualAnyOrder(), xs, ys, p) && [] <= p;
    }
    if Extensible(EqualAnyOrder(), xs, ys, []) {
      var p :| Matching(EqualAnyOrder(), xs, ys, p) && [] <= p;
      assert EqualAlong(xs, ys, p);
    }
  }

  method EqualEntries(a: Val, b: Val, ignoreOrder: bool) returns (equal: bool)
    requires a.Map? && b.Map? && |a.entries| == |b.entries|
    ensures equal <==> Equal(a, b, ignoreOrder)
    decreases a, 0
  {
    var m, n := a.entries, b.entries;
    var keys := m.Keys;
    while keys != {}
      invariant keys <= m.Keys
      invariant forall k | k in m.Keys - keys :: k in n && Equal(m[k], n[k], ignoreOrder)
      decreases |keys|
    {
      var k :| k in keys;
      if k !in n {
        return false;
      }
      var same := IsEqual(m[k], n[k], ignoreOrder);
      if !same {
        return false;
      }
      keys := keys - {k};
    }
    assert m.Keys <= n.Keys;
    SubsetOfSameSize(m.Keys, n.Keys);
    return true;
  }
}
