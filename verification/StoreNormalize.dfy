/** `normalizeStoreValue` (go/store_file.go) as it works: maps and slices are rewritten
    in place, whatever they share. */
module StoreNormalize {
  import opened GoValues
  import opened StoreLayout
  import opened StoreEnvelope
  import opened StoreHeap

  /** An entry as it was, or a scalar replaced by its normal form. */
  predicate PartEntry(before: Any, after: Any) {
    match (before, after)
    case (Scalar(v), Scalar(w)) => w == v || w == Normalize(v)
    case (Ref(n), Ref(m)) => n == m
    case _ => false
  }

  predicate PartBody(before: Body, after: Body) {
    match (before, after)
    case (MapBody(m), MapBody(m')) => m.Keys == m'.Keys && forall k | k in m :: PartEntry(m[k], m'[k])
    case (ListBody(s), ListBody(s')) => |s| == |s'| && forall i | 0 <= i < |s| :: PartEntry(s[i], s'[i])
    case _ => false
  }

  lemma PartTwice(a: Body, b: Body, c: Body)
    requires PartBody(a, b) && PartBody(b, c)
    ensures PartBody(a, c)
  {
    forall v: Val { NormalizeIdempotent(v); }
  }

  lemma PartSame(a: Body)
    ensures PartBody(a, a)
  {
  }

  /** Of the objects in `region` some scalars have been normalized since the old state, nothing else. */
  twostate predicate PartlyNormalized(region: set<Node>)
    reads region
  {
    forall o | o in region :: o.repr == old(o.repr) && PartBody(old(o.body), o.body)
  }

  /** `after` has the normal form of `before`, and is in normal form if `before` is. */
  predicate Kept(before: Val, after: Val) {
    Normalize(after) == Normalize(before) && (Canonical(before) ==> Canonical(after))
  }

  lemma ScalarKept(v: Val, w: Val)
    requires w == v || w == Normalize(v)
    ensures Kept(v, w)
  {
    NormalizeIsCanonical(v);
    NormalizeIdempotent(v);
  }

  lemma MapKept(m: Values, m': Values)
    requires m.Keys == m'.Keys && forall k | k in m :: Kept(m[k], m'[k])
    ensures Kept(Map(m), Map(m'))
  {
  }

  lemma ListKept(s: seq<Val>, s': seq<Val>)
    requires |s| == |s'| && forall i | 0 <= i < |s| :: Kept(s[i], s'[i])
    ensures Kept(List(s), List(s'))
  {
    assert |Normalize(List(s')).items| == |Normalize(List(s)).items|;
    forall i | 0 <= i < |s| ensures Normalize(List(s')).items[i] == Normalize(List(s)).items[i] {
      assert Kept(s[i], s'[i]);
    }
    forall i | 0 <= i < |s| ensures Canonical(List(s)) ==> Canonical(s'[i]) {
      assert Kept(s[i], s'[i]);
    }
  }

  datatype Spot = Spot(n: Node, region: set<Node>)

  /** That keeps the normal form of every value that lives in the region, and what was
      in normal form stays so, even where objects are shared. */
  twostate lemma {:induction false} NormalFormKept(s: Spot)
    requires old(s.n.Valid()) && old(s.n.repr) <= s.region
    requires PartlyNormalized(s.region)
    ensures s.n.Valid() && s.n.repr == old(s.n.repr) && PartBody(old(s.n.body), s.n.body)
    ensures Kept(old(s.n.View()), s.n.View())
    decreases old(s.n.repr)
  {
    var n := s.n;
    if n.body.MapBody? {
      forall k | k in n.body.m
        ensures n.Holds(n.body.m[k]) && old(n.Holds(n.body.m[k])) && Kept(old(n.ViewOf(n.body.m[k])), n.ViewOf(n.body.m[k]))
      {
        assert old(n.Holds(n.body.m[k])) && PartEntry(old(n.body.m[k]), n.body.m[k]);
        if n.body.m[k].Ref? {
          NormalFormKept(Spot(n.body.m[k].node, s.region));
        } else {
          ScalarKept(old(n.body.m[k]).v, n.body.m[k].v);
        }
      }
      MapKept(old(n.View()).entries, n.View().entries);
    } else {
      forall i | 0 <= i < |n.body.s|
        ensures n.Holds(n.body.s[i]) && old(n.Holds(n.body.s[i])) && Kept(old(n.ViewOf(n.body.s[i])), n.ViewOf(n.body.s[i]))
      {
        assert old(n.Holds(n.body.s[i])) && PartEntry(old(n.body.s[i]), n.body.s[i]);
        if n.body.s[i].Ref? {
          NormalFormKept(Spot(n.body.s[i].node, s.region));
        } else {
          ScalarKept(old(n.body.s[i]).v, n.body.s[i].v);
        }
      }
      ListKept(old(n.View()).items, n.View().items);
    }
  }

  datatype Regions = Regions(small: set<Node>, big: set<Node>)

  twostate lemma PartlyNormalizedWidens(r: Regions)
    requires PartlyNormalized(r.small) && forall o | o in r.big && o !in r.small :: unchanged(o)
    ensures PartlyNormalized(r.big)
  {
    forall o | o in r.big && o !in r.small ensures o.repr == old(o.repr) && PartBody(old(o.body), o.body) {
      PartSame(o.body);
    }
  }

  /** What is known of entry `a` of a map or slice once it was visited. */
  ghost predicate Visited(n: Node, a: Any)
    requires n.Valid()
    reads n, n.repr
  {
    n.Holds(a) && Canonical(n.ViewOf(a))
  }

  datatype Entry = Entry(n: Node, a: Any, region: set<Node>)

  /** A visited entry stays visited while other entries are normalized. */
  twostate lemma VisitedStays(e: Entry)
    requires old(e.n.Valid()) && old(Visited(e.n, e.a)) && old(e.n.repr) <= e.region
    requires PartlyNormalized(e.region) && e.n.Valid()
    ensures Visited(e.n, e.a)
  {
    if e.a.Ref? {
      NormalFormKept(Spot(e.a.node, e.region));
    }
  }

  /** The entry that replaces entry `a` of `n`: a normal form, or the object itself,
      normalized in place. */
  method NormalizeEntry(n: Node, a: Any) returns (b: Any)
    requires n.Valid() && n.Holds(a)
    modifies if a.Ref? then a.node.repr else {}
    ensures n.Valid() && PartlyNormalized(old(n.repr)) && n.repr == old(n.repr) && n.body == old(n.body)
    ensures PartEntry(a, b) && Visited(n, b)
    decreases n.repr, 0
  {
    if a.Scalar? {
      NormalizeIsCanonical(a.v);
      PartlyNormalizedWidens(Regions({}, n.repr));
      return Scalar(Normalize(a.v));
    }
    NormalizeStoreValue(a.node);
    PartlyNormalizedWidens(Regions(old(a.node.repr), old(n.repr)));
    NormalFormKept(Spot(n, old(n.repr)));
    b := a;
  }

  /** `normalizeStoreValue` on a map or slice: afterwards the same object stands for the
      normal form of what it stood for, and every object it reaches has kept its shape. */
  method NormalizeStoreValue(n: Node)
    requires n.Valid()
    modifies n.repr
    ensures n.Valid() && n.repr == old(n.repr) && PartlyNormalized(old(n.repr))
    ensures n.View() == Normalize(old(n.View())) && Canonical(n.View())
    decreases n.repr, 3
  {
    if n.body.MapBody? {
      NormalizeEntries(n);
    } else {
      NormalizeItems(n);
    }
    NormalFormKept(Spot(n, old(n.repr)));
    CanonicalIsFixed(n.View());
  }

  /** `val[k] = normalizeStoreValue(item)`. */
  method NormalizeAt(n: Node, k: string)
    requires n.Valid() && n.body.MapBody? && k in n.body.m
    modifies n.repr
    ensures n.Valid() && n.repr == old(n.repr) && PartlyNormalized(old(n.repr))
    ensures n.body.MapBody? && n.body.m.Keys == old(n.body.m.Keys)
    ensures Visited(n, n.body.m[k])
    ensures forall j | j in n.body.m && j != k && old(Visited(n, n.body.m[j])) :: Visited(n, n.body.m[j])
    decreases n.repr, 1
  {
    assert n.Holds(n.body.m[k]);
    var item := NormalizeEntry(n, n.body.m[k]);
    forall j | j in n.body.m && j != k && old(Visited(n, n.body.m[j])) ensures Visited(n, n.body.m[j]) {
      VisitedStays(Entry(n, n.body.m[j], old(n.repr)));
    }
    PutNormal(n, k, item);
  }

  method PutNormal(n: Node, k: string, item: Any)
    requires n.Valid() && n.body.MapBody? && k in n.body.m
    requires PartEntry(n.body.m[k], item) && Visited(n, item)
    modifies n`body
    ensures n.Valid() && n.body == MapBody(old(n.body.m)[k := item]) && PartBody(old(n.body), n.body)
    ensures Visited(n, item)
    ensures forall j | j in n.body.m && j != k && old(Visited(n, n.body.m[j])) :: Visited(n, n.body.m[j])
  {
    n.body := MapBody(n.body.m[k := item]);
  }

  method NormalizeEntries(n: Node)
    requires n.Valid() && n.body.MapBody?
    modifies n.repr
    ensures n.Valid() && n.repr == old(n.repr) && PartlyNormalized(old(n.repr))
    ensures Canonical(n.View())
    decreases n.repr, 2
  {
    var keys := n.body.m.Keys;
    while keys != {}
      invariant n.Valid() && n.repr == old(n.repr) && PartlyNormalized(old(n.repr))
      invariant n.body.MapBody? && keys <= n.body.m.Keys
      invariant forall j | j in n.body.m && j !in keys :: Visited(n, n.body.m[j])
      decreases keys
    {
      var k :| k in keys;
      label Before:
      NormalizeAt(n, k);
      forall o | o in old(n.repr) ensures PartBody(old(o.body), o.body) {
        PartTwice(old(o.body), old@Before(o.body), o.body);
      }
      keys := keys - {k};
    }
  }

  method NormalizeItems(n: Node)
    requires n.Valid() && n.body.ListBody?
    modifies n.repr
    ensures n.Valid() && n.repr == old(n.repr) && PartlyNormalized(old(n.repr))
    ensures Canonical(n.View())
    decreases n.repr, 2
  {
    PartlyNormalizedWidens(Regions({}, n.repr));
    for i := 0 to |n.body.s|
      invariant n.Valid() && n.repr == old(n.repr) && PartlyNormalized(old(n.repr))
      invariant n.body.ListBody? && |n.body.s| == |old(n.body.s)|
      invariant forall j | 0 <= j < i :: Visited(n, n.body.s[j])
    {
      label Before:
      NormalizeItem(n, i);
      forall o | o in old(n.repr) ensures PartBody(old(o.body), o.body) {
        PartTwice(old(o.body), old@Before(o.body), o.body);
      }
    }
  }

  /** `val[i] = normalizeStoreValue(item)`. */
  method NormalizeItem(n: Node, i: nat)
    requires n.Valid() && n.body.ListBody? && i < |n.body.s|
    modifies n.repr
    ensures n.Valid() && n.repr == old(n.repr) && PartlyNormalized(old(n.repr))
    ensures n.body.ListBody? && |n.body.s| == |old(n.body.s)|
    ensures Visited(n, n.body.s[i])
    ensures forall j | 0 <= j < |n.body.s| && j != i && old(Visited(n, n.body.s[j])) :: Visited(n, n.body.s[j])
    decreases n.repr, 1
  {
    assert n.Holds(n.body.s[i]);
    var item := NormalizeEntry(n, n.body.s[i]);
    forall j | 0 <= j < |n.body.s| && j != i && old(Visited(n, n.body.s[j])) ensures Visited(n, n.body.s[j]) {
      VisitedStays(Entry(n, n.body.s[j], old(n.repr)));
    }
    n.body := ListBody(n.body.s[i := item]);
  }
}
