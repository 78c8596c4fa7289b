/** The store document as Go holds it: maps and slices are heap objects that can be
    shared. Covers deepCopyValue, snapshotStoreDoc, the location edits and
    remotePersistence of go/config_persistence.go and go/store_layout.go. */
module StoreHeap {
  import opened GoValues
  import opened StoreLayout

  /** A dynamic value: a scalar, or a reference to a map or slice. */
  datatype Any = Scalar(v: Val) | Ref(node: Node)

  datatype Body = MapBody(m: map<string, Any>) | ListBody(s: seq<Any>)

  /** A Go `map[string]any` or `[]any`; `repr` is everything reachable from it. */
  class Node {
    var body: Body
    ghost var repr: set<Node>

    constructor (body: Body, ghost repr: set<Node>)
      ensures this.body == body && this.repr == repr + {this}
    {
      this.body := body;
      this.repr := repr + {this};
    }

    /** No cycles: no child reaches back to this object. */
    ghost predicate Valid()
      reads this, repr
      decreases repr, 1
    {
      && this in repr
      && match body
         case MapBody(m) => forall k | k in m :: Holds(m[k])
         case ListBody(s) => forall i | 0 <= i < |s| :: Holds(s[i])
    }

    ghost predicate Holds(a: Any)
      requires this in repr
      reads this, repr
      decreases repr, 0
    {
      match a
      case Scalar(v) => !v.List? && !v.Map?
      case Ref(n) => n in repr && n.repr <= repr && this !in n.repr && n.Valid()
    }

    /** The value this object stands for at the moment. */
    ghost function View(): Val
      requires Valid()
      reads this, repr
      decreases repr, 1
    {
      match body
      case MapBody(m) => Map(map k | k in m :: ViewOf(m[k]))
      case ListBody(s) =>
        List(seq(|s|, i requires 0 <= i < |s| reads this, repr requires this in repr && Holds(s[i]) => ViewOf(s[i])))
    }

    ghost function ViewOf(a: Any): Val
      requires this in repr && Holds(a)
      reads this, repr
      decreases repr, 0
    {
      match a
      case Scalar(v) => v
      case Ref(n) => n.View()
    }
  }

  ghost function ReprOf(a: Any): set<Node>
    reads if a.Ref? then {a.node} else {}
  {
    if a.Ref? then a.node.repr else {}
  }

  ghost predicate Sound(a: Any)
    reads if a.Ref? then {a.node} + a.node.repr else {}
  {
    match a
    case Scalar(v) => !v.List? && !v.Map?
    case Ref(n) => n.Valid()
  }

  ghost function ViewAny(a: Any): Val
    requires Sound(a)
    reads if a.Ref? then {a.node} + a.node.repr else {}
  {
    match a
    case Scalar(v) => v
    case Ref(n) => n.View()
  }

  /** `deepCopyValue`: an equal value that shares nothing with the original. */
  method DeepCopy(a: Any) returns (c: Any)
    requires Sound(a)
    ensures Sound(c) && ViewAny(c) == ViewAny(a)
    ensures fresh(ReprOf(c))
    ensures c.Ref? <==> a.Ref?
    ensures a.Ref? ==> c.node.body.MapBody? == a.node.body.MapBody?
    decreases ReprOf(a), 2
  {
    match a
    case Scalar(_) => c := a;
    case Ref(n) =>
      match n.body
      case MapBody(_) => c := CopyMap(n);
      case ListBody(_) => c := CopyList(n);
  }

  /** `c` is a sound value with the same content as the child `a` of `n`, kept within `within`. */
  ghost predicate Copied(n: Node, a: Any, c: Any, within: set<Node>)
    requires n.Valid() && n.Holds(a)
    reads n, n.repr, if c.Ref? then {c.node} + c.node.repr else {}
  {
    Sound(c) && ReprOf(c) <= within && ViewAny(c) == n.ViewOf(a)
  }

  method CopyMap(n: Node) returns (c: Any)
    requires n.Valid() && n.body.MapBody?
    ensures c.Ref? && c.node.body.MapBody?
    ensures Sound(c) && ViewAny(c) == n.View() && fresh(ReprOf(c))
    decreases n.repr, 1
  {
    var out, copies := CopyEntries(n);
    var node := NewCopy(n, out, copies);
    c := Ref(node);
  }

  /** A new map object with the entries `out`, which are equal to those of `n`. */
  method NewCopy(n: Node, out: map<string, Any>, ghost copies: set<Node>) returns (node: Node)
    requires n.Valid() && n.body.MapBody? && out.Keys == n.body.m.Keys && CopiedSoFar(n, out, copies)
    ensures fresh(node) && node.body == MapBody(out) && node.repr == copies + {node}
    ensures node.Valid() && node.View() == n.View()
  {
    node := new Node(MapBody(out), copies);
    CopiedMap(n, node, copies);
  }

  method CopyEntries(n: Node) returns (out: map<string, Any>, ghost copies: set<Node>)
    requires n.Valid() && n.body.MapBody?
    ensures fresh(copies) && out.Keys == n.body.m.Keys && CopiedSoFar(n, out, copies)
    decreases n.repr, 0
  {
    out, copies := map[], {};
    var keys := n.body.m.Keys;
    while keys != {}
      invariant keys <= n.body.m.Keys && out.Keys == n.body.m.Keys - keys
      invariant fresh(copies) && CopiedSoFar(n, out, copies)
      decreases keys
    {
      var k :| k in keys;
      keys := keys - {k};
      out, copies := CopyEntry(n, k, out, copies);
    }
  }

  method CopyEntry(n: Node, key: string, out: map<string, Any>, ghost copies: set<Node>)
    returns (out': map<string, Any>, ghost copies': set<Node>)
    requires n.Valid() && n.body.MapBody? && key in n.body.m
    requires CopiedSoFar(n, out, copies)
    ensures out'.Keys == out.Keys + {key} && CopiedSoFar(n, out', copies')
    ensures fresh(copies' - copies)
    decreases n.repr, -1
  {
    assert n.Holds(n.body.m[key]);
    var item := DeepCopy(n.body.m[key]);
    CopiedOneMore(n, out, copies, key, item);
    out' := out[key := item];
    copies' := copies + ReprOf(item);
  }

  ghost predicate CopiedSoFar(n: Node, out: map<string, Any>, copies: set<Node>)
    requires n.Valid() && n.body.MapBody?
    reads n, n.repr, copies, set k | k in out && out[k].Ref? :: out[k].node
  {
    forall k | k in out ::
      && k in n.body.m
      && ReprOf(out[k]) <= copies
      && (out[k].Ref? ==> out[k].node in copies)
      && Copied(n, n.body.m[k], out[k], copies)
  }

  lemma CopiedOneMore(n: Node, out: map<string, Any>, copies: set<Node>, key: string, item: Any)
    requires n.Valid() && n.body.MapBody? && key in n.body.m
    requires CopiedSoFar(n, out, copies)
    requires Sound(item) && ViewAny(item) == n.ViewOf(n.body.m[key])
    ensures CopiedSoFar(n, out[key := item], copies + ReprOf(item))
  {
  }

  lemma CopiedMap(n: Node, node: Node, copies: set<Node>)
    requires n.Valid() && n.body.MapBody? && node.body.MapBody?
    requires node !in copies && node.repr == copies + {node}
    requires node.body.m.Keys == n.body.m.Keys
    requires CopiedSoFar(n, node.body.m, copies)
    ensures node.Valid() && node.View() == n.View()
  {
    forall k | k in node.body.m ensures node.Holds(node.body.m[k]) && node.ViewOf(node.body.m[k]) == n.ViewOf(n.body.m[k]) {
      assert Copied(n, n.body.m[k], node.body.m[k], copies);
    }
  }

  method CopyList(n: Node) returns (c: Any)
    requires n.Valid() && n.body.ListBody?
    ensures c.Ref? && c.node.body.ListBody?
    ensures Sound(c) && ViewAny(c) == n.View() && fresh(ReprOf(c))
    decreases n.repr, 0
  {
    var out: seq<Any> := [];
    ghost var copies: set<Node> := {};
    for i := 0 to |n.body.s|
      invariant |out| == i && fresh(copies)
      invariant forall j | 0 <= j < i :: Copied(n, n.body.s[j], out[j], copies)
    {
      assert n.Holds(n.body.s[i]);
      var item := DeepCopy(n.body.s[i]);
      out := out + [item];
      copies := copies + ReprOf(item);
    }
    var node := new Node(ListBody(out), copies);
    CopiedList(n, node, copies);
    c := Ref(node);
  }

  lemma CopiedList(n: Node, node: Node, copies: set<Node>)
    requires n.Valid() && n.body.ListBody? && node.body.ListBody?
    requires node !in copies && node.repr == copies + {node}
    requires |node.body.s| == |n.body.s|
    requires forall i | 0 <= i < |n.body.s| :: Copied(n, n.body.s[i], node.body.s[i], copies)
    ensures node.Valid() && node.View() == n.View()
  {
    forall i | 0 <= i < |node.body.s| ensures node.Holds(node.body.s[i]) && node.ViewOf(node.body.s[i]) == n.ViewOf(n.body.s[i]) {
      assert Copied(n, n.body.s[i], node.body.s[i], copies);
    }
  }

  // ---- map assignment and delete ----

  /** `n[key] = a`. */
  method Put(n: Node, key: string, a: Any)
    requires n.Valid() && n.body.MapBody? && Sound(a) && n !in ReprOf(a)
    modifies n
    ensures n.Valid() && n.body == MapBody(old(n.body.m)[key := a])
    ensures n.View() == Map(old(n.View()).entries[key := old(ViewAny(a))])
    ensures n.repr == old(n.repr) + ReprOf(a)
  {
    n.body := MapBody(n.body.m[key := a]);
    n.repr := n.repr + ReprOf(a);
    forall k | k in n.body.m ensures n.Holds(n.body.m[k]) {
      assert k != key ==> old(n.Holds(n.body.m[k]));
    }
  }

  /** `delete(n, key)`. */
  method Delete(n: Node, key: string)
    requires n.Valid() && n.body.MapBody?
    modifies n
    ensures n.Valid() && n.body == MapBody(old(n.body.m) - {key})
    ensures n.View() == Map(old(n.View()).entries - {key})
    ensures n.repr == old(n.repr)
  {
    n.body := MapBody(n.body.m - {key});
    forall k | k in n.body.m ensures n.Holds(n.body.m[k]) {
      assert old(n.Holds(n.body.m[k]));
    }
  }

  // ---- the document: containers are edited in place, value maps never ----

  /** The object Go's `doc[key].(map[string]any)` yields, as a set of at most one. */
  ghost function ChildMap(doc: Node, key: string): set<Node>
    reads doc, doc.repr
  {
    if doc.body.MapBody? && key in doc.body.m && doc.body.m[key].Ref? && doc.body.m[key].node in doc.repr
       && doc.body.m[key].node.body.MapBody?
    then {doc.body.m[key].node} else {}
  }

  /** The objects a save writes to. */
  ghost function Containers(doc: Node): set<Node>
    reads doc, doc.repr
  {
    {doc} + ChildMap(doc, "cameras") + ChildMap(doc, "sensors")
  }

  ghost function OtherContainers(doc: Node, key: string): set<Node>
    reads doc, doc.repr
  {
    (if key == "cameras" then {} else ChildMap(doc, "cameras")) + (if key == "sensors" then {} else ChildMap(doc, "sensors"))
  }

  predicate IsContainerKey(key: string) {
    key == "cameras" || key == "sensors"
  }

  /** No other section reaches into the section `key`. */
  ghost predicate Apart(doc: Node, key: string)
    requires doc.Valid() && doc.body.MapBody?
    reads doc, doc.repr
  {
    key in doc.body.m && doc.Holds(doc.body.m[key]) ==>
      forall k | k in doc.body.m && k != key :: doc.Holds(doc.body.m[k]) && ReprOf(doc.body.m[k]) !! ReprOf(doc.body.m[key])
  }

  /** A document is a map whose two containers are reached through their key only. */
  ghost predicate IsDocument(doc: Node)
    reads doc, doc.repr
  {
    doc.Valid() && doc.body.MapBody? && Apart(doc, "cameras") && Apart(doc, "sensors")
  }

  ghost function Content(doc: Node): Values
    requires IsDocument(doc)
    reads doc, doc.repr
  {
    doc.View().entries
  }

  ghost function Section(doc: Node, key: string): set<Node>
    requires IsDocument(doc)
    reads doc, doc.repr
  {
    if key in doc.body.m && doc.Holds(doc.body.m[key]) then ReprOf(doc.body.m[key]) else {}
  }

  /** Of the objects in `region` only those in `touched` have changed since the old state. */
  twostate predicate OnlyTouched(region: set<Node>, touched: set<Node>)
    reads region
  {
    forall o | o in region && o !in touched :: unchanged(o)
  }

  /** An edit of `doc` within the section `key`, writing to `touched` only. */
  datatype Edit = Edit(doc: Node, key: string, touched: set<Node>)

  /** An edit within one section, read back as a value. */
  twostate lemma OneSectionChanged(e: Edit)
    requires old(IsDocument(e.doc)) && old(e.doc.repr) <= e.doc.repr && e.doc.body.MapBody?
    requires e.doc.body.m - {e.key} == old(e.doc.body.m) - {e.key}
    requires OnlyTouched(old(e.doc.repr), e.touched)
    requires forall k | k in old(e.doc.body.m) && k != e.key :: old(Section(e.doc, k)) !! e.touched
    requires e.key in e.doc.body.m ==>
      && Sound(e.doc.body.m[e.key]) && ReprOf(e.doc.body.m[e.key]) <= e.doc.repr - {e.doc}
      && forall k | k in old(e.doc.body.m) && k != e.key :: ReprOf(e.doc.body.m[e.key]) !! old(Section(e.doc, k))
    ensures IsDocument(e.doc)
    ensures Content(e.doc).Keys == e.doc.body.m.Keys && old(Content(e.doc)).Keys == old(e.doc.body.m.Keys)
    ensures forall k | k in e.doc.body.m && k != e.key ::
              k in old(e.doc.body.m) && Content(e.doc)[k] == old(Content(e.doc))[k]
    ensures e.key in e.doc.body.m ==> Content(e.doc)[e.key] == ViewAny(e.doc.body.m[e.key])
    ensures OtherContainers(e.doc, e.key) == old(OtherContainers(e.doc, e.key))
  {
    var doc, key := e.doc, e.key;
    forall k | k in doc.body.m && k != key
      ensures k in old(doc.body.m)
      ensures doc.Holds(doc.body.m[k])
      ensures ReprOf(doc.body.m[k]) == old(Section(doc, k))
      ensures doc.ViewOf(doc.body.m[k]) == old(Content(doc))[k]
      ensures ChildMap(doc, k) == old(ChildMap(doc, k))
    {
      assert k in doc.body.m - {key};
      assert doc.body.m[k] == (doc.body.m - {key})[k];
      var a := doc.body.m[k];
      assert old(doc.Holds(a));
      assert old(Content(doc))[k] == old(doc.ViewOf(a));
      if a.Ref? {
        assert old(a.node.Valid()) && a.node in old(Section(doc, k));
        assert unchanged(old(Section(doc, k)));
      }
    }
    forall k | k != key && k !in doc.body.m ensures k !in old(doc.body.m) {
      assert k !in doc.body.m - {key};
    }
    if key in doc.body.m {
      assert doc.Holds(doc.body.m[key]);
      assert doc.ViewOf(doc.body.m[key]) == ViewAny(doc.body.m[key]);
    }
  }

  lemma SameButFor(before: Values, after: Values, m: map<string, Any>, key: string)
    requires m.Keys == after.Keys && after.Keys - {key} == before.Keys - {key}
    requires forall k | k in after && k != key :: k in before && after[k] == before[k]
    ensures after == if key in m then before[key := after[key]] else before - {key}
  {
    forall k | k in before && k != key ensures k in after && after[k] == before[k] {
      assert k in before.Keys - {key};
    }
    assert key in m ==> after == before[key := after[key]];
    assert key !in m ==> after == before - {key};
  }

  /** `doc[key] = a` for a value that shares nothing with the document. */
  method PutSection(doc: Node, key: string, a: Any)
    requires IsDocument(doc) && Sound(a) && ReprOf(a) !! doc.repr
    modifies doc
    ensures IsDocument(doc) && doc.body == MapBody(old(doc.body.m)[key := a])
    ensures doc.repr == old(doc.repr) + ReprOf(a)
    ensures Content(doc) == old(Content(doc))[key := old(ViewAny(a))]
    ensures OtherContainers(doc, key) == old(OtherContainers(doc, key))
  {
    doc.body := MapBody(doc.body.m[key := a]);
    doc.repr := doc.repr + ReprOf(a);
    OneSectionChanged(Edit(doc, key, {doc}));
    SameButFor(old(Content(doc)), Content(doc), doc.body.m, key);
  }

  /** `delete(doc, key)`. */
  method DeleteSection(doc: Node, key: string)
    requires IsDocument(doc)
    modifies doc
    ensures IsDocument(doc) && doc.body == MapBody(old(doc.body.m) - {key})
    ensures doc.repr == old(doc.repr)
    ensures Content(doc) == old(Content(doc)) - {key}
    ensures OtherContainers(doc, key) == old(OtherContainers(doc, key))
  {
    doc.body := MapBody(doc.body.m - {key});
    OneSectionChanged(Edit(doc, key, {doc}));
    SameButFor(old(Content(doc)), Content(doc), doc.body.m, key);
  }

  /** An edit of the container object of the section `key`, which now reads as `entries`. */
  datatype ContainerEdit = ContainerEdit(doc: Node, key: string, container: Node, entries: Values)

  twostate lemma ContainerChanged(e: ContainerEdit)
    requires IsContainerKey(e.key)
    requires old(IsDocument(e.doc)) && old(ChildMap(e.doc, e.key)) == {e.container}
    requires e.doc.body == old(e.doc.body) && old(e.doc.repr) <= e.doc.repr
    requires e.container.Valid() && e.container.body.MapBody? && e.container.View() == Map(e.entries)
    requires e.container.repr <= e.doc.repr && e.doc !in e.container.repr
    requires (e.container.repr - old(e.container.repr)) !! old(e.doc.repr)
    requires OnlyTouched(old(e.doc.repr), {e.doc, e.container})
    ensures IsDocument(e.doc) && ChildMap(e.doc, e.key) == {e.container}
    ensures Content(e.doc) == old(Content(e.doc))[e.key := Map(e.entries)]
    ensures OtherContainers(e.doc, e.key) == old(OtherContainers(e.doc, e.key))
  {
    OneSectionChanged(Edit(e.doc, e.key, {e.doc, e.container}));
    SameButFor(old(Content(e.doc)), Content(e.doc), e.doc.body.m, e.key);
  }

  /** The container of a section reads as the section. */
  lemma ContainerReads(doc: Node, key: string, container: Node)
    requires IsDocument(doc) && ChildMap(doc, key) == {container}
    ensures container.Valid() && container.body.MapBody? && doc !in container.repr && container.repr <= doc.repr
    ensures key in Content(doc) && Content(doc)[key] == container.View()
  {
    assert doc.Holds(doc.body.m[key]);
    assert doc.body.m[key].node in ChildMap(doc, key);
    assert Content(doc)[key] == doc.ViewOf(doc.body.m[key]);
  }

  /** `container[id] = a` for the container of a section. */
  method PutInContainer(doc: Node, key: string, container: Node, id: string, a: Any)
    requires IsContainerKey(key)
    requires IsDocument(doc) && ChildMap(doc, key) == {container}
    requires Sound(a) && ReprOf(a) !! doc.repr
    modifies doc`repr, container
    ensures IsDocument(doc) && doc.body == old(doc.body) && container.body.MapBody?
    ensures doc.repr == old(doc.repr) + ReprOf(a)
    ensures AsMap(Get(old(Content(doc)), key)).Some?
    ensures Content(doc) == old(Content(doc))[key := Map(old(Content(doc))[key].entries[id := old(ViewAny(a))])]
    ensures OtherContainers(doc, key) == old(OtherContainers(doc, key)) && ChildMap(doc, key) == {container}
  {
    ContainerReads(doc, key, container);
    ghost var entries := container.View().entries[id := ViewAny(a)];
    Put(container, id, a);
    doc.repr := doc.repr + ReprOf(a);
    ContainerChanged(ContainerEdit(doc, key, container, entries));
  }

  method NewEmptyMap() returns (n: Node)
    ensures n.Valid() && fresh(n) && n.repr == {n} && n.body == MapBody(map[]) && n.View() == Map(map[])
  {
    n := new Node(MapBody(map[]), {});
  }

  /** `ensureChildMap`. */
  method EnsureChildMap(doc: Node, key: string) returns (child: Node)
    requires IsDocument(doc)
    modifies doc
    ensures IsDocument(doc) && ChildMap(doc, key) == {child}
    ensures child in old(ChildMap(doc, key)) || fresh(child)
    ensures doc.repr == old(doc.repr) || (fresh(child) && doc.repr == old(doc.repr) + {child})
    ensures Content(doc) == old(Content(doc))[key := Map(ChildOrEmpty(old(Content(doc)), key))]
    ensures OtherContainers(doc, key) == old(OtherContainers(doc, key))
  {
    EntryKind(doc, key);
    if key in doc.body.m && doc.body.m[key].Ref? && doc.body.m[key].node.body.MapBody? {
      PutSame(Content(doc), key);
      return doc.body.m[key].node;
    }
    child := NewEmptyMap();
    PutSection(doc, key, Ref(child));
  }

  /** Go's type assertion on an entry sees what the entry's value is. */
  lemma EntryKind(n: Node, key: string)
    requires n.Valid() && n.body.MapBody?
    ensures n.View().entries.Keys == n.body.m.Keys
    ensures key in n.body.m ==> n.Holds(n.body.m[key]) && n.View().entries[key] == n.ViewOf(n.body.m[key])
    ensures AsMap(Get(n.View().entries, key)).Some? <==>
            key in n.body.m && n.body.m[key].Ref? && n.body.m[key].node.body.MapBody?
  {
    if key in n.body.m {
      assert n.Holds(n.body.m[key]);
    }
  }

  lemma PutSame(m: Values, key: string)
    requires key in m
    ensures m[key := m[key]] == m
  {
  }

  lemma PutThenDelete(m: Values, key: string, x: Val)
    ensures m[key := x] - {key} == m - {key}
  {
  }

  lemma PutTwice(m: Values, key: string, x: Val, y: Val)
    ensures m[key := x][key := y] == m[key := y]
    ensures m[key := x][key] == x
  {
  }

  /** `ensureChildMap(doc, key)[id] = values`. */
  method WriteInSection(doc: Node, key: string, id: string, values: Node)
    requires IsContainerKey(key)
    requires IsDocument(doc) && values.Valid() && values.repr !! doc.repr
    modifies Containers(doc)
    ensures IsDocument(doc)
    ensures Content(doc) == old(Content(doc))[key := Map(ChildOrEmpty(old(Content(doc)), key)[id := old(values.View())])]
    ensures fresh(doc.repr - old(doc.repr) - values.repr)
    ensures fresh(Containers(doc) - old(Containers(doc)))
  {
    ghost var before, child, v := Content(doc), ChildOrEmpty(Content(doc), key), values.View();
    var container := EnsureChildMap(doc, key);
    PutTwice(before, key, Map(child), Map(child[id := v]));
    PutInContainer(doc, key, container, id, Ref(values));
  }

  /** `writeLocation`, for a value map that shares nothing with the document. */
  method WriteLocation(doc: Node, loc: Location, values: Node)
    requires IsDocument(doc) && values.Valid() && values.body.MapBody? && values.repr !! doc.repr
    modifies Containers(doc)
    ensures IsDocument(doc)
    ensures Content(doc) == StoreLayout.WriteLocation(old(Content(doc)), loc, old(values.View()).entries)
    ensures fresh(doc.repr - old(doc.repr) - values.repr)
    ensures fresh(Containers(doc) - old(Containers(doc)))
  {
    match loc
    case Plugin =>
      assert "plugin"[0] != "cameras"[0] && "plugin"[0] != "sensors"[0];
      PutSection(doc, "plugin", Ref(values));
    case _ =>
      WriteInSection(doc, ContainerKey(loc), loc.id, values);
  }

  /** `delete(container, id)` for the container of a section. */
  method DeleteInContainer(doc: Node, key: string, container: Node, id: string)
    requires IsContainerKey(key)
    requires IsDocument(doc) && ChildMap(doc, key) == {container}
    modifies container
    ensures IsDocument(doc) && ChildMap(doc, key) == {container}
    ensures doc.repr == old(doc.repr)
    ensures AsMap(Get(old(Content(doc)), key)).Some?
    ensures Content(doc) == old(Content(doc))[key := Map(old(Content(doc))[key].entries - {id})]
    ensures OtherContainers(doc, key) == old(OtherContainers(doc, key)) && ChildMap(doc, key) == {container}
  {
    ContainerReads(doc, key, container);
    ghost var entries := container.View().entries - {id};
    Delete(container, id);
    ContainerChanged(ContainerEdit(doc, key, container, entries));
  }

  /** `pruneIfEmpty`. */
  method PruneIfEmpty(doc: Node, key: string)
    requires IsDocument(doc)
    modifies doc
    ensures IsDocument(doc) && doc.repr == old(doc.repr)
    ensures Content(doc) == if Get(old(Content(doc)), key) == Map(map[]) then old(Content(doc)) - {key} else old(Content(doc))
    ensures OtherContainers(doc, key) == old(OtherContainers(doc, key)) && ChildMap(doc, key) <= old(ChildMap(doc, key))
  {
    EntryKind(doc, key);
    if key in doc.body.m && doc.body.m[key].Ref? && doc.body.m[key].node.body.MapBody? {
      var child := doc.body.m[key].node;
      EntryKind(child, "");
      if |child.body.m| == 0 {
        assert child.View() == Map(map[]);
        DeleteSection(doc, key);
      } else {
        assert child.View().entries.Keys != {};
      }
    }
  }

  /** The part of `deleteLocation` for a camera or sensor. */
  method DeleteInSection(doc: Node, key: string, id: string)
    requires IsContainerKey(key) && IsDocument(doc)
    modifies Containers(doc)
    ensures IsDocument(doc) && doc.repr == old(doc.repr)
    ensures AsMap(Get(old(Content(doc)), key)).None? ==> Content(doc) == old(Content(doc))
    ensures AsMap(Get(old(Content(doc)), key)).Some? ==>
              var rest := old(Content(doc))[key].entries - {id};
              Content(doc) == if rest == map[] then old(Content(doc)) - {key} else old(Content(doc))[key := Map(rest)]
    ensures Containers(doc) <= old(Containers(doc))
  {
    EntryKind(doc, key);
    if key in doc.body.m && doc.body.m[key].Ref? && doc.body.m[key].node.body.MapBody? {
      var container := doc.body.m[key].node;
      DeleteInContainer(doc, key, container, id);
      PutThenDelete(old(Content(doc)), key, Content(doc)[key]);
      PruneIfEmpty(doc, key);
    }
  }

  /** `deleteLocation`. */
  method DeleteLocation(doc: Node, loc: Location)
    requires IsDocument(doc)
    modifies Containers(doc)
    ensures IsDocument(doc) && doc.repr == old(doc.repr)
    ensures Content(doc) == StoreLayout.DeleteLocation(old(Content(doc)), loc)
    ensures Containers(doc) <= old(Containers(doc))
  {
    match loc
    case Plugin =>
      assert "plugin"[0] != "cameras"[0] && "plugin"[0] != "sensors"[0];
      DeleteSection(doc, "plugin");
    case _ =>
      DeleteInSection(doc, ContainerKey(loc), loc.id);
  }

  method CopyValues(values: Node) returns (copied: Node)
    requires values.Valid() && values.body.MapBody?
    ensures copied.Valid() && copied.body.MapBody? && fresh(copied.repr)
    ensures copied.View() == values.View()
  {
    var c := DeepCopy(Ref(values));
    copied := c.node;
  }

  /** `writeLocation` with a copy of the caller's values. */
  method WriteCopy(doc: Node, loc: Location, values: Node)
    requires IsDocument(doc) && values.Valid() && values.body.MapBody?
    modifies Containers(doc)
    ensures IsDocument(doc)
    ensures Content(doc) == StoreLayout.WriteLocation(old(Content(doc)), loc, old(values.View()).entries)
    ensures fresh(doc.repr - old(doc.repr))
    ensures fresh(Containers(doc) - old(Containers(doc)))
  {
    var copied := CopyValues(values);
    ghost var m, before := copied.View().entries, Content(doc);
    WriteLocation(doc, loc, copied);
    assert Content(doc) == StoreLayout.WriteLocation(before, loc, m);
  }

  /** The edit every `save` makes under the lock: what goes in is a copy. */
  method EditDocument(doc: Node, loc: Location, values: Node)
    requires IsDocument(doc) && values.Valid() && values.body.MapBody?
    modifies Containers(doc)
    ensures IsDocument(doc)
    ensures Content(doc) == StoreLayout.Save(old(Content(doc)), loc, old(values.View()).entries)
    ensures fresh(doc.repr - old(doc.repr))
    ensures fresh(Containers(doc) - old(Containers(doc)))
  {
    EntryKind(values, "");
    if |values.body.m| == 0 {
      assert values.View().entries == map[];
      DeleteLocation(doc, loc);
    } else {
      assert values.View().entries.Keys != {};
      WriteCopy(doc, loc, values);
    }
  }

  /** `readLocation`: the object stored at a location, or null. */
  method ReadLocationNode(doc: Node, loc: Location) returns (values: Node?)
    requires IsDocument(doc)
    ensures values == null <==> ReadLocation(Content(doc), loc).None?
    ensures values != null ==> values.Valid() && values.body.MapBody? && values in doc.repr
    ensures values != null ==> values.View() == Map(ReadLocation(Content(doc), loc).value)
  {
    var key := ContainerKey(loc);
    EntryKind(doc, key);
    if key !in doc.body.m || !doc.body.m[key].Ref? || !doc.body.m[key].node.body.MapBody? {
      return null;
    }
    var top := doc.body.m[key].node;
    match loc
    case Plugin => return top;
    case _ =>
      EntryKind(top, loc.id);
      if loc.id !in top.body.m || !top.body.m[loc.id].Ref? || !top.body.m[loc.id].node.body.MapBody? {
        return null;
      }
      return top.body.m[loc.id].node;
  }

  /** `load`: a copy, so the caller never reaches into the document. */
  method LoadCopy(doc: Node, loc: Location) returns (copied: Node?)
    requires IsDocument(doc)
    ensures copied == null <==> ReadLocation(Content(doc), loc).None?
    ensures copied != null ==> copied.Valid() && copied.body.MapBody? && fresh(copied.repr)
    ensures copied != null ==> copied.View() == Map(ReadLocation(Content(doc), loc).value)
  {
    var values := ReadLocationNode(doc, loc);
    if values == null {
      return null;
    }
    copied := CopyValues(values);
  }

  // ---- snapshots of the remote store ----

  /** What `x` became where `depth` map levels are cloned: a clone if it is a map, else
      itself. `made` are the new objects. */
  ghost predicate EntryCloned(x: Any, y: Any, depth: nat, made: set<Node>)
    requires Sound(x) && Sound(y)
    reads if x.Ref? then {x.node} + x.node.repr else {}, if y.Ref? then {y.node} + y.node.repr else {}
    decreases depth, 0
  {
    if depth > 0 && x.Ref? && x.node.body.MapBody?
    then y.Ref? && y.node.body.MapBody? && ClonedTo(x.node, y.node, depth - 1, made)
    else y == x
  }

  /** `c` is a new map, and so are the maps it holds for `depth` levels; all the rest is shared. */
  ghost predicate ClonedTo(n: Node, c: Node, depth: nat, made: set<Node>)
    requires n.Valid() && n.body.MapBody? && c.Valid() && c.body.MapBody?
    reads n, n.repr, c, c.repr
    decreases depth, 1
  {
    && c in made && c.body.m.Keys == n.body.m.Keys
    && forall k | k in n.body.m ::
         n.Holds(n.body.m[k]) && c.Holds(c.body.m[k]) && EntryCloned(n.body.m[k], c.body.m[k], depth, made)
  }

  /** `a` is what the entry `key` of `n` became in the clone. */
  ghost predicate CloneOf(n: Node, key: string, a: Any, depth: nat, made: set<Node>)
    requires n.Valid() && n.body.MapBody? && key in n.body.m
    reads n, n.repr, made
  {
    && n.Holds(n.body.m[key])
    && (a.Ref? ==> a.node in n.repr - {n} + made) && ReprOf(a) <= n.repr - {n} + made
    && Sound(a) && ViewAny(a) == n.ViewOf(n.body.m[key])
    && EntryCloned(n.body.m[key], a, depth, made)
  }

  /** The entries of a clone with `left` still shared. */
  ghost predicate Cloning(n: Node, out: map<string, Any>, left: set<string>, depth: nat, made: set<Node>)
    requires n.Valid() && n.body.MapBody?
    reads n, n.repr, made
  {
    out.Keys == n.body.m.Keys && forall k | k in out :: CloneOf(n, k, out[k], if k in left then 0 else depth, made)
  }

  lemma {:induction false} EntryClonedMonotone(x: Any, y: Any, depth: nat, small: set<Node>, big: set<Node>)
    requires Sound(x) && Sound(y) && small <= big && EntryCloned(x, y, depth, small)
    ensures EntryCloned(x, y, depth, big)
    decreases depth
  {
    if depth > 0 && x.Ref? && x.node.body.MapBody? {
      forall k | k in x.node.body.m
        ensures EntryCloned(x.node.body.m[k], y.node.body.m[k], depth - 1, big)
      {
        EntryClonedMonotone(x.node.body.m[k], y.node.body.m[k], depth - 1, small, big);
      }
    }
  }

  lemma ClonedOneMore(n: Node, out: map<string, Any>, left: set<string>, depth: nat, made: set<Node>,
                      key: string, item: Any, made': set<Node>)
    requires n.Valid() && n.body.MapBody? && key in n.body.m
    requires Cloning(n, out, left, depth, made) && made <= made' && CloneOf(n, key, item, depth, made')
    ensures Cloning(n, out[key := item], left - {key}, depth, made')
  {
    forall k | k in out && k != key ensures CloneOf(n, k, out[k], if k in left then 0 else depth, made') {
      assert CloneOf(n, k, out[k], if k in left then 0 else depth, made);
      EntryClonedMonotone(n.body.m[k], out[k], if k in left then 0 else depth, made, made');
    }
  }

  lemma NothingCloned(n: Node, depth: nat)
    requires n.Valid() && n.body.MapBody?
    ensures Cloning(n, n.body.m, n.body.m.Keys, depth, {})
    ensures depth == 0 ==> Cloning(n, n.body.m, {}, depth, {})
  {
    SharesAll(n);
    forall k | k in n.body.m ensures CloneOf(n, k, n.body.m[k], 0, {}) {
      assert Copied(n, n.body.m[k], n.body.m[k], n.repr - {n});
    }
  }

  lemma ClonedIsCopied(n: Node, out: map<string, Any>, depth: nat, made: set<Node>)
    requires n.Valid() && n.body.MapBody? && Cloning(n, out, {}, depth, made)
    ensures CopiedSoFar(n, out, n.repr - {n} + made)
  {
    forall k | k in out
      ensures ReprOf(out[k]) <= n.repr - {n} + made && (out[k].Ref? ==> out[k].node in n.repr - {n} + made)
      ensures Copied(n, n.body.m[k], out[k], n.repr - {n} + made)
    {
      assert CloneOf(n, k, out[k], depth, made);
    }
  }

  lemma AllCloned(n: Node, c: Node, depth: nat, made: set<Node>)
    requires n.Valid() && n.body.MapBody? && c.Valid() && c.body.MapBody?
    requires Cloning(n, c.body.m, {}, depth, made)
    ensures ClonedTo(n, c, depth, made + {c})
  {
    forall k | k in n.body.m
      ensures n.Holds(n.body.m[k]) && c.Holds(c.body.m[k]) && EntryCloned(n.body.m[k], c.body.m[k], depth, made + {c})
    {
      assert CloneOf(n, k, c.body.m[k], depth, made);
      EntryClonedMonotone(n.body.m[k], c.body.m[k], depth, made, made + {c});
    }
  }

  /** Clones a map and, `depth` levels down, the maps it holds; everything below is
      shared. `maps.Clone` is depth 0, the `sensors` loops of snapshotStoreDoc are
      depth 2. */
  method CloneLevels(n: Node, depth: nat) returns (c: Node, ghost made: set<Node>)
    requires n.Valid() && n.body.MapBody?
    ensures c.Valid() && c.body.MapBody? && c.View() == n.View() && ClonedTo(n, c, depth, made)
    ensures fresh(made) && c in made && c.repr <= n.repr - {n} + made
    decreases depth, 1
  {
    var out;
    out, made := CloneEntries(n, depth);
    ClonedIsCopied(n, out, depth, made);
    c := NewCopy(n, out, n.repr - {n} + made);
    AllCloned(n, c, depth, made);
    made := made + {c};
  }

  method CloneEntries(n: Node, depth: nat) returns (out: map<string, Any>, ghost made: set<Node>)
    requires n.Valid() && n.body.MapBody?
    ensures fresh(made) && Cloning(n, out, {}, depth, made)
    decreases depth, 0
  {
    out, made := n.body.m, {};
    NothingCloned(n, depth);
    if depth > 0 {
      out, made := CloneEach(n, depth - 1);
    }
  }

  method CloneEach(n: Node, depth: nat) returns (out: map<string, Any>, ghost made: set<Node>)
    requires n.Valid() && n.body.MapBody?
    ensures fresh(made) && Cloning(n, out, {}, depth + 1, made)
    decreases depth, 4
  {
    out, made := n.body.m, {};
    NothingCloned(n, depth + 1);
    var keys := out.Keys;
    while keys != {}
      invariant keys <= n.body.m.Keys
      invariant fresh(made) && Cloning(n, out, keys, depth + 1, made)
      decreases keys
    {
      var k :| k in keys;
      out, made := CloneInto(n, k, depth, out, keys, made);
      keys := keys - {k};
    }
  }

  method CloneInto(n: Node, key: string, depth: nat, out: map<string, Any>, ghost left: set<string>, ghost made: set<Node>)
    returns (out': map<string, Any>, ghost made': set<Node>)
    requires n.Valid() && n.body.MapBody? && key in n.body.m && key in left
    requires Cloning(n, out, left, depth + 1, made)
    ensures Cloning(n, out', left - {key}, depth + 1, made')
    ensures fresh(made' - made)
    decreases depth, 3
  {
    var item, freshNodes := CloneEntry(n, key, depth);
    out' := out[key := item];
    made' := made + freshNodes;
    EntryClonedMonotone(n.body.m[key], item, depth + 1, freshNodes, made');
    ClonedOneMore(n, out, left, depth + 1, made, key, item, made');
  }

  /** One entry of a cloned map: a clone if it is a map, else the entry itself. */
  method CloneEntry(n: Node, key: string, depth: nat) returns (item: Any, ghost made: set<Node>)
    requires n.Valid() && n.body.MapBody? && key in n.body.m
    ensures n.Holds(n.body.m[key]) && Sound(item) && ViewAny(item) == n.ViewOf(n.body.m[key])
    ensures EntryCloned(n.body.m[key], item, depth + 1, made)
    ensures fresh(made) && ReprOf(item) <= ReprOf(n.body.m[key]) + made && n !in ReprOf(item)
    ensures n.body.m[key].Ref? && n.body.m[key].node.body.MapBody? ==> n.body.m[key].node !in ReprOf(item)
    ensures !(n.body.m[key].Ref? && n.body.m[key].node.body.MapBody?) ==> item == n.body.m[key]
    decreases depth, 2
  {
    EntryKind(n, key);
    item, made := n.body.m[key], {};
    if item.Ref? && item.node.body.MapBody? {
      var clone;
      clone, made := CloneLevels(item.node, depth);
      item := Ref(clone);
    }
  }

  lemma SharesAll(n: Node)
    requires n.Valid() && n.body.MapBody?
    ensures CopiedSoFar(n, n.body.m, n.repr - {n})
  {
    forall k | k in n.body.m
      ensures ReprOf(n.body.m[k]) <= n.repr - {n}
      ensures n.body.m[k].Ref? ==> n.body.m[k].node in n.repr - {n}
      ensures Copied(n, n.body.m[k], n.body.m[k], n.repr - {n})
    {
      assert n.Holds(n.body.m[k]);
    }
  }

  /** A section that is no container reaches none of the objects a save writes to. */
  lemma SectionIsShared(doc: Node, key: string)
    requires IsDocument(doc) && key in doc.body.m
    requires IsContainerKey(key) ==> ChildMap(doc, key) == {}
    ensures doc.Holds(doc.body.m[key]) && Sound(doc.body.m[key])
    ensures ViewAny(doc.body.m[key]) == doc.ViewOf(doc.body.m[key])
    ensures ReprOf(doc.body.m[key]) <= doc.repr && ReprOf(doc.body.m[key]) !! Containers(doc)
  {
    assert doc.Holds(doc.body.m[key]);
    ContainerInItsSection(doc, "cameras");
    ContainerInItsSection(doc, "sensors");
  }

  lemma ContainerInItsSection(doc: Node, key: string)
    requires IsDocument(doc) && IsContainerKey(key)
    ensures ChildMap(doc, key) <= Section(doc, key)
  {
    if key in doc.body.m {
      assert doc.Holds(doc.body.m[key]);
      assert Sound(doc.body.m[key]);
    }
  }

  /** The entry of the snapshot for a container key. */
  method CloneSection(doc: Node, key: string, depth: nat) returns (a: Any, ghost made: set<Node>)
    requires IsDocument(doc) && IsContainerKey(key) && key in doc.body.m
    ensures SectionCopy(doc, key, a) && EntryCloned(doc.body.m[key], a, depth + 1, made)
    ensures fresh(made) && ReprOf(a) <= doc.repr + made
  {
    ContainerInItsSection(doc, "cameras");
    ContainerInItsSection(doc, "sensors");
    EntryKind(doc, key);
    a, made := CloneEntry(doc, key, depth);
    if !(doc.body.m[key].Ref? && doc.body.m[key].node.body.MapBody?) {
      SectionIsShared(doc, key);
    }
  }

  /** `a` equals the section `key` and reaches none of the objects a save writes to. */
  ghost predicate SectionCopy(doc: Node, key: string, a: Any)
    requires IsDocument(doc) && key in doc.body.m
    reads doc, doc.repr, if a.Ref? then {a.node} + a.node.repr else {}
  {
    doc.Holds(doc.body.m[key]) && Sound(a) && ViewAny(a) == doc.ViewOf(doc.body.m[key]) && ReprOf(a) !! Containers(doc)
  }

  /** `out` is a clone of the document's map in which the containers `done` are cloned too. */
  ghost predicate PartOfSnapshot(doc: Node, out: map<string, Any>, made: set<Node>, done: set<string>)
    requires IsDocument(doc)
    reads doc, doc.repr, made
  {
    && out.Keys == doc.body.m.Keys
    && (forall k | k in out && k !in done :: out[k] == doc.body.m[k])
    && (forall k | k in out && k in done :: ClonedSection(doc, k, out[k], made))
  }

  ghost predicate ClonedSection(doc: Node, key: string, a: Any, made: set<Node>)
    requires IsDocument(doc) && key in doc.body.m
    reads doc, doc.repr, made
  {
    && (a.Ref? ==> a.node in doc.repr + made) && ReprOf(a) <= doc.repr + made && SectionCopy(doc, key, a)
    && EntryCloned(doc.body.m[key], a, LevelsOf(key), made)
  }

  /** How many levels of a section a snapshot clones. */
  function LevelsOf(key: string): nat {
    if key == "sensors" then 3 else 1
  }

  method CloneContainer(doc: Node, key: string, depth: nat, out: map<string, Any>, ghost made: set<Node>, ghost done: set<string>)
    returns (out': map<string, Any>, ghost made': set<Node>)
    requires IsDocument(doc) && IsContainerKey(key) && PartOfSnapshot(doc, out, made, done)
    requires depth + 1 == LevelsOf(key)
    ensures PartOfSnapshot(doc, out', made', done + {key})
    ensures fresh(made' - made) && made <= made'
  {
    out', made' := out, made;
    if key in out {
      var a, extra := CloneSection(doc, key, depth);
      EntryClonedMonotone(doc.body.m[key], a, depth + 1, extra, made + extra);
      ExtendSnapshot(doc, out, made, done, key, a, made + extra);
      out' := out[key := a];
      made' := made + extra;
    }
  }

  lemma ExtendSnapshot(doc: Node, out: map<string, Any>, made: set<Node>, done: set<string>, key: string, a: Any, made': set<Node>)
    requires IsDocument(doc) && key in out && PartOfSnapshot(doc, out, made, done)
    requires made <= made' && ClonedSection(doc, key, a, made')
    ensures PartOfSnapshot(doc, out[key := a], made', done + {key})
  {
    forall k | k in out && k in done ensures ClonedSection(doc, k, out[k], made') {
      assert ClonedSection(doc, k, out[k], made);
      EntryClonedMonotone(doc.body.m[k], out[k], LevelsOf(k), made, made');
    }
  }

  /** `snapshotStoreDoc`: an equal document that shares no container with `doc`. Its two
      containers are new as many levels down as the code clones, and all the rest is shared. */
  method SnapshotStoreDoc(doc: Node) returns (snapshot: Node, ghost made: set<Node>)
    requires IsDocument(doc)
    ensures snapshot.body.MapBody? && PartOfSnapshot(doc, snapshot.body.m, made, {"cameras", "sensors"}) && fresh(made)
    ensures snapshot.Valid() && snapshot.body.MapBody? && fresh(snapshot)
    ensures snapshot.View() == Map(Content(doc))
    ensures snapshot.repr !! Containers(doc)
    ensures fresh(snapshot.repr - doc.repr)
  {
    var out;
    ghost var edited := Containers(doc);
    ContainersInside(doc);
    out, made := CloneContainers(doc);
    snapshot := NewSnapshot(doc, out, made, edited);
  }

  method CloneContainers(doc: Node) returns (out: map<string, Any>, ghost made: set<Node>)
    requires IsDocument(doc)
    ensures fresh(made) && PartOfSnapshot(doc, out, made, {"cameras", "sensors"})
  {
    out, made := CloneContainer(doc, "cameras", 0, doc.body.m, {}, {});
    out, made := CloneContainer(doc, "sensors", 2, out, made, {"cameras"});
  }

  lemma ContainersInside(doc: Node)
    requires IsDocument(doc)
    ensures Containers(doc) <= doc.repr
  {
  }

  method NewSnapshot(doc: Node, out: map<string, Any>, ghost made: set<Node>, ghost edited: set<Node>) returns (snapshot: Node)
    requires IsDocument(doc) && PartOfSnapshot(doc, out, made, {"cameras", "sensors"})
    requires made !! doc.repr && edited == Containers(doc) <= doc.repr
    ensures snapshot.Valid() && snapshot.body.MapBody? && fresh(snapshot)
    ensures snapshot.View() == Map(Content(doc))
    ensures snapshot.repr == doc.repr - edited + made + {snapshot} && snapshot.repr !! edited
    ensures Containers(doc) == edited
    ensures PartOfSnapshot(doc, snapshot.body.m, made, {"cameras", "sensors"})
  {
    SnapshotEntries(doc, out, made);
    snapshot := NewCopy(doc, out, doc.repr - edited + made);
  }

  lemma SnapshotEntries(doc: Node, out: map<string, Any>, made: set<Node>)
    requires IsDocument(doc) && PartOfSnapshot(doc, out, made, {"cameras", "sensors"})
    ensures CopiedSoFar(doc, out, doc.repr - Containers(doc) + made)
  {
    var shared := doc.repr - Containers(doc) + made;
    forall k | k in out
      ensures ReprOf(out[k]) <= shared
      ensures out[k].Ref? ==> out[k].node in shared
      ensures Copied(doc, doc.body.m[k], out[k], shared)
    {
      if IsContainerKey(k) {
        assert ClonedSection(doc, k, out[k], made);
      } else {
        SectionIsShared(doc, k);
      }
      assert Sound(out[k]);
    }
  }

  // ---- remotePersistence: saves never reach into a snapshot ----

  /** The snapshot reads as `content`, and no container of `doc` is reachable from it. */
  ghost predicate Isolated(snapshot: Node, content: Values, doc: Node, within: set<Node>)
    reads doc, doc.repr, within
  {
    && snapshot in within && snapshot.repr <= within
    && snapshot.Valid() && snapshot.View() == Map(content)
    && snapshot.repr !! Containers(doc)
  }

  ghost predicate AllIsolated(snapshots: seq<Node>, contents: seq<Values>, doc: Node, within: set<Node>)
    reads doc, doc.repr, within
  {
    |snapshots| == |contents| && forall i | 0 <= i < |snapshots| :: Isolated(snapshots[i], contents[i], doc, within)
  }

  lemma OneMoreIsolated(snapshots: seq<Node>, contents: seq<Values>, doc: Node, within: set<Node>, snapshot: Node)
    requires IsDocument(doc) && AllIsolated(snapshots, contents, doc, within)
    requires snapshot.Valid() && snapshot.View() == Map(Content(doc)) && snapshot.repr !! Containers(doc)
    ensures AllIsolated(snapshots + [snapshot], contents + [Content(doc)], doc, within + snapshot.repr)
  {
    forall i | 0 <= i < |snapshots| ensures Isolated(snapshots[i], contents[i], doc, within + snapshot.repr) {
      assert Isolated(snapshots[i], contents[i], doc, within);
    }
  }

  class RemotePersistence {
    var cache: Node
    ghost var footprint: set<Node>
    ghost var snapshots: seq<Node>   // what has been enqueued, in order
    ghost var contents: seq<Values>  // the document at each enqueue

    ghost predicate Valid()
      reads this, cache, cache.repr, footprint
    {
      IsDocument(cache) && cache.repr <= footprint && AllIsolated(snapshots, contents, cache, footprint)
    }

    constructor (doc: Node)
      requires IsDocument(doc)
      ensures Valid() && cache == doc && snapshots == []
    {
      cache := doc;
      footprint := doc.repr;
      snapshots, contents := [], [];
    }

    method Load(loc: Location) returns (copied: Node?)
      requires Valid()
      ensures copied == null <==> ReadLocation(Content(cache), loc).None?
      ensures copied != null ==> copied.Valid() && fresh(copied.repr)
      ensures copied != null ==> copied.View() == Map(ReadLocation(Content(cache), loc).value)
    {
      copied := LoadCopy(cache, loc);
    }

    /** `save` up to the enqueue: the document takes the edit, every snapshot taken
        before keeps its content, and the new one equals the document. Nothing the
        caller passed in becomes reachable from the document. */
    method Save(loc: Location, values: Node) returns (snapshot: Node)
      requires Valid() && values.Valid() && values.body.MapBody?
      modifies this, Containers(cache)
      ensures Valid() && cache == old(cache)
      ensures Content(cache) == StoreLayout.Save(old(Content(cache)), loc, old(values.View()).entries)
      ensures fresh(cache.repr - old(cache.repr))
      ensures snapshots == old(snapshots) + [snapshot] && contents == old(contents) + [Content(cache)]
    {
      Edit(loc, values);
      snapshot := TakeSnapshot();
    }

    method Edit(loc: Location, values: Node)
      requires Valid() && values.Valid() && values.body.MapBody?
      modifies this`footprint, Containers(cache)
      ensures Valid() && snapshots == old(snapshots) && contents == old(contents) && cache == old(cache)
      ensures Content(cache) == StoreLayout.Save(old(Content(cache)), loc, old(values.View()).entries)
      ensures fresh(cache.repr - old(cache.repr))
    {
      EditDocument(cache, loc, values);
      footprint := footprint + cache.repr;
      StillValid(this);
    }

    method TakeSnapshot() returns (snapshot: Node)
      requires Valid()
      modifies this
      ensures Valid() && cache == old(cache) && Content(cache) == old(Content(cache)) && cache.repr == old(cache.repr)
      ensures snapshots == old(snapshots) + [snapshot] && contents == old(contents) + [Content(cache)]
    {
      ghost var made;
      snapshot, made := SnapshotStoreDoc(cache);
      Remember(snapshot);
    }

    ghost method Remember(snapshot: Node)
      requires Valid() && snapshot.Valid() && snapshot.View() == Map(Content(cache)) && snapshot.repr !! Containers(cache)
      modifies this`footprint, this`snapshots, this`contents
      ensures Valid()
      ensures snapshots == old(snapshots) + [snapshot] && contents == old(contents) + [Content(cache)]
    {
      var content, grown := Content(cache), footprint + snapshot.repr;
      OneMoreIsolated(snapshots, contents, cache, footprint, snapshot);
      footprint, snapshots, contents := grown, snapshots + [snapshot], contents + [content];
      assert AllIsolated(snapshots, contents, cache, grown);
    }
  }

  /** Edits of the live document's containers leave every snapshot as it was. */
  twostate lemma StillValid(p: RemotePersistence)
    requires old(p.Valid()) && IsDocument(p.cache) && p.cache == old(p.cache)
    requires p.snapshots == old(p.snapshots) && p.contents == old(p.contents)
    requires old(p.footprint) + p.cache.repr <= p.footprint
    requires OnlyTouched(old(p.footprint), old(Containers(p.cache)))
    requires fresh(Containers(p.cache) - old(Containers(p.cache)))
    ensures p.Valid()
  {
    forall i | 0 <= i < |p.snapshots| ensures Isolated(p.snapshots[i], p.contents[i], p.cache, p.footprint) {
      assert old(Isolated(p.snapshots[i], p.contents[i], p.cache, p.footprint));
      assert unchanged(old(p.snapshots[i].repr));
    }
  }
}
