/** `filePersistence` of go/config_persistence.go: the document on the heap, encoded
    under the lock and enqueued in the coalescing writer. */
module FilePersistenceObjects {
  import opened GoValues
  import opened StoreLayout
  import opened StoreEnvelope
  import opened StoreHeap
  import opened CoalescingProtocol
  import opened CoalescingWriterObjects

  /** What the encoder reads off the heap. */
  method ReadValue(a: Any) returns (v: Val)
    requires Sound(a)
    ensures v == ViewAny(a)
    decreases ReprOf(a), 1
  {
    match a
    case Scalar(s) => v := s;
    case Ref(n) =>
      match n.body
      case MapBody(_) =>
        var entries := ReadEntries(n);
        v := Map(entries);
      case ListBody(_) =>
        var items := ReadItems(n);
        v := List(items);
  }

  method ReadEntries(n: Node) returns (entries: Values)
    requires n.Valid() && n.body.MapBody?
    ensures Map(entries) == n.View()
    decreases n.repr, 0
  {
    entries := map[];
    var keys := n.body.m.Keys;
    while keys != {}
      invariant keys <= n.body.m.Keys && entries.Keys == n.body.m.Keys - keys
      invariant forall k | k in entries :: n.Holds(n.body.m[k]) && entries[k] == n.ViewOf(n.body.m[k])
      decreases keys
    {
      var k :| k in keys;
      keys := keys - {k};
      assert n.Holds(n.body.m[k]);
      var v := ReadValue(n.body.m[k]);
      entries := entries[k := v];
    }
  }

  method ReadItems(n: Node) returns (items: seq<Val>)
    requires n.Valid() && n.body.ListBody?
    ensures List(items) == n.View()
    decreases n.repr, 0
  {
    items := [];
    for i := 0 to |n.body.s|
      invariant |items| == i
      invariant forall j | 0 <= j < i :: n.Holds(n.body.s[j]) && items[j] == n.ViewOf(n.body.s[j])
    {
      assert n.Holds(n.body.s[i]);
      var v := ReadValue(n.body.s[i]);
      items := items + [v];
    }
  }

  class FilePersistence {
    const c: Codec
    const doc: Node
    const writer: CoalescingWriter<Bytes>

    ghost predicate Valid()
      reads this, doc, doc.repr, writer, writer.repr
    {
      PreservesValues(c) && IsDocument(doc) && writer.Valid() && writer.s.held.None?
    }

    constructor (c: Codec, doc: Node, initial: Bytes, flush: (nat, Bytes) -> Answer)
      requires PreservesValues(c) && IsDocument(doc)
      ensures Valid() && this.doc == doc && this.c == c && fresh(writer) && writer.flush == flush
    {
      this.c, this.doc := c, doc;
      writer := new CoalescingWriter(flush, initial);
    }

    method Load(loc: Location) returns (copied: Node?)
      requires Valid()
      ensures copied == null <==> ReadLocation(Content(doc), loc).None?
      ensures copied != null ==> copied.Valid() && fresh(copied.repr)
      ensures copied != null ==> copied.View() == Map(ReadLocation(Content(doc), loc).value)
    {
      copied := LoadCopy(doc, loc);
    }

    method Encode() returns (data: Option<Bytes>)
      requires IsDocument(doc)
      ensures data == EncodeEnvelope(c, Content(doc))
    {
      var entries := ReadEntries(doc);
      assert Content(doc) == entries;
      data := EncodeEnvelope(c, entries);
    }

    /** `save` up to the wait: the document takes the edit even if the encoder fails;
        then the caller gets the error and nothing is enqueued. Otherwise the handle's
        snapshot, read back, is the document with the edit. */
    method Save(loc: Location, values: Node) returns (p: PendingFlush?<Bytes>)
      requires Valid() && values.Valid() && values.body.MapBody?
      modifies Containers(doc), writer, writer.pending
      ensures Valid()
      ensures Content(doc) == StoreLayout.Save(old(Content(doc)), loc, old(values.View()).entries)
      ensures fresh(doc.repr - old(doc.repr))
      ensures p == null <==> EncodeEnvelope(c, Content(doc)).None?
      ensures p == null ==> writer.s == old(writer.s)
      ensures p != null ==>
        && DecodeEnvelope(c, p.snapshot) == Payload(NormalizeValues(Content(doc)))
        && writer.s == Saved(old(writer.s), p.snapshot)
        && p in writer.flushes
    {
      Edit(loc, values);
      p := EnqueueDocument();
    }

    method Edit(loc: Location, values: Node)
      requires Valid() && values.Valid() && values.body.MapBody?
      modifies Containers(doc)
      ensures Valid() && Content(doc) == StoreLayout.Save(old(Content(doc)), loc, old(values.View()).entries)
      ensures fresh(doc.repr - old(doc.repr))
    {
      EditDocument(doc, loc, values);
    }

    /** The second half of `save`, with the document as it is by then. */
    method EnqueueDocument() returns (p: PendingFlush?<Bytes>)
      requires Valid()
      modifies writer, writer.pending
      ensures Valid() && Content(doc) == old(Content(doc)) && doc.repr == old(doc.repr)
      ensures p == null <==> EncodeEnvelope(c, Content(doc)).None?
      ensures p == null ==> writer.s == old(writer.s)
      ensures p != null ==>
        && DecodeEnvelope(c, p.snapshot) == Payload(NormalizeValues(Content(doc)))
        && writer.s == Saved(old(writer.s), p.snapshot)
        && p in writer.flushes
    {
      var data := Encode();
      if data.None? {
        return null;
      }
      EnvelopeRoundTrip(c, Content(doc));
      p := EnqueueData(data.value);
    }

    method EnqueueData(data: Bytes) returns (p: PendingFlush<Bytes>)
      requires writer.Valid() && writer.s.held.None?
      modifies writer, writer.pending
      ensures writer.Valid() && writer.s.held.None? && p.snapshot == data && p in writer.flushes
      ensures writer.s == Saved(old(writer.s), data)
    {
      writer.Install(data);
      ghost var spawned;
      p, spawned := writer.Enqueue(data);
    }
  }

  /** The protocol after one save: installed and enqueued under one lock. */
  ghost function Saved(s: State<Bytes>, data: Bytes): State<Bytes>
    requires s.held.None? && (s.pending.Some? ==> s.pending.value < |s.handles|)
  {
    Apply(Apply(s, Install(data)), Step.Enqueue)
  }
}
