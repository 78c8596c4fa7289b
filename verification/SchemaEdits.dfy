/** The four edits of a storage's schemas (go/storage.go), and which of them flip what
    is persisted without forcing the next write. */
module SchemaEdits {
  import opened GoValues
  import opened StorageValues

  datatype SchemaEdit =
    | Define(schemas: seq<Schema>)          // DefineSchemas
    | Add(schema: Schema)                   // AddSchema
    | Replace(key: string, schema: Schema)  // ChangeSchema
    | Remove(key: string)                   // RemoveSchema

  /** The loops over the schemas stop at the first field of the key. */
  function ReplaceFirst(schemas: seq<Schema>, key: string, schema: Schema): seq<Schema> {
    if schemas == [] then []
    else if schemas[0].key == key then [schema.(key := key)] + schemas[1..]
    else [schemas[0]] + ReplaceFirst(schemas[1..], key, schema)
  }

  function RemoveFirst(schemas: seq<Schema>, key: string): seq<Schema> {
    if schemas == [] then []
    else if schemas[0].key == key then schemas[1..]
    else [schemas[0]] + RemoveFirst(schemas[1..], key)
  }

  function Edited(schemas: seq<Schema>, e: SchemaEdit): seq<Schema> {
    match e
    case Define(after) => after
    case Add(schema) => if FindSchema(schemas, schema.key).None? then schemas + [schema] else schemas
    case Replace(key, schema) => ReplaceFirst(schemas, key, schema)
    case Remove(key) => RemoveFirst(schemas, key)
  }

  /** Whether some key is persisted under one list of schemas and not under the other. */
  ghost predicate FlipsPersistence(before: seq<Schema>, after: seq<Schema>) {
    exists k :: Persists(before, k) != Persists(after, k)
  }

  /** The only edit that raises the dirty flag. */
  ghost predicate RaisesFlag(schemas: seq<Schema>, e: SchemaEdit) {
    e.Replace? && FlipsPersistence(schemas, Edited(schemas, e))
  }

  lemma {:induction false} FindAfterReplace(schemas: seq<Schema>, key: string, schema: Schema, k: string)
    ensures FindSchema(ReplaceFirst(schemas, key, schema), k) ==
            if k == key && FindSchema(schemas, key).Some? then Some(schema.(key := key)) else FindSchema(schemas, k)
    decreases |schemas|
  {
    if schemas != [] {
      var after := ReplaceFirst(schemas, key, schema);
      if schemas[0].key == key {
        assert after[1..] == schemas[1..];
      } else {
        FindAfterReplace(schemas[1..], key, schema, k);
        assert after[1..] == ReplaceFirst(schemas[1..], key, schema);
      }
    }
  }

  lemma {:induction false} FindAfterRemove(schemas: seq<Schema>, key: string, k: string)
    requires k != key
    ensures FindSchema(RemoveFirst(schemas, key), k) == FindSchema(schemas, k)
    decreases |schemas|
  {
    if schemas != [] {
      var after := RemoveFirst(schemas, key);
      if schemas[0].key != key {
        FindAfterRemove(schemas[1..], key, k);
        assert after[1..] == RemoveFirst(schemas[1..], key);
      }
    }
  }

  lemma {:induction false} FindAfterAdd(schemas: seq<Schema>, schema: Schema, k: string)
    ensures FindSchema(schemas + [schema], k) ==
            if FindSchema(schemas, k).None? && k == schema.key then Some(schema) else FindSchema(schemas, k)
    decreases |schemas|
  {
    if schemas == [] {
      assert ([] + [schema])[1..] == [];
    } else {
      FindAfterAdd(schemas[1..], schema, k);
      assert (schemas + [schema])[1..] == schemas[1..] + [schema];
    }
  }

  /** An edit of one key leaves what is persisted of every other key alone. */
  lemma OtherKeysUntouched(schemas: seq<Schema>, e: SchemaEdit, k: string)
    requires !e.Define? && k != (if e.Add? then e.schema.key else e.key)
    ensures FindSchema(Edited(schemas, e), k) == FindSchema(schemas, k)
  {
    match e
    case Add(schema) => FindAfterAdd(schemas, schema, k);
    case Replace(key, schema) => FindAfterReplace(schemas, key, schema, k);
    case Remove(key) => FindAfterRemove(schemas, key, k);
  }

  predicate KeepsItsWord(schemas: seq<Schema>, e: SchemaEdit) {
    match e
    case Replace(_, _) => true
    case Add(schema) => FindSchema(schemas, schema.key).Some? || Storable(schema)
    case Remove(key) => Persists(schemas, key) == Persists(RemoveFirst(schemas, key), key)
    case Define(after) => forall f | f in schemas + after :: Persists(schemas, f.key) == Persists(after, f.key)
  }

  /** When a flip of what is persisted forces the next write, for each of the edits: a
      change always; an addition exactly if the key is known or the schema storable; a
      removal exactly if what is left for the key is persisted as it was before; a new
      definition exactly if no field of either list is persisted differently. */
  lemma FlipForcesTheWriteIff(schemas: seq<Schema>, e: SchemaEdit)
    ensures (FlipsPersistence(schemas, Edited(schemas, e)) ==> RaisesFlag(schemas, e)) <==> KeepsItsWord(schemas, e)
  {
    match e
    case Replace(_, _) =>
    case Add(schema) =>
      FlipAtKey(schemas, e, schema.key);
      FindAfterAdd(schemas, schema, schema.key);
    case Remove(key) =>
      FlipAtKey(schemas, e, key);
    case Define(after) =>
      forall k | Persists(schemas, k) != Persists(after, k) ensures exists f :: f in schemas + after && f.key == k {
        if FindSchema(schemas, k).Some? {
          var i :| 0 <= i < |schemas| && schemas[i].key == k;
          assert schemas[i] in schemas + after;
        } else {
          var i :| 0 <= i < |after| && after[i].key == k;
          assert after[i] in schemas + after;
        }
      }
  }

  lemma FlipAtKey(schemas: seq<Schema>, e: SchemaEdit, key: string)
    requires !e.Define? && key == (if e.Add? then e.schema.key else e.key)
    ensures FlipsPersistence(schemas, Edited(schemas, e)) <==> Persists(schemas, key) != Persists(Edited(schemas, e), key)
  {
    forall k | k != key ensures Persists(schemas, k) == Persists(Edited(schemas, e), k) {
      OtherKeysUntouched(schemas, e, k);
    }
  }

  /** The first field of the key. */
  predicate FirstOf(schemas: seq<Schema>, key: string, i: int) {
    0 <= i < |schemas| && schemas[i].key == key && forall j | 0 <= j < i :: schemas[j].key != key
  }

  /** The loops find the place by index. */
  lemma {:induction false} FirstAtIndex(schemas: seq<Schema>, key: string, i: nat, schema: Schema)
    requires i < |schemas| && schemas[i].key == key
    requires forall j | 0 <= j < i :: schemas[j].key != key
    ensures schemas[i := schema.(key := key)] == ReplaceFirst(schemas, key, schema)
    ensures schemas[..i] + schemas[i + 1..] == RemoveFirst(schemas, key)
    decreases i
  {
    if i > 0 {
      var rest := schemas[1..];
      FirstAtIndex(rest, key, i - 1, schema);
      assert schemas[i := schema.(key := key)] == [schemas[0]] + rest[i - 1 := schema.(key := key)];
      assert schemas[..i] + schemas[i + 1..] == [schemas[0]] + (rest[..i - 1] + rest[i..]);
    }
  }

  lemma {:induction false} NoFirst(schemas: seq<Schema>, key: string, schema: Schema)
    requires FindSchema(schemas, key).None?
    ensures ReplaceFirst(schemas, key, schema) == schemas && RemoveFirst(schemas, key) == schemas
    decreases |schemas|
  {
    if schemas != [] {
      NoFirst(schemas[1..], key, schema);
      assert schemas == [schemas[0]] + schemas[1..];
    }
  }

  /** The locked loop of `ChangeSchema`. */
  method ReplaceSchema(schemas: seq<Schema>, key: string, schema: Schema) returns (out: seq<Schema>, found: bool, flips: bool)
    ensures found <==> FindSchema(schemas, key).Some?
    ensures out == Edited(schemas, Replace(key, schema))
    ensures !found ==> out == schemas
    ensures found ==> exists i :: FirstOf(schemas, key, i) && out == schemas[i := schema.(key := key)]
    ensures flips <==> FlipsPersistence(schemas, out)
  {
    var index := FindSchemaByKey(schemas, key);
    if index.None? {
      NoFirst(schemas, key, schema);
      return schemas, false, false;
    }
    var i := index.value;
    FirstAtIndex(schemas, key, i, schema);
    FindAfterReplace(schemas, key, schema, key);
    FlipAtKey(schemas, Replace(key, schema), key);
    flips := Storable(schemas[i]) != Storable(schema);
    assert FirstOf(schemas, key, i);
    out, found := schemas[i := schema.(key := key)], true;
  }

  /** The locked loop of `RemoveSchema`. */
  method RemoveSchemaOf(schemas: seq<Schema>, key: string) returns (out: seq<Schema>, removed: Option<Schema>)
    ensures removed == FindSchema(schemas, key)
    ensures out == Edited(schemas, Remove(key))
    ensures removed.None? ==> out == schemas
    ensures removed.Some? ==> exists i :: FirstOf(schemas, key, i) && out == schemas[..i] + schemas[i + 1..]
  {
    var index := FindSchemaByKey(schemas, key);
    if index.None? {
      if schemas != [] {
        NoFirst(schemas, key, schemas[0]);
      }
      return schemas, None;
    }
    var i := index.value;
    FirstAtIndex(schemas, key, i, schemas[i]);
    assert FirstOf(schemas, key, i);
    return schemas[..i] + schemas[i + 1..], Some(schemas[i]);
  }
}
