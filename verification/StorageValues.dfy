/** The value side of go/storage.go: merging, schema defaults, what is persisted,
    what a restart brings back, and which values may be stored at all. */
module StorageValues {
  import opened GoValues
  import opened StoreLayout
  import opened StoreEnvelope
  import DeepEquality

  // ---- mergeValues / mergeValue ----

  /** `mergeValue`: maps merge key by key, anything else is replaced. */
  function Merge(d: Val, s: Val): Val
    decreases s
  {
    if d.Map? && s.Map? then
      Map(map k | k in d.entries.Keys + s.entries.Keys ::
            if k !in s.entries then d.entries[k]
            else if k in d.entries then Merge(d.entries[k], s.entries[k])
            else s.entries[k])
    else s
  }

  function MergeEntries(d: Values, s: Values): Values {
    Merge(Map(d), Map(s)).entries
  }

  function MergedAt(d: Values, s: Values, k: string): Val
    requires k in s
  {
    if k in d then Merge(d[k], s[k]) else s[k]
  }

  /** `out` is `d` with the keys `done` of `s` merged in. */
  ghost predicate TakenOver(d: Values, s: Values, out: Values, done: set<string>) {
    && done <= s.Keys
    && out.Keys == d.Keys + done
    && forall k | k in out :: out[k] == if k in done then MergedAt(d, s, k) else d[k]
  }

  /** `mergeValues`: a copy of `dst` takes over the keys of `src` one by one. */
  method MergeValues(dst: Values, src: Values) returns (out: Values)
    ensures out == MergeEntries(dst, src)
    decreases Map(src), 0
  {
    out := dst;
    var keys := src.Keys;
    while keys != {}
      invariant keys <= src.Keys
      invariant TakenOver(dst, src, out, src.Keys - keys)
      decreases keys
    {
      var k :| k in keys;
      keys := keys - {k};
      if k in out {
        var merged := MergeValue(out[k], src[k]);
        out := out[k := merged];
      } else {
        out := out[k := src[k]];
      }
    }
    MergedPointwise(dst, src, out);
  }

  method MergeValue(previous: Val, incoming: Val) returns (merged: Val)
    ensures merged == Merge(previous, incoming)
    decreases incoming, 1
  {
    if previous.Map? && incoming.Map? {
      var entries := MergeValues(previous.entries, incoming.entries);
      return Map(entries);
    }
    return incoming;
  }

  lemma MergedPointwise(d: Values, s: Values, out: Values)
    requires TakenOver(d, s, out, s.Keys)
    ensures out == MergeEntries(d, s)
  {
    var merged := MergeEntries(d, s);
    assert merged.Keys == out.Keys;
    forall k | k in out ensures out[k] == merged[k] {
    }
  }

  /** What a path of map keys leads to. */
  function Lookup(v: Val, path: seq<string>): Option<Val>
    decreases |path|
  {
    if path == [] then Some(v)
    else if v.Map? && path[0] in v.entries then Lookup(v.entries[path[0]], path[1..])
    else None
  }

  lemma LookupOne(v: Val, k: string)
    ensures Lookup(v, [k]) == if v.Map? && k in v.entries then Some(v.entries[k]) else None
  {
    assert [k][1..] == [];
  }

  ghost predicate IsMapAt(v: Val, path: seq<string>) {
    Lookup(v, path).Some? && Lookup(v, path).value.Map?
  }

  /** The stored side decides `path`: on the way there it holds something that does
      not merge, either because it is no map or because the other side has none. */
  ghost predicate Decides(d: Val, s: Val, path: seq<string>) {
    exists n | 0 <= n <= |path| ::
      Lookup(s, path[..n]).Some? && !(IsMapAt(d, path[..n]) && IsMapAt(s, path[..n]))
  }

  lemma DecidesStep(d: Val, s: Val, path: seq<string>)
    requires path != [] && d.Map? && s.Map?
    requires path[0] in d.entries && path[0] in s.entries
    ensures Decides(d, s, path) <==> Decides(d.entries[path[0]], s.entries[path[0]], path[1..])
  {
    var d1, s1 := d.entries[path[0]], s.entries[path[0]];
    forall n | 0 <= n < |path|
      ensures Lookup(s, path[..n + 1]) == Lookup(s1, path[1..][..n]) && Lookup(d, path[..n + 1]) == Lookup(d1, path[1..][..n])
    {
      assert path[..n + 1][1..] == path[1..][..n];
    }
    if Decides(d, s, path) {
      var n :| 0 <= n <= |path| && Lookup(s, path[..n]).Some? && !(IsMapAt(d, path[..n]) && IsMapAt(s, path[..n]));
      assert n > 0;
      assert path[..(n - 1) + 1] == path[..n];
      assert Lookup(s1, path[1..][..n - 1]).Some?;
    }
    if Decides(d1, s1, path[1..]) {
      var n :| 0 <= n <= |path[1..]|
        && Lookup(s1, path[1..][..n]).Some? && !(IsMapAt(d1, path[1..][..n]) && IsMapAt(s1, path[1..][..n]));
      assert Lookup(s, path[..n + 1]).Some?;
    }
  }

  /** Path by path: the stored value where the stored side decides, the merge of two
      maps where both sides have one, and the default everywhere else. */
  lemma {:induction false} MergeLaw(d: Val, s: Val, path: seq<string>)
    ensures !Decides(d, s, path) && Lookup(s, path).Some? ==> IsMapAt(d, path) && IsMapAt(s, path)
    ensures Lookup(Merge(d, s), path) ==
            if Decides(d, s, path) then Lookup(s, path)
            else if IsMapAt(s, path) then Some(Merge(Lookup(d, path).value, Lookup(s, path).value))
            else Lookup(d, path)
    decreases |path|
  {
    assert path[..0] == [] && path[..|path|] == path;
    if !(d.Map? && s.Map?) {
      assert Lookup(s, path[..0]).Some?;
      assert Decides(d, s, path);
    } else if path != [] {
      var k := path[0];
      if k in d.entries && k in s.entries {
        DecidesStep(d, s, path);
        MergeLaw(d.entries[k], s.entries[k], path[1..]);
      } else if k in s.entries {
        assert path[..1] == [k];
        LookupOne(s, k);
        LookupOne(d, k);
        assert Lookup(s, path[..1]).Some? && !IsMapAt(d, path[..1]);
        assert Decides(d, s, path);
      } else {
        forall n | 0 <= n <= |path| && Lookup(s, path[..n]).Some?
          ensures IsMapAt(d, path[..n]) && IsMapAt(s, path[..n])
        {
          assert n == 0;
        }
      }
    }
  }

  lemma {:induction false} MergeSelf(v: Val)
    ensures Merge(v, v) == v
    decreases v
  {
    if v.Map? {
      forall k | k in v.entries ensures Merge(v.entries[k], v.entries[k]) == v.entries[k] {
        MergeSelf(v.entries[k]);
      }
      assert Merge(v, v).entries == v.entries;
    }
  }

  /** Defining the same schemas again changes nothing. */
  lemma {:induction false} MergeAbsorbs(d: Val, s: Val)
    ensures Merge(d, Merge(d, s)) == Merge(d, s)
    decreases s
  {
    if d.Map? && s.Map? {
      var m := Merge(d, s);
      forall k | k in m.entries
        ensures (if k in d.entries then Merge(d.entries[k], m.entries[k]) else m.entries[k]) == m.entries[k]
      {
        if k in d.entries && k in s.entries {
          assert m.entries[k] == Merge(d.entries[k], s.entries[k]);
          MergeAbsorbs(d.entries[k], s.entries[k]);
        } else if k in d.entries {
          MergeSelf(d.entries[k]);
        }
      }
      assert Merge(d, m).entries == m.entries;
    }
  }

  /** `v` has every key of `d`, at every level on which both are maps. */
  ghost predicate Covers(d: Val, v: Val)
    decreases d
  {
    d.Map? && v.Map? ==>
      forall k | k in d.entries :: k in v.entries && Covers(d.entries[k], v.entries[k])
  }

  /** Merging over a default gives a value back unchanged exactly when it covers the default. */
  lemma {:induction false} MergeRestoresIffCovers(d: Val, v: Val)
    ensures Merge(d, v) == v <==> Covers(d, v)
    decreases v
  {
    if d.Map? && v.Map? {
      forall k | k in d.entries && k in v.entries
        ensures Merge(d.entries[k], v.entries[k]) == v.entries[k] <==> Covers(d.entries[k], v.entries[k])
      {
        MergeRestoresIffCovers(d.entries[k], v.entries[k]);
      }
      var m := Merge(d, v).entries;
      if Covers(d, v) {
        assert m == v.entries;
      }
      if m == v.entries {
        forall k | k in d.entries ensures k in v.entries && Covers(d.entries[k], v.entries[k]) {
          assert k in m;
          assert m[k] == v.entries[k];
        }
      }
    }
  }

  lemma {:induction false} NormalizeMerge(d: Val, s: Val)
    ensures Normalize(Merge(d, s)) == Merge(Normalize(d), Normalize(s))
    decreases s
  {
    if d.Map? && s.Map? {
      forall k | k in d.entries && k in s.entries
        ensures Normalize(Merge(d.entries[k], s.entries[k])) == Merge(Normalize(d.entries[k]), Normalize(s.entries[k]))
      {
        NormalizeMerge(d.entries[k], s.entries[k]);
      }
      var left, right := Normalize(Merge(d, s)).entries, Merge(Normalize(d), Normalize(s)).entries;
      assert Normalize(d).entries.Keys == d.entries.Keys && Normalize(s).entries.Keys == s.entries.Keys;
      assert left.Keys == right.Keys;
      forall k | k in left ensures left[k] == right[k] {
        assert left[k] == Normalize(Merge(d, s).entries[k]);
      }
    }
  }

  // ---- schemas and their defaults ----

  datatype SchemaType = StringField | NumberField | BooleanField | ArrayField | ObjectField | ButtonField | SubmitField | OtherField

  /** The fields of a JsonSchema that the stored state depends on; `store` is the
      optional flag, `defaultValue` is Nil when none is given. */
  datatype Schema = Schema(
    fieldType: SchemaType,
    key: string,
    required: bool,
    defaultValue: Val,
    store: Option<bool>,
    choices: seq<string>,
    multiple: bool,
    properties: seq<Schema>,
    hasOnSet: bool)

  predicate Clickable(s: Schema) {
    s.fieldType.ButtonField? || s.fieldType.SubmitField?
  }

  predicate Storable(s: Schema) {
    s.store == Some(true) && !Clickable(s)
  }

  function DefaultOf(s: Schema): Val
    decreases s
  {
    if !s.defaultValue.Nil? then s.defaultValue
    else match s.fieldType
      case StringField =>
        if s.choices != [] && s.multiple then List([])
        else if s.choices != [] && s.required then Str(s.choices[0])
        else Str("")
      case NumberField => Num(Integer(Int, 0))
      case BooleanField => Bool(false)
      case ArrayField => List([])
      case ObjectField => Map(DefaultsOf(s.properties))
      case _ => Nil
  }

  /** `generateConfigFromSchemas`, and the object case of `generateDefaultValue`:
      the last field of a key wins. */
  function DefaultsOf(fields: seq<Schema>): Values
    decreases fields
  {
    if fields == [] then map[]
    else
      var last := fields[|fields| - 1];
      var init := DefaultsOf(fields[..|fields| - 1]);
      if Clickable(last) then init else init[last.key := DefaultOf(last)]
  }

  method GenerateConfigFromSchemas(schemas: seq<Schema>) returns (config: Values)
    ensures config == DefaultsOf(schemas)
  {
    config := map[];
    for i := 0 to |schemas|
      invariant config == DefaultsOf(schemas[..i])
    {
      assert schemas[..i + 1][..i] == schemas[..i];
      if Clickable(schemas[i]) {
        continue;
      }
      config := config[schemas[i].key := DefaultOf(schemas[i])];
    }
    assert schemas[..|schemas|] == schemas;
  }

  /** A key has a default exactly when some field that holds a value declares it. */
  lemma {:induction false} DefaultsKeys(fields: seq<Schema>, key: string)
    ensures key in DefaultsOf(fields) <==> exists i :: 0 <= i < |fields| && fields[i].key == key && !Clickable(fields[i])
    decreases |fields|
  {
    if fields != [] {
      var init := fields[..|fields| - 1];
      DefaultsKeys(init, key);
      assert forall i | 0 <= i < |init| :: init[i] == fields[i];
      if key in DefaultsOf(init) {
        var i :| 0 <= i < |init| && init[i].key == key && !Clickable(init[i]);
        assert fields[i].key == key && !Clickable(fields[i]);
      }
      if exists i :: 0 <= i < |fields| && fields[i].key == key && !Clickable(fields[i]) {
        var i :| 0 <= i < |fields| && fields[i].key == key && !Clickable(fields[i]);
        if i < |init| {
          assert init[i].key == key;
        }
      }
    }
  }

  lemma {:induction false} LastFieldDecides(fields: seq<Schema>, i: nat)
    requires i < |fields| && !Clickable(fields[i])
    requires forall j | i < j < |fields| && fields[j].key == fields[i].key :: Clickable(fields[j])
    ensures fields[i].key in DefaultsOf(fields) && DefaultsOf(fields)[fields[i].key] == DefaultOf(fields[i])
    decreases |fields|
  {
    var init := fields[..|fields| - 1];
    if i < |init| {
      assert forall j | 0 <= j < |init| :: init[j] == fields[j];
      LastFieldDecides(init, i);
    }
  }

  /** What defining the schemas gives for a key: a stored value that is no map stays; for
      a key not stored, the last field of the key that is no button decides: its own
      default if it has one, else the empty value of its type. */
  lemma DefinedValue(fields: seq<Schema>, i: nat, stored: Values)
    requires i < |fields| && !fields[i].fieldType.ButtonField? && !fields[i].fieldType.SubmitField?
    requires forall j | i < j < |fields| && fields[j].key == fields[i].key ::
               fields[j].fieldType.ButtonField? || fields[j].fieldType.SubmitField?
    ensures var f, after := fields[i], MergeEntries(DefaultsOf(fields), stored);
      && f.key in after
      && (f.key in stored && !stored[f.key].Map? ==> after[f.key] == stored[f.key])
      && (f.key !in stored && !f.defaultValue.Nil? ==> after[f.key] == f.defaultValue)
      && (f.key !in stored && f.defaultValue.Nil? ==>
            && (f.fieldType.StringField? && f.choices != [] && f.multiple ==> after[f.key] == List([]))
            && (f.fieldType.StringField? && f.choices != [] && !f.multiple && f.required ==> after[f.key] == Str(f.choices[0]))
            && (f.fieldType.StringField? && (f.choices == [] || (!f.multiple && !f.required)) ==> after[f.key] == Str(""))
            && (f.fieldType.NumberField? ==> after[f.key] == Num(Integer(Int, 0)))
            && (f.fieldType.BooleanField? ==> after[f.key] == Bool(false))
            && (f.fieldType.ArrayField? ==> after[f.key] == List([]))
            && (f.fieldType.ObjectField? ==> after[f.key] == Map(MergeEntries(DefaultsOf(f.properties), map[])))
            && (f.fieldType.OtherField? ==> after[f.key] == Nil))
  {
    LastFieldDecides(fields, i);
    MergedKey(DefaultsOf(fields), stored, fields[i].key);
    MergeNothing(DefaultsOf(fields[i].properties));
  }

  lemma MergedKey(d: Values, s: Values, k: string)
    requires k in d
    ensures k in MergeEntries(d, s)
    ensures k !in s ==> MergeEntries(d, s)[k] == d[k]
    ensures k in s && !s[k].Map? ==> MergeEntries(d, s)[k] == s[k]
  {
    if k in s {
      assert MergeEntries(d, s)[k] == Merge(d[k], s[k]);
    }
  }

  lemma MergeNothing(d: Values)
    ensures MergeEntries(d, map[]) == d
  {
    assert MergeEntries(d, map[]).Keys == d.Keys;
  }

  /** `findSchemaByKey`: the first field of that key. */
  function FindSchema(schemas: seq<Schema>, key: string): (r: Option<Schema>)
    ensures r.Some? <==> exists i :: 0 <= i < |schemas| && schemas[i].key == key
    decreases |schemas|
  {
    if schemas == [] then None
    else if schemas[0].key == key then Some(schemas[0])
    else
      var r := FindSchema(schemas[1..], key);
      assert r.Some? ==> exists i :: 0 <= i < |schemas| && schemas[i].key == key by {
        if r.Some? {
          var i :| 0 <= i < |schemas[1..]| && schemas[1..][i].key == key;
          assert schemas[i + 1].key == key;
        }
      }
      assert (exists i :: 0 <= i < |schemas| && schemas[i].key == key) ==> r.Some? by {
        if i :| 0 <= i < |schemas| && schemas[i].key == key {
          assert schemas[1..][i - 1].key == key;
        }
      }
      r
  }

  lemma {:induction false} FirstMatchIsFound(schemas: seq<Schema>, key: string, i: nat)
    requires i < |schemas| && schemas[i].key == key
    requires forall j | 0 <= j < i :: schemas[j].key != key
    ensures FindSchema(schemas, key) == Some(schemas[i])
    decreases i
  {
    if i > 0 {
      FirstMatchIsFound(schemas[1..], key, i - 1);
    }
  }

  method FindSchemaByKey(schemas: seq<Schema>, key: string) returns (index: Option<nat>)
    ensures index.Some? ==> index.value < |schemas| && FindSchema(schemas, key) == Some(schemas[index.value])
    ensures index.Some? ==> schemas[index.value].key == key
    ensures index.Some? ==> forall j | 0 <= j < index.value :: schemas[j].key != key
    ensures index.None? ==> FindSchema(schemas, key) == None
  {
    for i := 0 to |schemas|
      invariant forall j | 0 <= j < i :: schemas[j].key != key
    {
      if schemas[i].key == key {
        FirstMatchIsFound(schemas, key, i);
        return Some(i);
      }
    }
    return None;
  }

  /** A key without a schema is internal and always persisted. */
  predicate Persists(schemas: seq<Schema>, key: string) {
    var s := FindSchema(schemas, key);
    s.None? || Storable(s.value)
  }

  /** A key is persisted if and only if the first field of the key, if there is any, is
      marked for the store and is no button. */
  lemma PersistsIff(schemas: seq<Schema>, key: string)
    ensures Persists(schemas, key) <==>
      forall i | 0 <= i < |schemas| && schemas[i].key == key && (forall j | 0 <= j < i :: schemas[j].key != key) ::
        schemas[i].store == Some(true) && !schemas[i].fieldType.ButtonField? && !schemas[i].fieldType.SubmitField?
  {
    forall i | 0 <= i < |schemas| && schemas[i].key == key && (forall j | 0 <= j < i :: schemas[j].key != key)
      ensures FindSchema(schemas, key) == Some(schemas[i])
    {
      FirstMatchIsFound(schemas, key, i);
    }
    if FindSchema(schemas, key).Some? {
      var i := FirstField(schemas, key);
      assert FindSchema(schemas, key) == Some(schemas[i]);
    }
  }

  lemma {:induction false} FirstField(schemas: seq<Schema>, key: string) returns (i: nat)
    requires FindSchema(schemas, key).Some?
    ensures i < |schemas| && schemas[i].key == key && forall j | 0 <= j < i :: schemas[j].key != key
    decreases |schemas|
  {
    if schemas[0].key == key {
      i := 0;
    } else {
      var j := FirstField(schemas[1..], key);
      i := j + 1;
      assert forall k | 1 <= k < i :: schemas[k] == schemas[1..][k - 1];
    }
  }

  function PersistedPart(schemas: seq<Schema>, values: Values): Values {
    map k | k in values && Persists(schemas, k) :: values[k]
  }

  method PersistedValues(schemas: seq<Schema>, values: Values) returns (out: Values)
    ensures out == PersistedPart(schemas, values)
  {
    out := map[];
    var keys := values.Keys;
    while keys != {}
      invariant keys <= values.Keys
      invariant forall k :: k in out <==> k in values.Keys - keys && Persists(schemas, k)
      invariant forall k | k in out :: out[k] == values[k]
      decreases keys
    {
      var k :| k in keys;
      keys := keys - {k};
      var schema := FindSchemaByKey(schemas, k);
      if schema.None? || Storable(schemas[schema.value]) {
        out := out[k := values[k]];
      }
    }
  }

  // ---- persist, restart, define the schemas again ----

  /** The `Values` of a storage opened on the document `doc`. */
  function LoadedValues(doc: Values, loc: Location): Values {
    match ReadLocation(doc, loc)
    case None => map[]
    case Some(values) => values
  }

  /** The values in memory after the storage persisted `values` into `doc`, the
      process restarted, and the plugin defined the same schemas again. */
  ghost function AfterRestart(doc: Values, loc: Location, schemas: seq<Schema>, values: Values): Values {
    var written := Save(doc, loc, PersistedPart(schemas, values));
    MergeEntries(DefaultsOf(schemas), LoadedValues(NormalizeValues(written), loc))
  }

  lemma RestartReads(doc: Values, loc: Location, schemas: seq<Schema>, values: Values)
    ensures AfterRestart(doc, loc, schemas, values) ==
            MergeEntries(DefaultsOf(schemas), NormalizeValues(PersistedPart(schemas, values)))
  {
    var part := PersistedPart(schemas, values);
    SaveReads(doc, loc, part, loc);
    NormalizeCommutesWithRead(Save(doc, loc, part), loc);
    if part == map[] {
      assert NormalizeValues(part) == map[];
    }
  }

  /** A persisted key comes back as it was stored exactly when its value covers the
      default; scalars and lists always do. A key that is not persisted comes back as
      its default, or not at all. */
  lemma RestartRestores(doc: Values, loc: Location, schemas: seq<Schema>, values: Values, key: string)
    ensures var after, defaults := AfterRestart(doc, loc, schemas, values), DefaultsOf(schemas);
      if key in values && Persists(schemas, key) then
        && key in after
        && (Get(after, key) == Normalize(values[key]) <==>
            key !in defaults || Covers(defaults[key], Normalize(values[key])))
        && (!values[key].Map? ==> after[key] == Normalize(values[key]))
      else
        (key in after <==> key in defaults) && Get(after, key) == Get(defaults, key)
  {
    RestartReads(doc, loc, schemas, values);
    var defaults := DefaultsOf(schemas);
    if key in values && Persists(schemas, key) && key in defaults {
      MergeRestoresIffCovers(defaults[key], Normalize(values[key]));
    }
  }

  /** Merging a once merged value over the same default again, with a normalization
      in between, gives the same normal form. */
  lemma MergeAgain(d: Val, s: Val)
    ensures Normalize(Merge(d, Normalize(Merge(d, s)))) == Normalize(Merge(d, s))
    ensures Normalize(Merge(d, Normalize(d))) == Normalize(d)
  {
    NormalizeMerge(d, s);
    NormalizeIdempotent(Merge(d, s));
    NormalizeMerge(d, Normalize(Merge(d, s)));
    MergeAbsorbs(Normalize(d), Normalize(s));
    NormalizeIdempotent(d);
    NormalizeMerge(d, Normalize(d));
    MergeSelf(Normalize(d));
  }

  function ValueAfterRestart(schemas: seq<Schema>, values: Values, key: string): Option<Val> {
    var defaults := DefaultsOf(schemas);
    if key in values && Persists(schemas, key) then
      Some(if key in defaults then Merge(defaults[key], Normalize(values[key])) else Normalize(values[key]))
    else if key in defaults then Some(defaults[key])
    else None
  }

  lemma RestartByKey(doc: Values, loc: Location, schemas: seq<Schema>, values: Values, key: string)
    ensures var after := AfterRestart(doc, loc, schemas, values);
      && (key in after <==> ValueAfterRestart(schemas, values, key).Some?)
      && (key in after ==> after[key] == ValueAfterRestart(schemas, values, key).value)
  {
    RestartReads(doc, loc, schemas, values);
  }

  /** One restart settles the values: a second one changes nothing but number widths. */
  lemma RestartIsStable(doc: Values, loc: Location, schemas: seq<Schema>, values: Values, key: string)
    ensures var once := AfterRestart(doc, loc, schemas, values);
      var twice := AfterRestart(doc, loc, schemas, once);
      && (key in twice <==> key in once)
      && Normalize(Get(twice, key)) == Normalize(Get(once, key))
  {
    var once := AfterRestart(doc, loc, schemas, values);
    RestartByKey(doc, loc, schemas, values, key);
    RestartByKey(doc, loc, schemas, once, key);
    var defaults := DefaultsOf(schemas);
    if key in once {
      NormalizeIdempotent(once[key]);
      if key in defaults {
        MergeAgain(defaults[key], if key in values then Normalize(values[key]) else Nil);
      }
    }
  }

  // ---- validateStoreValue ----

  const MAX_SAFE_INT: int := 0x1F_FFFF_FFFF_FFFF
  const MAX_DEPTH := 64

  predicate StorableNumber(x: Number) {
    match x
    case Integer(kind, n) =>
      (match kind
       case Int => 0 - MAX_SAFE_INT <= n <= MAX_SAFE_INT
       case Int64 => 0 - MAX_SAFE_INT <= n <= MAX_SAFE_INT
       case Uint => n <= MAX_SAFE_INT
       case Uint64 => n <= MAX_SAFE_INT
       case _ => true)
    case Floating(_, f) =>
      && f.Finite?
      && !(f.r == Truncate(f.r) as real && (f.r > MAX_SAFE_INT as real || f.r < 0.0 - MAX_SAFE_INT as real))
  }

  /** `walkStoreValue` finds nothing to object to. */
  predicate Walks(v: Val, depth: nat)
    decreases v
  {
    depth <= MAX_DEPTH &&
    match v
    case Num(x) => StorableNumber(x)
    case List(items) => forall i | 0 <= i < |items| :: Walks(items[i], depth + 1)
    case Map(entries) => forall k | k in entries :: Walks(entries[k], depth + 1)
    case Struct(_) => false
    case _ => true
  }

  datatype PathStep = AtKey(k: string) | AtIndex(i: nat)

  /** What a path of keys and indices leads to. */
  function Inside(v: Val, path: seq<PathStep>): Option<Val>
    decreases |path|
  {
    if path == [] then Some(v)
    else match path[0]
      case AtKey(k) => if v.Map? && k in v.entries then Inside(v.entries[k], path[1..]) else None
      case AtIndex(i) => if v.List? && i < |v.items| then Inside(v.items[i], path[1..]) else None
  }

  /** The value itself may be stored, whatever it contains: no struct, and no number
      that is NaN, infinite, or an integer beyond 2^53 - 1. */
  predicate StorableHere(v: Val) {
    match v
    case Num(x) =>
      (match x
       case Integer(_, n) => -9007199254740991 <= n <= 9007199254740991
       case Floating(_, f) =>
         f.Finite? && (f.r == f.r.Floor as real ==> -9007199254740991.0 <= f.r <= 9007199254740991.0))
    case Struct(_) => false
    case _ => true
  }

  /** Everything inside may be stored, at most 64 levels down. */
  ghost predicate Acceptable(v: Val) {
    AcceptableFrom(v, 0)
  }

  ghost predicate AcceptableFrom(v: Val, depth: nat) {
    forall path :: Inside(v, path).Some? ==> depth + |path| <= 64 && StorableHere(Inside(v, path).value)
  }

  lemma IntegralIff(r: real)
    ensures r == Truncate(r) as real <==> r == r.Floor as real
  {
    if r < 0.0 && r == r.Floor as real {
      var n := r.Floor;
      assert 0.0 - r == (0 - n) as real;
    }
  }

  lemma StorableNumberIff(x: Number)
    ensures StorableNumber(x) <==> StorableHere(Num(x))
  {
    if x.Floating? && x.f.Finite? {
      IntegralIff(x.f.r);
    }
  }

  lemma {:induction false} WalksInside(v: Val, depth: nat, path: seq<PathStep>)
    requires Walks(v, depth) && Inside(v, path).Some?
    ensures depth + |path| <= 64 && StorableHere(Inside(v, path).value)
    decreases |path|
  {
    if path == [] {
      if v.Num? { StorableNumberIff(v.num); }
    } else if path[0].AtKey? {
      WalksInside(v.entries[path[0].k], depth + 1, path[1..]);
    } else {
      WalksInside(v.items[path[0].i], depth + 1, path[1..]);
    }
  }

  lemma AcceptableChild(v: Val, depth: nat, step: PathStep)
    requires AcceptableFrom(v, depth) && Inside(v, [step]).Some?
    ensures AcceptableFrom(Inside(v, [step]).value, depth + 1)
  {
    var child := Inside(v, [step]).value;
    assert [step][1..] == [];
    forall path | Inside(child, path).Some? ensures depth + 1 + |path| <= 64 && StorableHere(Inside(child, path).value) {
      assert ([step] + path)[1..] == path;
      assert Inside(v, [step] + path) == Inside(child, path);
    }
  }

  lemma {:induction false} AcceptableWalks(v: Val, depth: nat)
    requires AcceptableFrom(v, depth)
    ensures Walks(v, depth)
    decreases v
  {
    assert Inside(v, []).Some?;
    match v
    case Num(x) => StorableNumberIff(x);
    case List(items) =>
      forall i | 0 <= i < |items| ensures Walks(items[i], depth + 1) {
        assert [AtIndex(i)][1..] == [];
        assert Inside(v, [AtIndex(i)]) == Some(items[i]);
        AcceptableChild(v, depth, AtIndex(i));
        AcceptableWalks(items[i], depth + 1);
      }
    case Map(entries) =>
      forall k | k in entries ensures Walks(entries[k], depth + 1) {
        assert [AtKey(k)][1..] == [];
        assert Inside(v, [AtKey(k)]) == Some(entries[k]);
        AcceptableChild(v, depth, AtKey(k));
        AcceptableWalks(entries[k], depth + 1);
      }
    case _ =>
  }

  /** Which values may be stored: those in which every path is at most 64 steps long and
      leads to nothing but nil, booleans, strings, lists, maps, and numbers that are
      finite and, if integral, no larger than 2^53 - 1. */
  lemma WalksIffAcceptable(v: Val)
    ensures Walks(v, 0) <==> Acceptable(v)
  {
    if Walks(v, 0) {
      forall path | Inside(v, path).Some? ensures |path| <= 64 && StorableHere(Inside(v, path).value) {
        WalksInside(v, 0, path);
      }
    }
    if Acceptable(v) {
      AcceptableWalks(v, 0);
    }
  }

  function NumericValue(x: Number): Float {
    match x
    case Integer(_, n) => Finite(n as real)
    case Floating(_, f) => f
  }

  /** Validation keeps every number where float64 is exact: two storable numbers
      compare equal exactly when they are the same number. */
  lemma StorableNumbersCompareExactly(x: Number, y: Number)
    requires StorableNumber(x) && StorableNumber(y)
    ensures FloatEq(AsFloat64(x), AsFloat64(y)) <==> NumericValue(x) == NumericValue(y)
  {
    assert forall n | 0 - MAX_SAFE_INT <= n <= MAX_SAFE_INT :: RoundToFloat64(n) == n;
  }

  /** Beyond that range they are not: 2^53 and 2^53 + 1 would compare equal. */
  lemma UnsafeIntegersCollide()
    ensures RoundToFloat64(TWO_53 + 1) == RoundToFloat64(TWO_53)
  {
    assert (TWO_53 + 1) / 2 == TWO_53 / 2 && (TWO_53 + 1) % 2 == 1 && (TWO_53 / 2) % 2 == 0;
    assert RoundMagnitude(TWO_53 + 1, 2) == TWO_53 == RoundMagnitude(TWO_53, 2);
  }

  /** A value that passes validation holds no NaN and equals its normal form, the one
      a restart reads. */
  lemma {:induction false} StorableSurvivesNormalization(v: Val, depth: nat)
    requires Walks(v, depth)
    ensures NaNFree(v) && DeepEquality.Equal(v, Normalize(v), false)
    decreases v
  {
    match v
    case List(items) =>
      forall i | 0 <= i < |items| ensures NaNFree(items[i]) && DeepEquality.Equal(items[i], Normalize(items[i]), false) {
        StorableSurvivesNormalization(items[i], depth + 1);
      }
    case Map(entries) =>
      forall k | k in entries ensures NaNFree(entries[k]) && DeepEquality.Equal(entries[k], Normalize(entries[k]), false) {
        StorableSurvivesNormalization(entries[k], depth + 1);
      }
    case _ =>
  }

  // ---- deepEqualLoose ----

  predicate DeepEqualLoose(a: Val, b: Val)
    decreases a
  {
    if a.Nil? && b.Nil? then true
    else if a.Nil? || b.Nil? then false
    else if a.Num? && b.Num? then FloatEq(AsFloat64(a.num), AsFloat64(b.num))
    else if a.Num? != b.Num? then false
    else if a.Map? && b.Map? then
      |a.entries| == |b.entries| &&
      forall k | k in a.entries :: k in b.entries && DeepEqualLoose(a.entries[k], b.entries[k])
    else if a.List? && b.List? then
      |a.items| == |b.items| &&
      forall i | 0 <= i < |a.items| :: DeepEqualLoose(a.items[i], b.items[i])
    else a == b
  }

  /** The store's own comparison agrees with `isEqual` in its order-sensitive mode,
      so it is symmetric and transitive, and reflexive on everything storable. */
  lemma {:induction false} LooseIsOrderedEqual(a: Val, b: Val)
    ensures DeepEqualLoose(a, b) <==> DeepEquality.Equal(a, b, false)
    decreases a
  {
    if a.Map? && b.Map? {
      forall k | k in a.entries && k in b.entries
        ensures DeepEqualLoose(a.entries[k], b.entries[k]) <==> DeepEquality.Equal(a.entries[k], b.entries[k], false)
      {
        LooseIsOrderedEqual(a.entries[k], b.entries[k]);
      }
      if DeepEqualLoose(a, b) {
        assert a.entries.Keys <= b.entries.Keys;
        DeepEquality.SubsetOfSameSize(a.entries.Keys, b.entries.Keys);
      }
      if DeepEquality.Equal(a, b, false) {
        assert |a.entries.Keys| == |b.entries.Keys|;
      }
    } else if a.List? && b.List? && |a.items| == |b.items| {
      forall i | 0 <= i < |a.items|
        ensures DeepEqualLoose(a.items[i], b.items[i]) <==> DeepEquality.Equal(a.items[i], b.items[i], false)
      {
        LooseIsOrderedEqual(a.items[i], b.items[i]);
      }
    }
  }
}
