/** The nested store document of go/store_layout.go as a value, and the flat map
    from locations to value maps that it stands for. */
module StoreLayout {
  import opened GoValues

  type Values = map<string, Val>

  /** Ids are literal map keys, never parsed. */
  datatype Location = Plugin | Camera(id: string) | Sensor(id: string)

  const VERSION_KEY := "__v"
  const LAYOUT_VERSION := 2

  /** Go's `v.(map[string]any)`. */
  function AsMap(v: Val): Option<Values> {
    match v
    case Map(m) => Some(m)
    case _ => None
  }

  /** The top-level key of the container a location lives in. */
  function ContainerKey(loc: Location): string {
    match loc
    case Plugin => "plugin"
    case Camera(_) => "cameras"
    case Sensor(_) => "sensors"
  }

  function ReadLocation(doc: Values, loc: Location): Option<Values> {
    var top := AsMap(Get(doc, ContainerKey(loc)));
    match loc
    case Plugin => top
    case _ => if top.None? then None else AsMap(Get(top.value, loc.id))
  }

  /** `ensureChildMap`: the child that is there, or a new empty one in its place. */
  function ChildOrEmpty(parent: Values, key: string): Values {
    match AsMap(Get(parent, key))
    case Some(m) => m
    case None => map[]
  }

  function WriteLocation(doc: Values, loc: Location, values: Values): Values {
    match loc
    case Plugin => doc["plugin" := Map(values)]
    case _ =>
      var key := ContainerKey(loc);
      doc[key := Map(ChildOrEmpty(doc, key)[loc.id := Map(values)])]
  }

  function DeleteLocation(doc: Values, loc: Location): Values {
    match loc
    case Plugin => doc - {"plugin"}
    case _ =>
      var key := ContainerKey(loc);
      match AsMap(Get(doc, key))
      case None => doc
      case Some(child) =>
        var rest := child - {loc.id};
        if rest == map[] then doc - {key} else doc[key := Map(rest)]
  }

  /** The edit of the document in `save`: an empty value map reads as "never set". */
  function Save(doc: Values, loc: Location, values: Values): Values {
    if values == map[] then DeleteLocation(doc, loc) else WriteLocation(doc, loc, values)
  }

  // ---- the document refines a flat map ----

  ghost function Flat(doc: Values): imap<Location, Values> {
    imap loc | ReadLocation(doc, loc).Some? :: ReadLocation(doc, loc).value
  }

  /** The same save on the flat map. */
  ghost function FlatSave(flat: imap<Location, Values>, loc: Location, values: Values): imap<Location, Values> {
    if values == map[] then imap l | l in flat && l != loc :: flat[l] else flat[loc := values]
  }

  lemma SaveReads(doc: Values, loc: Location, values: Values, other: Location)
    ensures ReadLocation(Save(doc, loc, values), other) ==
            if other != loc then ReadLocation(doc, other)
            else if values == map[] then None else Some(values)
  {
    assert "cameras"[0] != "sensors"[0] && "cameras"[0] != "plugin"[0] && "sensors"[0] != "plugin"[0];
    var key, after := ContainerKey(loc), Save(doc, loc, values);
    if ContainerKey(other) != key {
      assert Get(after, ContainerKey(other)) == Get(doc, ContainerKey(other));
    } else if !loc.Plugin? && values == map[] && AsMap(Get(doc, key)).Some? {
      var rest := doc[key].entries - {loc.id};
      assert other == loc || Get(rest, other.id) == Get(doc[key].entries, other.id);
      assert rest == map[] ==> Get(rest, other.id) == Nil;
    }
  }

  lemma SaveRefinesFlat(doc: Values, loc: Location, values: Values)
    ensures Flat(Save(doc, loc, values)) == FlatSave(Flat(doc), loc, values)
  {
    forall other: Location
      ensures ReadLocation(Save(doc, loc, values), other) ==
              if other != loc then ReadLocation(doc, other)
              else if values == map[] then None else Some(values)
    {
      SaveReads(doc, loc, values, other);
    }
  }

  datatype SaveCall = SaveCall(loc: Location, values: Values)

  function SaveAll(doc: Values, calls: seq<SaveCall>): Values
    decreases |calls|
  {
    if calls == [] then doc
    else SaveAll(Save(doc, calls[0].loc, calls[0].values), calls[1..])
  }

  ghost function FlatSaveAll(flat: imap<Location, Values>, calls: seq<SaveCall>): imap<Location, Values>
    decreases |calls|
  {
    if calls == [] then flat
    else FlatSaveAll(FlatSave(flat, calls[0].loc, calls[0].values), calls[1..])
  }

  /** Under any run of saves the nested document behaves as the flat map does, so
      a load returns the last save and other locations are untouched. */
  lemma {:induction false} RunRefinesFlat(doc: Values, calls: seq<SaveCall>)
    ensures Flat(SaveAll(doc, calls)) == FlatSaveAll(Flat(doc), calls)
    decreases |calls|
  {
    if calls != [] {
      SaveRefinesFlat(doc, calls[0].loc, calls[0].values);
      RunRefinesFlat(Save(doc, calls[0].loc, calls[0].values), calls[1..]);
    }
  }

  /** A container is present only while it holds an entry, and holds value maps only. */
  ghost predicate TidyContainer(doc: Values, key: string) {
    key in doc ==>
      && doc[key].Map? && doc[key].entries != map[]
      && forall id | id in doc[key].entries :: doc[key].entries[id].Map?
  }

  ghost predicate Tidy(doc: Values) {
    TidyContainer(doc, "cameras") && TidyContainer(doc, "sensors")
  }

  lemma SaveKeepsTidy(doc: Values, loc: Location, values: Values)
    requires Tidy(doc)
    ensures Tidy(Save(doc, loc, values))
  {
    if !loc.Plugin? && values != map[] {
      var key := ContainerKey(loc);
      assert loc.id in Save(doc, loc, values)[key].entries;
    }
  }

  /** Removing the last entry of a section prunes its container: in a tidy
      document a container exists exactly while some location lives in it. */
  lemma {:induction false} ContainersArePruned(doc: Values, calls: seq<SaveCall>)
    requires Tidy(doc)
    ensures var after := SaveAll(doc, calls);
      && Tidy(after)
      && ("cameras" in after <==> exists id :: ReadLocation(after, Camera(id)).Some?)
      && ("sensors" in after <==> exists id :: ReadLocation(after, Sensor(id)).Some?)
    decreases |calls|
  {
    if calls == [] {
      if "cameras" in doc {
        var id :| id in doc["cameras"].entries;
        assert ReadLocation(doc, Camera(id)).Some?;
      }
      if "sensors" in doc {
        var id :| id in doc["sensors"].entries;
        assert ReadLocation(doc, Sensor(id)).Some?;
      }
    } else {
      SaveKeepsTidy(doc, calls[0].loc, calls[0].values);
      ContainersArePruned(Save(doc, calls[0].loc, calls[0].values), calls[1..]);
    }
  }

  // ---- the document's keys ----

  /** Where the code finds the values of a location: the plugin's own under "plugin",
      the others under their id in "cameras" or "sensors". */
  lemma LocationsInTheDocument(doc: Values, id: string)
    ensures ReadLocation(doc, Plugin) == if "plugin" in doc && doc["plugin"].Map? then Some(doc["plugin"].entries) else None
    ensures ReadLocation(doc, Camera(id)) == ReadEntry(doc, "cameras", id)
    ensures ReadLocation(doc, Sensor(id)) == ReadEntry(doc, "sensors", id)
  {
  }

  function ReadEntry(doc: Values, container: string, id: string): Option<Values> {
    if container in doc && doc[container].Map? && id in doc[container].entries && doc[container].entries[id].Map?
    then Some(doc[container].entries[id].entries) else None
  }

  /** A save touches no other key of the document, and no other entry of its container. */
  lemma SaveTouchesItsEntryOnly(doc: Values, loc: Location, values: Values, key: string)
    ensures key != (if loc.Plugin? then "plugin" else if loc.Camera? then "cameras" else "sensors") ==>
              (key in Save(doc, loc, values) <==> key in doc) && Get(Save(doc, loc, values), key) == Get(doc, key)
    ensures !loc.Plugin? ==>
      var container := if loc.Camera? then "cameras" else "sensors";
      var before, after := EntriesOf(doc, container), EntriesOf(Save(doc, loc, values), container);
      after == if values == map[] then before - {loc.id} else before[loc.id := Map(values)]
  {
    if !loc.Plugin? && values == map[] && AsMap(Get(doc, ContainerKey(loc))).None? {
      assert EntriesOf(doc, ContainerKey(loc)) - {loc.id} == map[];
    }
  }

  function EntriesOf(doc: Values, container: string): Values {
    if container in doc && doc[container].Map? then doc[container].entries else map[]
  }

  // ---- the layout upgrade ----

  function Truncate(r: real): int {
    if r >= 0.0 then r.Floor else 0 - (0.0 - r).Floor
  }

  /** `toInt64` (go/sensor_proxy.go). A float outside the int64 range converts to
      an unspecified value in Go; here it keeps its integer part. */
  function ToInt64(v: Val): Option<int> {
    match v
    case Num(x) =>
      (match x
       case Integer(_, n) => if n > MAX_INT64 then None else Some(n)
       case Floating(_, f) => if f.Finite? then Some(Truncate(f.r)) else None)
    case _ => None
  }

  predicate OnCurrentLayout(doc: Values) {
    ToInt64(Get(doc, VERSION_KEY)) == Some(LAYOUT_VERSION)
  }

  /** The upgraded document, and whether anything changed. */
  function UpgradeLayout(doc: Values): (r: (Values, bool)) {
    if OnCurrentLayout(doc) then (doc, false)
    else ((doc - {"sensors"})[VERSION_KEY := Num(Integer(Int, LAYOUT_VERSION))], true)
  }

  /** A document on another layout loses its sensors and gets version 2 under "__v"; all
      else stays. On the current layout, whatever width the version has, nothing changes. */
  lemma UpgradeIs(doc: Values, key: string)
    ensures var up := UpgradeLayout(doc).0;
      && (ToInt64(Get(doc, "__v")) == Some(2) ==> up == doc)
      && (ToInt64(Get(doc, "__v")) != Some(2) ==>
            && "sensors" !in up && "__v" in up && up["__v"] == Num(Integer(Int, 2))
            && (key != "sensors" && key != "__v" ==> (key in up <==> key in doc) && Get(up, key) == Get(doc, key)))
  {
    assert "__v"[0] != "sensors"[0];
  }

  /** One application reaches a fixed point, keeps every plugin and camera value
      map, and drops a sensor section only when it rewrites the document. */
  lemma UpgradeIsFixedPoint(doc: Values)
    ensures var (up, changed) := UpgradeLayout(doc);
      && UpgradeLayout(up) == (up, false)
      && (changed <==> up != doc)
      && (forall loc: Location | !loc.Sensor? :: ReadLocation(up, loc) == ReadLocation(doc, loc))
      && (forall loc: Location | loc.Sensor? :: ReadLocation(up, loc) == if changed then None else ReadLocation(doc, loc))
  {
    var (up, changed) := UpgradeLayout(doc);
    if changed {
      assert ToInt64(up[VERSION_KEY]) != ToInt64(Get(doc, VERSION_KEY));
    }
  }
}
