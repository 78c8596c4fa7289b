/** The cached copy of a foreign sensor (go/sensor_proxy.go): events while the link
    is up, nothing while it is down, a resync after it. */
module ProxyProtocol {
  import opened GoValues
  import opened StoreLayout
  import opened DeepEquality
  import opened Announcements

  /** `coercePropertyValue` for the proxy's sensor type, as a given function. */
  type Coercion = (string, Val) -> Val

  function Coerced(c: Coercion, props: Values): Values {
    map k | k in props :: c(k, props[k])
  }

  /** The properties that `onBackendPropertyChanged` takes over from a refreshed state. */
  ghost function ResyncDelta(cache: Values, target: Values): Values {
    map k | k in target && !Equal(Get(cache, k), target[k], false) :: target[k]
  }

  function CapabilityList(names: seq<string>): Val {
    List(seq(|names|, i requires 0 <= i < |names| => Str(names[i])))
  }

  ghost function ResyncCapabilities(cached: seq<string>, fetched: seq<string>): seq<string> {
    if Equal(CapabilityList(cached), CapabilityList(fetched), true) then cached else fetched
  }

  /** `host...` is the registry's sensor; `missed` are the properties it changed while
      no event got through, not refetched since. */
  datatype State = State(
    host: Values,
    hostCapabilities: seq<string>,
    cache: Values,
    capabilities: seq<string>,
    linkUp: bool,
    missed: set<string>,
    capabilitiesMissed: bool,
    announced: seq<Change>)

  datatype Step =
    | HostSet(property: string, value: Val, timestamp: int)
    | HostSetCapabilities(names: seq<string>)
    | HostReplaced(props: Values, names: seq<string>)  // the owner registers the sensor anew
    | LinkDown
    | LinkUp
    | Resync(changes: seq<Change>)  // reconnect, re-announcement or the owner's return, fetched at once

  /** A proxy made from the registry's data. */
  function Init(c: Coercion, host: Values, names: seq<string>): State {
    State(host, names, Coerced(c, host), names, true, {}, false, [])
  }

  ghost predicate Enabled(c: Coercion, s: State, l: Step) {
    match l
    case LinkDown => s.linkUp
    case LinkUp => !s.linkUp
    case Resync(changes) => s.linkUp && Enumerates(changes, ResyncDelta(s.cache, Coerced(c, s.host)))
    case _ => true
  }

  ghost function Apply(c: Coercion, s: State, l: Step): State {
    match l
    case HostSet(property, value, timestamp) =>
      var s1 := s.(host := s.host[property := value]);
      if !s.linkUp || property == "" then s1.(missed := s.missed + {property})
      else
        var v, s2 := c(property, value), s1.(missed := s.missed - {property});
        if Equal(Get(s.cache, property), v, false) then s2
        else s2.(cache := s.cache[property := v], announced := s.announced + [Change(property, v, timestamp)])
    case HostSetCapabilities(names) =>
      if s.linkUp then s.(hostCapabilities := names, capabilities := names, capabilitiesMissed := false)
      else s.(hostCapabilities := names, capabilitiesMissed := true)
    case HostReplaced(props, names) =>
      s.(host := props, hostCapabilities := names, missed := s.missed + props.Keys, capabilitiesMissed := true)
    case LinkDown => s.(linkUp := false)
    case LinkUp => s.(linkUp := true)
    case Resync(changes) =>
      s.(cache := s.cache + ResyncDelta(s.cache, Coerced(c, s.host)),
         capabilities := ResyncCapabilities(s.capabilities, s.hostCapabilities),
         missed := {},
         capabilitiesMissed := false,
         announced := s.announced + changes)
  }

  ghost predicate AgreesAt(c: Coercion, s: State, k: string) {
    k in s.host ==> Agree(Get(s.cache, k), c(k, s.host[k]))
  }

  ghost predicate Inv(c: Coercion, s: State, base: Values) {
    && (forall k | k !in s.missed :: AgreesAt(c, s, k))
    && (!s.capabilitiesMissed ==>
          s.capabilities == s.hostCapabilities
          || Equal(CapabilityList(s.capabilities), CapabilityList(s.hostCapabilities), true))
    && s.cache == Replay(base, s.announced)
  }

  lemma HostSetInv(c: Coercion, s: State, l: Step, base: Values)
    requires Inv(c, s, base) && l.HostSet?
    ensures Inv(c, Apply(c, s, l), base)
  {
    var s' := Apply(c, s, l);
    assert s'.announced != s.announced ==> s'.announced[..|s'.announced| - 1] == s.announced;
    forall k | k !in s'.missed ensures AgreesAt(c, s', k) {
      HostSetAgreesAt(c, s, l, k);
    }
  }

  lemma HostSetAgreesAt(c: Coercion, s: State, l: Step, k: string)
    requires l.HostSet? && (k !in s.missed ==> AgreesAt(c, s, k))
    ensures k !in Apply(c, s, l).missed ==> AgreesAt(c, Apply(c, s, l), k)
  {
  }

  lemma ResyncInv(c: Coercion, s: State, l: Step, base: Values)
    requires Inv(c, s, base) && Enabled(c, s, l) && l.Resync?
    ensures Inv(c, Apply(c, s, l), base)
  {
    var s', target := Apply(c, s, l), Coerced(c, s.host);
    ReplayAppend(base, s.announced, l.changes);
    ReplayEnumeration(s.cache, l.changes, ResyncDelta(s.cache, target));
    forall k ensures AgreesAt(c, s', k) {
      if k in s.host && k !in ResyncDelta(s.cache, target) {
        assert Equal(Get(s.cache, k), target[k], false);
      }
    }
  }

  lemma StepInv(c: Coercion, s: State, l: Step, base: Values)
    requires Inv(c, s, base) && Enabled(c, s, l)
    ensures Inv(c, Apply(c, s, l), base)
  {
    match l
    case HostSet(_, _, _) => HostSetInv(c, s, l, base);
    case Resync(_) => ResyncInv(c, s, l, base);
    case HostReplaced(_, _) =>
      assert forall k :: AgreesAt(c, s, k) || k in s.missed;
      assert forall k | k !in l.props :: AgreesAt(c, Apply(c, s, l), k);
    case _ => assert forall k :: AgreesAt(c, Apply(c, s, l), k) <==> AgreesAt(c, s, k);
  }

  // ---- whole runs ----

  ghost predicate CanRun(c: Coercion, s: State, ls: seq<Step>)
    decreases |ls|
  {
    ls == [] || (Enabled(c, s, ls[0]) && CanRun(c, Apply(c, s, ls[0]), ls[1..]))
  }

  ghost function Run(c: Coercion, s: State, ls: seq<Step>): State
    decreases |ls|
  {
    if ls == [] then s else Run(c, Apply(c, s, ls[0]), ls[1..])
  }

  /** The link coming back and, while it is up, a sensor registered anew are followed by
      a resync at once. */
  predicate Recovers(linkUp: bool, ls: seq<Step>)
    decreases |ls|
  {
    ls == [] ||
    (&& (ls[0].LinkUp? || (ls[0].HostReplaced? && linkUp) ==> |ls| > 1 && ls[1].Resync?)
     && Recovers((linkUp || ls[0].LinkUp?) && !ls[0].LinkDown?, ls[1..]))
  }

  lemma {:induction false} RunInv(c: Coercion, s: State, ls: seq<Step>, base: Values)
    requires Inv(c, s, base) && CanRun(c, s, ls)
    ensures Inv(c, Run(c, s, ls), base)
    decreases |ls|
  {
    if ls != [] {
      StepInv(c, s, ls[0], base);
      RunInv(c, Apply(c, s, ls[0]), ls[1..], base);
    }
  }

  /** Nothing but events without a property name is missed while the link is up,
      unless the resync comes next. */
  predicate UpToDate(s: State, ls: seq<Step>) {
    s.linkUp && (ls == [] || !ls[0].Resync?) ==> s.missed <= {""} && !s.capabilitiesMissed
  }

  lemma LinkAfter(c: Coercion, s: State, l: Step)
    requires Enabled(c, s, l)
    ensures Apply(c, s, l).linkUp <==> (s.linkUp || l.LinkUp?) && !l.LinkDown?
  {
  }

  lemma MissesNothing(c: Coercion, s: State, l: Step)
    requires Enabled(c, s, l) && s.linkUp && !l.HostReplaced?
    requires l.Resync? || (s.missed <= {""} && !s.capabilitiesMissed)
    ensures Apply(c, s, l).missed <= {""} && !Apply(c, s, l).capabilitiesMissed
  {
  }

  lemma StaysUpToDate(c: Coercion, s: State, ls: seq<Step>)
    requires ls != [] && Enabled(c, s, ls[0]) && Recovers(s.linkUp, ls) && UpToDate(s, ls)
    ensures Recovers(Apply(c, s, ls[0]).linkUp, ls[1..]) && UpToDate(Apply(c, s, ls[0]), ls[1..])
  {
    LinkAfter(c, s, ls[0]);
    if s.linkUp && !ls[0].HostReplaced? {
      MissesNothing(c, s, ls[0]);
    }
  }

  lemma {:induction false} NothingMissed(c: Coercion, s: State, ls: seq<Step>)
    requires CanRun(c, s, ls) && Recovers(s.linkUp, ls) && UpToDate(s, ls)
    ensures UpToDate(Run(c, s, ls), [])
    decreases |ls|
  {
    if ls != [] {
      StaysUpToDate(c, s, ls);
      NothingMissed(c, Apply(c, s, ls[0]), ls[1..]);
    }
  }

  /** Whenever the link is up and each reconnect was followed by its resync, every named
      property of the host agrees with the proxy's copy; and an observer who applies
      what was announced holds exactly that copy. */
  lemma CacheAgrees(c: Coercion, host: Values, names: seq<string>, ls: seq<Step>, s: State)
    requires CanRun(c, Init(c, host, names), ls) && s == Run(c, Init(c, host, names), ls)
    requires Recovers(true, ls)
    ensures s.linkUp ==> forall k | k in s.host && k != "" :: Agree(Get(s.cache, k), c(k, s.host[k]))
    ensures s.linkUp ==>
      forall k | k in s.host && k != "" && NaNFree(c(k, s.host[k])) :: Equal(Get(s.cache, k), c(k, s.host[k]), false)
    ensures s.linkUp ==> Equal(CapabilityList(s.capabilities), CapabilityList(s.hostCapabilities), true)
    ensures s.cache == Replay(Coerced(c, host), s.announced)
  {
    var s0 := Init(c, host, names);
    assert Inv(c, s0, s0.cache);
    RunInv(c, s0, ls, s0.cache);
    NothingMissed(c, s0, ls);
    EqualReflexive(CapabilityList(s.capabilities), true);
    if s.linkUp {
      forall k | k in s.host && k != ""
        ensures Agree(Get(s.cache, k), c(k, s.host[k]))
        ensures NaNFree(c(k, s.host[k])) ==> Equal(Get(s.cache, k), c(k, s.host[k]), false)
      {
        assert AgreesAt(c, s, k);
        EqualReflexive(c(k, s.host[k]), false);
      }
    }
  }

  /** A resync leaves nothing but refreshed properties in the copy if and only if there
      was nothing else before: a property that is only cached stays as it is. */
  lemma ResyncReplacesAllIff(c: Coercion, s: State, changes: seq<Change>)
    requires Enabled(c, s, Resync(changes))
    ensures var s' := Apply(c, s, Resync(changes));
      && (s'.cache.Keys <= s.host.Keys <==> s.cache.Keys <= s.host.Keys)
      && (forall k | k in s.cache && k !in s.host :: k in s'.cache && s'.cache[k] == s.cache[k])
      && ((forall k :: Agree(Get(s'.cache, k), Get(Coerced(c, s.host), k))) <==>
            forall k | k in s.cache && k !in s.host :: Agree(s.cache[k], Nil))
  {
    var s', target := Apply(c, s, Resync(changes)), Coerced(c, s.host);
    forall k ensures Agree(Get(s'.cache, k), Get(target, k)) <==> (k in s.cache && k !in s.host ==> Agree(s.cache[k], Nil)) {
      ResyncAgreesAt(c, s, changes, k);
    }
    if s'.cache.Keys <= s.host.Keys {
      forall k | k in s.cache ensures k in s.host {
        assert k in s'.cache;
      }
    }
  }

  lemma ResyncAgreesAt(c: Coercion, s: State, changes: seq<Change>, k: string)
    requires Enabled(c, s, Resync(changes))
    ensures Agree(Get(Apply(c, s, Resync(changes)).cache, k), Get(Coerced(c, s.host), k)) <==>
            (k in s.cache && k !in s.host ==> Agree(s.cache[k], Nil))
  {
    EqualReflexive(Get(Coerced(c, s.host), k), false);
    if k in s.host && k !in ResyncDelta(s.cache, Coerced(c, s.host)) {
      assert Equal(Get(s.cache, k), Get(Coerced(c, s.host), k), false);
    }
  }

  lemma RunCons(c: Coercion, s: State, l: Step, ls: seq<Step>)
    requires Enabled(c, s, l) && CanRun(c, Apply(c, s, l), ls)
    ensures CanRun(c, s, [l] + ls) && Run(c, s, [l] + ls) == Run(c, Apply(c, s, l), ls)
  {
    assert ([l] + ls)[1..] == ls;
  }

  /** A sensor registered anew with fewer properties while the link was down: the
      resync after the reconnect keeps the old one. */
  lemma CachedOnlyPropertyStays(c: Coercion, host: Values, fewer: Values, property: string)
    requires property in host && property !in fewer
    requires forall k | k in fewer :: k in host && NaNFree(c(k, fewer[k])) && c(k, fewer[k]) == c(k, host[k])
    ensures var ls := [LinkDown] + ([HostReplaced(fewer, [])] + ([LinkUp] + ([Resync([])] + [])));
      var s0 := Init(c, host, []);
      && CanRun(c, s0, ls) && Recovers(true, ls)
      && Run(c, s0, ls).linkUp && property in Run(c, s0, ls).cache && property !in Run(c, s0, ls).host
  {
    var s0 := Init(c, host, []);
    var s1 := Apply(c, s0, LinkDown);
    var s2 := Apply(c, s1, HostReplaced(fewer, []));
    var s3 := Apply(c, s2, LinkUp);
    NothingToRefresh(c, s3);
    assert CanRun(c, Apply(c, s3, Resync([])), []);
    RunCons(c, s3, Resync([]), []);
    RunCons(c, s2, LinkUp, [Resync([])] + []);
    RunCons(c, s1, HostReplaced(fewer, []), [LinkUp] + ([Resync([])] + []));
    RunCons(c, s0, LinkDown, [HostReplaced(fewer, [])] + ([LinkUp] + ([Resync([])] + [])));
    RecoversAtOnce(fewer);
  }

  lemma RecoversAtOnce(fewer: Values)
    ensures Recovers(true, [LinkDown] + ([HostReplaced(fewer, [])] + ([LinkUp] + ([Resync([])] + []))))
  {
    var l1, l2 := [LinkUp] + ([Resync([])] + []), [Resync([])] + [];
    assert l1[1..] == l2 && ([HostReplaced(fewer, [])] + l1)[1..] == l1;
    assert ([LinkDown] + ([HostReplaced(fewer, [])] + l1))[1..] == [HostReplaced(fewer, [])] + l1;
    assert l2[1..] == [] && Recovers(true, l2);
  }

  lemma NothingToRefresh(c: Coercion, s: State)
    requires forall k | k in s.host :: k in s.cache && NaNFree(c(k, s.host[k])) && s.cache[k] == c(k, s.host[k])
    ensures ResyncDelta(s.cache, Coerced(c, s.host)) == map[] && Enumerates([], ResyncDelta(s.cache, Coerced(c, s.host)))
  {
    forall k | k in s.host ensures k !in ResyncDelta(s.cache, Coerced(c, s.host)) {
      EqualReflexive(c(k, s.host[k]), false);
    }
  }

  /** Without the resync (its fetch failed) the copy may stay stale while the link is
      up, but only in what changed meanwhile. */
  lemma OnlyMissedPropertiesAreStale(c: Coercion, host: Values, names: seq<string>, ls: seq<Step>, s: State, k: string)
    requires CanRun(c, Init(c, host, names), ls) && s == Run(c, Init(c, host, names), ls)
    requires k in s.host && !Agree(Get(s.cache, k), c(k, s.host[k]))
    ensures k in s.missed
  {
    var s0 := Init(c, host, names);
    assert Inv(c, s0, s0.cache);
    RunInv(c, s0, ls, s0.cache);
    assert !AgreesAt(c, s, k);
  }

  lemma FailedResyncStaysStale()
    ensures var c: Coercion := (_, v) => v;
      var ls := [LinkDown, HostSet("on", Bool(true), 1), LinkUp];
      var s := Run(c, Init(c, map["on" := Bool(false)], []), ls);
      CanRun(c, Init(c, map["on" := Bool(false)], []), ls) && s.linkUp && !Agree(Get(s.cache, "on"), c("on", s.host["on"]))
  {
    var c: Coercion := (_, v) => v;
    var s0 := Init(c, map["on" := Bool(false)], []);
    var s1 := Apply(c, s0, LinkDown);
    var s2 := Apply(c, s1, HostSet("on", Bool(true), 1));
    var s3 := Apply(c, s2, LinkUp);
    assert CanRun(c, s3, []);
    RunCons(c, s2, LinkUp, []);
    RunCons(c, s1, HostSet("on", Bool(true), 1), [LinkUp] + []);
    RunCons(c, s0, LinkDown, [HostSet("on", Bool(true), 1)] + ([LinkUp] + []));
    assert [LinkDown] + ([HostSet("on", Bool(true), 1)] + ([LinkUp] + [])) == [LinkDown, HostSet("on", Bool(true), 1), LinkUp];
    assert s3.cache["on"] == Bool(false);
  }

  /** A second resync of an unchanged sensor announces nothing that is free of NaN. */
  lemma ResyncAnnouncesOnlyDifferences(cache: Values, target: Values)
    ensures forall k | k in ResyncDelta(cache, target) :: !Equal(Get(cache, k), target[k], false)
    ensures ResyncDelta(cache + ResyncDelta(cache, target), target) == map[] <==>
            forall k | k in ResyncDelta(cache, target) :: NaNFree(target[k])
  {
    var delta := ResyncDelta(cache, target);
    var again := ResyncDelta(cache + delta, target);
    forall k | k in target ensures k in again <==> k in delta && !NaNFree(target[k]) {
      EqualReflexive(target[k], false);
    }
    if again == map[] {
      forall k | k in delta ensures NaNFree(target[k]) {
        assert k !in again;
      }
    } else {
      var k :| k in again;
      assert k in delta;
    }
  }
}

/** `sensorProxy`: its cached fields and the handlers that edit them. */
module ProxyObjects {
  import opened GoValues
  import opened StoreLayout
  import opened DeepEquality
  import opened Announcements
  import opened ProxyProtocol

  class SensorProxy {
    const coerce: Coercion
    var properties: Values
    var capabilities: seq<string>
    var displayName: string
    var connected: bool
    var announced: seq<Change>
    var connectedChanges: seq<bool>

    constructor (coerce: Coercion, name: string, displayName: string, connected: bool, host: Values, names: seq<string>)
      ensures properties == Coerced(coerce, host) && capabilities == names && announced == []
      ensures properties.Keys == host.Keys && forall k | k in host :: properties[k] == coerce(k, host[k])
      ensures this.displayName == if displayName != "" then displayName else name
      ensures this.coerce == coerce && this.connected == connected
    {
      this.coerce := coerce;
      properties, capabilities, announced := Coerced(coerce, host), names, [];
      this.displayName := if displayName != "" then displayName else name;
      this.connected, connectedChanges := connected, [];
    }

    /** `setPropertyWithTimestamp` on the cached properties. */
    method SetProperty(property: string, value: Val, timestamp: int) returns (taken: bool)
      modifies this`properties, this`announced
      ensures taken <==> !Equal(Get(old(properties), property), value, false)
      ensures properties == if taken then old(properties)[property := value] else old(properties)
      ensures announced == if taken then old(announced) + [Change(property, value, timestamp)] else old(announced)
    {
      var same := IsEqual(Get(properties, property), value, false);
      if same {
        return false;
      }
      properties := properties[property := value];
      announced := announced + [Change(property, value, timestamp)];
      return true;
    }

    /** "property:changed": the coerced value is taken over and announced, with the
        event's time, unless it equals the copy's; an event without a property name is
        ignored. This is what the protocol does to the copy when an event arrives. */
    method OnPropertyEvent(property: string, value: Val, timestamp: int)
      modifies this`properties, this`announced
      ensures property == "" || Equal(Get(old(properties), property), coerce(property, value), false) ==>
              properties == old(properties) && announced == old(announced)
      ensures property != "" && !Equal(Get(old(properties), property), coerce(property, value), false) ==>
              && properties == old(properties)[property := coerce(property, value)]
              && announced == old(announced) + [Change(property, coerce(property, value), timestamp)]
      ensures forall s: State | s.linkUp && s.cache == old(properties) && s.announced == old(announced) ::
        var s' := Apply(coerce, s, HostSet(property, value, timestamp));
        properties == s'.cache && announced == s'.announced
    {
      if property != "" {
        var _ := SetProperty(property, coerce(property, value), timestamp);
      }
    }

    /** `applyRefreshedState`: `delta` is what differs from the copy once coerced; it is
        taken over and announced, key by key, and nothing else is. */
    method ApplyRefreshedState(name: string, names: seq<string>, state: Values, now: int)
      returns (ghost delta: Values, ghost changes: seq<Change>)
      modifies this
      ensures displayName == if name != "" then name else old(displayName)
      ensures capabilities == if Equal(CapabilityList(old(capabilities)), CapabilityList(names), true)
                              then old(capabilities) else names
      ensures capabilities == ResyncCapabilities(old(capabilities), names)
      ensures forall k :: k in delta <==> k in state && !Equal(Get(old(properties), k), coerce(k, state[k]), false)
      ensures forall k | k in delta :: delta[k] == coerce(k, state[k])
      ensures delta == ResyncDelta(old(properties), Coerced(coerce, state))
      ensures properties == old(properties) + delta
      ensures announced == old(announced) + changes && Enumerates(changes, delta) && Stamped(changes, now)
      ensures connected == old(connected) && connectedChanges == old(connectedChanges)
    {
      if name != "" {
        displayName := name;
      }
      var same := IsEqual(CapabilityList(capabilities), CapabilityList(names), true);
      if !same {
        capabilities := names;
      }
      delta, changes := RefreshProperties(state, now);
    }

    method RefreshProperties(state: Values, now: int) returns (ghost delta: Values, ghost changes: seq<Change>)
      modifies this`properties, this`announced
      ensures delta == ResyncDelta(old(properties), Coerced(coerce, state))
      ensures properties == old(properties) + delta
      ensures announced == old(announced) + changes && Enumerates(changes, delta) && Stamped(changes, now)
    {
      ghost var before, target := properties, Coerced(coerce, state);
      ghost var was := announced;
      changes, delta := [], map[];
      var keys := state.Keys;
      while keys != {}
        invariant Refreshed(before, target, keys, properties, delta)
        invariant Enumerates(changes, delta)
        invariant announced == was + changes && Stamped(changes, now)
        decreases keys
      {
        var k :| k in keys;
        var value := coerce(k, state[k]);
        RefreshOne(before, target, keys, properties, delta, k);
        keys := keys - {k};
        var taken := SetProperty(k, value, now);
        if taken {
          EnumerateOneMore(changes, delta, Change(k, value, now));
          AppendToLog(was, changes, Change(k, value, now));
          StampOneMore(changes, Change(k, value, now));
          delta, changes := delta[k := value], changes + [Change(k, value, now)];
        }
      }
      AllRefreshed(before, target, properties, delta);
    }

    /** `setConnected`: listeners hear of changes only. */
    method SetConnected(value: bool)
      modifies this`connected, this`connectedChanges
      ensures connected == value
      ensures connectedChanges == old(connectedChanges) + if value != old(connected) then [value] else []
    {
      if connected == value {
        return;
      }
      connected := value;
      connectedChanges := connectedChanges + [value];
    }

    /** "sensor:capabilities:changed" with `toStringSlice`: anything but strings is dropped. */
    method OnCapabilitiesEvent(raw: Val)
      modifies this`capabilities
      ensures capabilities == if raw.List? then StringsIn(raw.items) else old(capabilities)
    {
      if !raw.List? {
        return;
      }
      var names: seq<string> := [];
      for i := 0 to |raw.items|
        invariant names == StringsIn(raw.items[..i])
        invariant capabilities == old(capabilities)
      {
        assert raw.items[..i + 1][..i] == raw.items[..i];
        if raw.items[i].Str? {
          names := names + [raw.items[i].s];
        }
      }
      assert raw.items[..|raw.items|] == raw.items;
      capabilities := names;
    }
  }

  function StringsIn(items: seq<Val>): seq<string>
    decreases |items|
  {
    if items == [] then []
    else
      var init, last := StringsIn(items[..|items| - 1]), items[|items| - 1];
      if last.Str? then init + [last.s] else init
  }

  /** `names` are the strings among `items`, in order: those at the positions `at`. */
  ghost predicate StringsAt(items: seq<Val>, names: seq<string>, at: seq<nat>) {
    && |names| == |at|
    && (forall j | 0 <= j < |at| :: at[j] < |items| && items[at[j]] == Str(names[j]))
    && (forall j, k | 0 <= j < k < |at| :: at[j] < at[k])
    && (forall i: nat | i < |items| && items[i].Str? :: i in at)
  }

  lemma StringsOneMore(items: seq<Val>, names: seq<string>, at: seq<nat>, last: Val)
    requires StringsAt(items, names, at)
    ensures !last.Str? ==> StringsAt(items + [last], names, at)
    ensures last.Str? ==> StringsAt(items + [last], names + [last.s], at + [|items|])
  {
    var longer := items + [last];
    forall i: nat | i < |longer| && longer[i].Str? ensures i in at + [|items|] && (!last.Str? ==> i in at) {
      if i < |items| {
        assert items[i].Str? && i in at;
      } else {
        assert (at + [|items|])[|at|] == i;
      }
    }
  }

  lemma {:induction false} StringsInAre(items: seq<Val>) returns (at: seq<nat>)
    ensures StringsAt(items, StringsIn(items), at)
    decreases |items|
  {
    at := [];
    if items != [] {
      var init, last := items[..|items| - 1], items[|items| - 1];
      at := StringsInAre(init);
      StringsOneMore(init, StringsIn(init), at, last);
      assert items == init + [last];
      if last.Str? {
        at := at + [|init|];
      }
    }
  }

  /** A capability list survives the wire. */
  lemma {:induction false} StringsSurviveTheWire(names: seq<string>)
    ensures StringsIn(CapabilityList(names).items) == names
    decreases |names|
  {
    if names != [] {
      var items := CapabilityList(names).items;
      assert items[..|items| - 1] == CapabilityList(names[..|names| - 1]).items;
      StringsSurviveTheWire(names[..|names| - 1]);
    }
  }

  lemma AppendToLog(log: seq<Change>, changes: seq<Change>, c: Change)
    ensures log + changes + [c] == log + (changes + [c])
  {
  }

  /** The resync loop with `left` still to visit. */
  ghost predicate Refreshed(before: Values, target: Values, left: set<string>, props: Values, delta: Values) {
    && left <= target.Keys
    && (forall k :: k in delta <==> k in target && k !in left && !Equal(Get(before, k), target[k], false))
    && (forall k | k in delta :: delta[k] == target[k])
    && props == before + delta
  }

  lemma RefreshOne(before: Values, target: Values, left: set<string>, props: Values, delta: Values, k: string)
    requires Refreshed(before, target, left, props, delta) && k in left
    ensures Get(props, k) == Get(before, k) && k !in delta
    ensures
      if Equal(Get(before, k), target[k], false) then Refreshed(before, target, left - {k}, props, delta)
      else Refreshed(before, target, left - {k}, props[k := target[k]], delta[k := target[k]])
  {
  }

  lemma AllRefreshed(before: Values, target: Values, props: Values, delta: Values)
    requires Refreshed(before, target, {}, props, delta)
    ensures delta == ResyncDelta(before, target)
  {
  }
}
