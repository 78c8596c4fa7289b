/** The proxies of consumed sensors: opened for one sensor each, called, cleaned up. */
module ProxyPool {
  import opened GoValues
  import opened StoreLayout

  /** What the registry sends of a sensor's current state. */
  datatype Refreshed = Refreshed(displayName: string, capabilities: seq<string>, properties: Values)

  /** Calls to proxies, which are numbered as they are made. */
  datatype Call =
    | Opened(p: nat, id: string)
    | Reannounced(p: nat, state: Refreshed)  // applyRefreshedState, from the event itself
    | ConnectedSet(p: nat, connected: bool)
    | Resynced(p: nat, state: Refreshed)     // applyRefreshedState, from a fetch
    | CleanedUp(p: nat)

  /** `held` is the proxy of each consumed sensor, `fetching` the proxies that resyncs
      under way looked up and will refresh. */
  datatype Pool = Pool(held: map<string, nat>, made: nat, fetching: multiset<nat>, calls: seq<Call>)

  function Empty(): Pool {
    Pool(map[], 0, multiset{}, [])
  }

  function Open(pool: Pool, id: string): Pool {
    Pool(pool.held[id := pool.made], pool.made + 1, pool.fetching, pool.calls + [Opened(pool.made, id)])
  }

  function Record(pool: Pool, c: Call): Pool {
    pool.(calls := pool.calls + [c])
  }

  /** Takes over the state a re-announcement carries. */
  function Refresh(pool: Pool, id: string, state: Refreshed): Pool {
    if id in pool.held then Record(pool, Reannounced(pool.held[id], state)) else pool
  }

  function SetConnected(pool: Pool, id: string, connected: bool): Pool {
    if id in pool.held then Record(pool, ConnectedSet(pool.held[id], connected)) else pool
  }

  function Release(pool: Pool, id: string): Pool {
    if id in pool.held then Record(pool.(held := pool.held - {id}), CleanedUp(pool.held[id])) else pool
  }

  function ReleaseAll(pool: Pool, order: seq<string>): Pool
    decreases |order|
  {
    if order == [] then pool else Release(ReleaseAll(pool, order[..|order| - 1]), order[|order| - 1])
  }

  function StartFetch(pool: Pool, id: string): Pool {
    if id in pool.held then pool.(fetching := pool.fetching + multiset{pool.held[id]}) else pool
  }

  function EndFetch(pool: Pool, p: nat, state: Option<Refreshed>): Pool {
    var done := pool.(fetching := pool.fetching - multiset{p});
    if state.Some? then Record(done, Resynced(p, state.value)) else done
  }

  // ---- what the calls amount to ----

  function Opens(calls: seq<Call>): nat
    decreases |calls|
  {
    if calls == [] then 0 else Opens(calls[..|calls| - 1]) + if calls[|calls| - 1].Opened? then 1 else 0
  }

  /** The proxies opened and not cleaned up. */
  function Live(calls: seq<Call>): set<nat>
    decreases |calls|
  {
    if calls == [] then {} else LiveAfter(Live(calls[..|calls| - 1]), calls[|calls| - 1])
  }

  function LiveAfter(live: set<nat>, c: Call): set<nat> {
    match c
    case Opened(p, _) => live + {p}
    case CleanedUp(p) => live - {p}
    case _ => live
  }

  /** What may be called when: only a resync under way may come after the cleanup. */
  predicate InItsLife(before: seq<Call>, c: Call) {
    match c
    case Opened(p, _) => p == Opens(before)
    case Resynced(p, _) => p < Opens(before)
    case _ => c.p in Live(before)
  }

  ghost predicate InTheirLives(calls: seq<Call>) {
    forall i | 0 <= i < |calls| :: InItsLife(calls[..i], calls[i])
  }

  ghost predicate Inv(pool: Pool) {
    && InTheirLives(pool.calls)
    && pool.made == Opens(pool.calls)
    && Live(pool.calls) == pool.held.Values
    && (forall id | id in pool.held :: pool.held[id] < pool.made)
    && (forall i, j | i in pool.held && j in pool.held && pool.held[i] == pool.held[j] :: i == j)
    && (forall p | p in pool.fetching :: p < pool.made)
  }

  lemma CallsSnoc(calls: seq<Call>, c: Call)
    requires InTheirLives(calls) && InItsLife(calls, c)
    ensures InTheirLives(calls + [c])
    ensures Opens(calls + [c]) == Opens(calls) + if c.Opened? then 1 else 0
    ensures Live(calls + [c]) == LiveAfter(Live(calls), c)
  {
    assert (calls + [c])[..|calls|] == calls;
    forall i | 0 <= i < |calls| ensures (calls + [c])[..i] == calls[..i] {
    }
  }

  lemma OpenInv(pool: Pool, id: string)
    requires Inv(pool) && id !in pool.held
    ensures Inv(Open(pool, id))
  {
    CallsSnoc(pool.calls, Opened(pool.made, id));
    var held := Open(pool, id).held;
    forall p ensures p in held.Values <==> p in pool.held.Values || p == pool.made {
      if p in pool.held.Values {
        var i :| i in pool.held && pool.held[i] == p;
        assert held[i] == p;
      }
      if p == pool.made { assert held[id] == p; }
    }
  }

  lemma RecordInv(pool: Pool, c: Call)
    requires Inv(pool) && InItsLife(pool.calls, c) && !c.Opened? && !c.CleanedUp?
    ensures Inv(Record(pool, c))
  {
    CallsSnoc(pool.calls, c);
  }

  lemma CallInv(pool: Pool, id: string)
    requires Inv(pool)
    ensures forall state :: Inv(Refresh(pool, id, state))
    ensures forall connected :: Inv(SetConnected(pool, id, connected))
  {
    if id in pool.held {
      assert pool.held[id] in pool.held.Values;
      forall state ensures Inv(Refresh(pool, id, state)) {
        RecordInv(pool, Reannounced(pool.held[id], state));
      }
      forall connected ensures Inv(SetConnected(pool, id, connected)) {
        RecordInv(pool, ConnectedSet(pool.held[id], connected));
      }
    }
  }

  lemma ReleaseInv(pool: Pool, id: string)
    requires Inv(pool)
    ensures Inv(Release(pool, id)) && Release(pool, id).held == pool.held - {id}
  {
    if id in pool.held {
      var p, held := pool.held[id], pool.held - {id};
      assert p in pool.held.Values;
      CallsSnoc(pool.calls, CleanedUp(p));
      forall q ensures q in held.Values <==> q in pool.held.Values && q != p {
        if q in pool.held.Values && q != p {
          var i :| i in pool.held && pool.held[i] == q;
          assert held[i] == q;
        }
      }
    } else {
      assert pool.held - {id} == pool.held;
    }
  }

  lemma {:induction false} ReleaseAllInv(pool: Pool, order: seq<string>)
    requires Inv(pool)
    ensures Inv(ReleaseAll(pool, order))
    ensures forall id :: id in ReleaseAll(pool, order).held <==> id in pool.held && id !in order
    decreases |order|
  {
    if order != [] {
      var init, last := order[..|order| - 1], order[|order| - 1];
      ReleaseAllInv(pool, init);
      ReleaseInv(ReleaseAll(pool, init), last);
      assert forall id :: id in order <==> id in init || id == last;
    }
  }

  lemma EndFetchInv(pool: Pool, p: nat, state: Option<Refreshed>)
    requires Inv(pool) && p in pool.fetching
    ensures Inv(EndFetch(pool, p, state))
  {
    var done := pool.(fetching := pool.fetching - multiset{p});
    assert Inv(done);
    if state.Some? {
      RecordInv(done, Resynced(p, state.value));
    }
  }

  function Cleanups(calls: seq<Call>, p: nat): nat
    decreases |calls|
  {
    if calls == [] then 0
    else Cleanups(calls[..|calls| - 1], p) + if calls[|calls| - 1] == CleanedUp(p) then 1 else 0
  }

  lemma InTheirLivesPrefix(calls: seq<Call>)
    requires InTheirLives(calls) && calls != []
    ensures InTheirLives(calls[..|calls| - 1]) && InItsLife(calls[..|calls| - 1], calls[|calls| - 1])
  {
    forall i | 0 <= i < |calls| - 1 ensures calls[..|calls| - 1][..i] == calls[..i] {
    }
  }

  /** A proxy was cleaned up exactly once if it was opened and is not live, and never
      otherwise. */
  lemma {:induction false} CleanedUpOnce(calls: seq<Call>, p: nat)
    requires InTheirLives(calls)
    ensures Cleanups(calls, p) + (if p in Live(calls) then 1 else 0) == if p < Opens(calls) then 1 else 0
    decreases |calls|
  {
    if calls != [] {
      InTheirLivesPrefix(calls);
      CleanedUpOnce(calls[..|calls| - 1], p);
    }
  }
}

/** The consumed-sensor view of go/manager_sensor.go: what the registry's events,
    handled one at a time, make of it, and what the plugin is told. */
module ConsumerProtocol {
  import opened GoValues
  import P = ProxyPool

  datatype SensorData = SensorData(id: string, pluginId: string, sensorType: string, exposed: bool, cameras: seq<string>)

  /** The calls a consumer plugin gets. */
  datatype Told = Configured(ids: set<string>) | Added(id: string) | Released(id: string)

  datatype Phase = Starting | Running | Closed

  /** `owned` and `external` keep the assigned cameras of the plugin's own sensors,
      `consumed` the data a foreign sensor was admitted with, `pool` its proxy; `told` is
      the history. */
  datatype State = State(
    ownId: string,
    consumes: set<string>,
    isConsumer: bool,
    phase: Phase,
    owned: map<string, seq<string>>,
    external: map<string, seq<string>>,
    consumed: map<string, SensorData>,
    told: seq<Told>,
    pool: P.Pool)

  datatype Event =
    | Bind(id: string, cameras: seq<string>)
    | Track(id: string, cameras: seq<string>)
    | Untrack(id: string)
    | Start(sensors: seq<SensorData>)
    | SensorAdded(data: SensorData, state: P.Refreshed)
    | SensorDeleted(id: string)
    | ConnectedChanged(id: string, connected: bool)
    | ExposedChanged(id: string, exposed: bool, fetched: Option<SensorData>)
    | AssignmentChanged(id: string, camera: string, isAssigned: bool)
    | ResyncStart(id: string)                            // after a reconnect or the owner's return
    | ResyncEnd(proxy: nat, answer: Option<P.Refreshed>)  // None: the fetch failed
    | Close(order: seq<string>)                          // the order in which the map is gone through

  function Init(ownId: string, consumes: set<string>, isConsumer: bool): State {
    State(ownId, consumes, isConsumer, Starting, map[], map[], map[], [], P.Empty())
  }

  /** The registry answers for the sensor it was asked about, and its events are
      handled after the start and before the close. A resync runs by itself. */
  predicate Enabled(s: State, e: Event) {
    match e
    case Bind(_, _) => !s.phase.Closed?
    case Track(_, _) => !s.phase.Closed?
    case Untrack(_) => !s.phase.Closed?
    case Start(_) => s.phase.Starting?
    case ResyncStart(_) => true
    case ResyncEnd(proxy, _) => proxy in s.pool.fetching
    case Close(order) => s.phase.Running? && (set id | id in order) == s.pool.held.Keys
    case ExposedChanged(id, _, fetched) => s.phase.Running? && (fetched.Some? ==> fetched.value.id == id)
    case _ => s.phase.Running?
  }

  predicate IsConsumable(s: State, data: SensorData) {
    data.id !in s.owned && data.pluginId != s.ownId && data.exposed && data.sensorType in s.consumes
  }

  function AddConsumed(s: State, data: SensorData): State {
    if data.id in s.consumed then s
    else s.(consumed := s.consumed[data.id := data], pool := P.Open(s.pool, data.id))
  }

  function Tell(s: State, t: Told): State {
    if s.isConsumer then s.(told := s.told + [t]) else s
  }

  function ReleaseConsumed(s: State, id: string): State {
    if id !in s.consumed then s
    else Tell(s.(consumed := s.consumed - {id}, pool := P.Release(s.pool, id)), Released(id))
  }

  function Admit(s: State, data: SensorData): State {
    if IsConsumable(s, data) then Tell(AddConsumed(s, data), Added(data.id)) else s
  }

  function AddAll(s: State, sensors: seq<SensorData>): State
    decreases |sensors|
  {
    if sensors == [] then s
    else
      var before := AddAll(s, sensors[..|sensors| - 1]);
      var data := sensors[|sensors| - 1];
      if IsConsumable(before, data) then AddConsumed(before, data) else before
  }

  function Without(xs: seq<string>, x: string): seq<string>
    decreases |xs|
  {
    if xs == [] then []
    else
      var init := Without(xs[..|xs| - 1], x);
      if xs[|xs| - 1] == x then init else init + [xs[|xs| - 1]]
  }

  /** The camera list after one assignment event. */
  function Reassign(cameras: seq<string>, camera: string, isAssigned: bool): seq<string> {
    Without(cameras, camera) + if isAssigned then [camera] else []
  }

  function At<T>(m: map<string, T>, key: string, f: T -> T): map<string, T> {
    if key in m then m[key := f(m[key])] else m
  }

  function Apply(s: State, e: Event): State
    requires Enabled(s, e)
  {
    match e
    case Bind(id, cameras) => s.(owned := s.owned[id := cameras])
    case Track(id, cameras) => s.(external := s.external[id := cameras])
    case Untrack(id) => s.(external := s.external - {id})
    case Start(sensors) =>
      if s.consumes == {} then s.(phase := Running)
      else
        var added := AddAll(s, sensors).(phase := Running);
        Tell(added, Configured(added.consumed.Keys))
    case SensorAdded(data, state) =>
      var s1 := s.(owned := At(s.owned, data.id, _ => data.cameras), external := At(s.external, data.id, _ => data.cameras));
      if data.id in s1.consumed then s1.(pool := P.Refresh(s1.pool, data.id, state)) else Admit(s1, data)
    case SensorDeleted(id) => ReleaseConsumed(s.(owned := s.owned - {id}), id)
    case ExposedChanged(id, exposed, fetched) =>
      if !exposed then ReleaseConsumed(s, id)
      else if id in s.consumed || fetched.None? then s
      else Admit(s, fetched.value)
    case AssignmentChanged(id, camera, isAssigned) =>
      var move := (cameras: seq<string>) => Reassign(cameras, camera, isAssigned);
      s.(owned := At(s.owned, id, move),
         external := At(s.external, id, move),
         consumed := At(s.consumed, id, (d: SensorData) => d.(cameras := move(d.cameras))))
    case ConnectedChanged(id, connected) =>
      s.(pool := P.SetConnected(s.pool, id, connected))
    case ResyncStart(id) => s.(pool := P.StartFetch(s.pool, id))
    case ResyncEnd(proxy, state) => s.(pool := P.EndFetch(s.pool, proxy, state))
    case Close(order) =>
      s.(phase := Closed, owned := map[], external := map[], consumed := map[], pool := P.ReleaseAll(s.pool, order))
  }

  lemma CloseApplied(s: State, order: seq<string>)
    requires Enabled(s, Close(order))
    ensures Apply(s, Close(order)) ==
            State(s.ownId, s.consumes, s.isConsumer, Closed, map[], map[], map[], s.told, P.ReleaseAll(s.pool, order))
  {
  }

  lemma AddedApplied(s: State, data: SensorData, state: P.Refreshed)
    requires Enabled(s, SensorAdded(data, state))
    ensures var s1 := s.(owned := At(s.owned, data.id, _ => data.cameras), external := At(s.external, data.id, _ => data.cameras));
      Apply(s, SensorAdded(data, state)) ==
      if data.id in s.consumed then s1.(pool := P.Refresh(s.pool, data.id, state)) else Admit(s1, data)
  {
  }

  function Moved(d: SensorData, camera: string, isAssigned: bool): SensorData {
    d.(cameras := Reassign(d.cameras, camera, isAssigned))
  }

  lemma AssignmentApplied(s: State, id: string, camera: string, isAssigned: bool)
    requires Enabled(s, AssignmentChanged(id, camera, isAssigned))
    ensures Apply(s, AssignmentChanged(id, camera, isAssigned)) ==
            s.(owned := if id in s.owned then s.owned[id := Reassign(s.owned[id], camera, isAssigned)] else s.owned,
               external := if id in s.external then s.external[id := Reassign(s.external[id], camera, isAssigned)] else s.external,
               consumed := if id in s.consumed then s.consumed[id := Moved(s.consumed[id], camera, isAssigned)] else s.consumed)
  {
  }

  // ---- what the plugin knows ----

  /** The set the plugin holds after these calls: configured, plus added, minus released. */
  function KnownIds(told: seq<Told>): set<string>
    decreases |told|
  {
    if told == [] then {}
    else
      var known := KnownIds(told[..|told| - 1]);
      match told[|told| - 1]
      case Configured(ids) => ids
      case Added(id) => known + {id}
      case Released(id) => known - {id}
  }

  /** Each call tells news: configured once and first, added only what the plugin did
      not have, released only what it had. */
  ghost predicate TellsNews(told: seq<Told>) {
    forall i | 0 <= i < |told| ::
      match told[i]
      case Configured(_) => i == 0
      case Added(id) => i > 0 && id !in KnownIds(told[..i])
      case Released(id) => i > 0 && id in KnownIds(told[..i])
  }

  ghost predicate Inv(s: State) {
    && (forall id | id in s.consumed :: s.consumed[id].id == id && s.consumed[id].pluginId != s.ownId
                                        && s.consumed[id].exposed && s.consumed[id].sensorType in s.consumes)
    && (s.phase.Starting? ==> s.told == [] && s.consumed == map[])
    && (s.phase.Running? && s.isConsumer ==> KnownIds(s.told) == s.consumed.Keys)
    && (s.phase.Running? && s.isConsumer && s.consumes != {} ==> s.told != [])
    && TellsNews(s.told)
    && (!s.isConsumer ==> s.told == [])
  }

  lemma TellInv(s: State, t: Told)
    requires TellsNews(s.told)
    requires match t
      case Configured(_) => s.told == []
      case Added(id) => s.isConsumer ==> s.told != [] && id !in KnownIds(s.told)
      case Released(id) => s.isConsumer ==> s.told != [] && id in KnownIds(s.told)
    ensures TellsNews(Tell(s, t).told)
    ensures s.isConsumer ==> KnownIds(Tell(s, t).told) == match t
      case Configured(ids) => ids
      case Added(id) => KnownIds(s.told) + {id}
      case Released(id) => KnownIds(s.told) - {id}
  {
    var told := s.told + [t];
    assert told[..|s.told|] == s.told;
    forall i | 0 <= i < |s.told| ensures told[..i] == s.told[..i] {
    }
  }

  lemma {:induction false} AddAllShape(s: State, sensors: seq<SensorData>)
    requires s.consumed == map[]
    ensures AddAll(s, sensors) == s.(consumed := AddAll(s, sensors).consumed, pool := AddAll(s, sensors).pool)
    ensures var m := AddAll(s, sensors).consumed;
      forall id | id in m :: m[id].id == id && IsConsumable(s, m[id])
    ensures forall id :: id in AddAll(s, sensors).consumed <==>
              exists i :: 0 <= i < |sensors| && sensors[i].id == id && IsConsumable(s, sensors[i])
    decreases |sensors|
  {
    if sensors != [] {
      var init, last := sensors[..|sensors| - 1], sensors[|sensors| - 1];
      AddAllShape(s, init);
      var m := AddAll(s, sensors).consumed;
      assert IsConsumable(AddAll(s, init), last) <==> IsConsumable(s, last);
      forall id ensures id in m <==> exists i :: 0 <= i < |sensors| && sensors[i].id == id && IsConsumable(s, sensors[i]) {
        if id in AddAll(s, init).consumed {
          var i :| 0 <= i < |init| && init[i].id == id && IsConsumable(s, init[i]);
          assert sensors[i] == init[i];
        }
        if i :| 0 <= i < |sensors| && sensors[i].id == id && IsConsumable(s, sensors[i]) {
          if i < |init| { assert init[i] == sensors[i]; }
        }
      }
    }
  }

  /** Of several entries with one id the first consumable one is admitted. */
  lemma {:induction false} FirstEntryIsAdmitted(s: State, sensors: seq<SensorData>, i: nat)
    requires s.consumed == map[] && i < |sensors| && IsConsumable(s, sensors[i])
    requires forall j | 0 <= j < i && sensors[j].id == sensors[i].id :: !IsConsumable(s, sensors[j])
    ensures sensors[i].id in AddAll(s, sensors).consumed && AddAll(s, sensors).consumed[sensors[i].id] == sensors[i]
    decreases |sensors|
  {
    var init := sensors[..|sensors| - 1];
    AddAllShape(s, init);
    assert forall j | 0 <= j < |init| :: init[j] == sensors[j];
    if i < |init| {
      FirstEntryIsAdmitted(s, init, i);
    }
  }

  lemma StartInv(s: State, e: Event)
    requires Inv(s) && Enabled(s, e) && e.Start?
    ensures Inv(Apply(s, e))
  {
    if s.consumes != {} {
      AddAllShape(s, e.sensors);
      var added := AddAll(s, e.sensors).(phase := Running);
      TellInv(added, Configured(added.consumed.Keys));
    } else {
      assert s.consumed.Keys == {};
    }
  }

  lemma AdmitInv(s: State, data: SensorData)
    requires Inv(s) && s.phase.Running? && data.id !in s.consumed
    ensures Inv(Admit(s, data))
  {
    if IsConsumable(s, data) {
      TellInv(AddConsumed(s, data), Added(data.id));
      assert Admit(s, data).consumed.Keys == s.consumed.Keys + {data.id};
    }
  }

  lemma ReleaseInv(s: State, id: string)
    requires Inv(s) && s.phase.Running?
    ensures Inv(ReleaseConsumed(s, id))
  {
    if id in s.consumed {
      TellInv(s.(consumed := s.consumed - {id}, pool := P.Release(s.pool, id)), Released(id));
      assert ReleaseConsumed(s, id).consumed.Keys == s.consumed.Keys - {id};
    }
  }

  lemma StepInv(s: State, e: Event)
    requires Inv(s) && Enabled(s, e)
    ensures Inv(Apply(s, e))
  {
    match e
    case Start(_) => StartInv(s, e);
    case SensorAdded(data, _) =>
      var s1 := s.(owned := At(s.owned, data.id, _ => data.cameras), external := At(s.external, data.id, _ => data.cameras));
      assert Inv(s1);
      if data.id !in s1.consumed { AdmitInv(s1, data); }
    case SensorDeleted(id) =>
      assert Inv(s.(owned := s.owned - {id}));
      ReleaseInv(s.(owned := s.owned - {id}), id);
    case ExposedChanged(id, exposed, fetched) =>
      if !exposed {
        ReleaseInv(s, id);
      } else if id !in s.consumed && fetched.Some? {
        AdmitInv(s, fetched.value);
      }
    case AssignmentChanged(_, _, _) =>
      assert Apply(s, e).consumed.Keys == s.consumed.Keys;
    case _ =>
  }

  // ---- whole runs ----

  ghost predicate CanRun(s: State, es: seq<Event>)
    decreases |es|
  {
    es == [] || (Enabled(s, es[0]) && CanRun(Apply(s, es[0]), es[1..]))
  }

  ghost function Run(s: State, es: seq<Event>): State
    requires CanRun(s, es)
    decreases |es|
  {
    if es == [] then s else Run(Apply(s, es[0]), es[1..])
  }

  lemma {:induction false} RunInv(s: State, es: seq<Event>)
    requires Inv(s) && CanRun(s, es)
    ensures Inv(Run(s, es))
    ensures Run(s, es).ownId == s.ownId && Run(s, es).isConsumer == s.isConsumer
    decreases |es|
  {
    if es != [] {
      StepInv(s, es[0]);
      StepKeepsIdentity(s, es[0]);
      RunInv(Apply(s, es[0]), es[1..]);
    }
  }

  lemma StepKeepsIdentity(s: State, e: Event)
    requires Enabled(s, e)
    ensures Apply(s, e).ownId == s.ownId && Apply(s, e).isConsumer == s.isConsumer && Apply(s, e).consumes == s.consumes
  {
    if e.Start? {
      AddAllKeeps(s, e.sensors);
    }
  }

  lemma {:induction false} AddAllKeeps(s: State, sensors: seq<SensorData>)
    ensures AddAll(s, sensors) == s.(consumed := AddAll(s, sensors).consumed, pool := AddAll(s, sensors).pool)
    decreases |sensors|
  {
    if sensors != [] {
      AddAllKeeps(s, sensors[..|sensors| - 1]);
    }
  }

  /** After the start and until the close, what the plugin was told (configured, plus
      added, minus released) is exactly the consumed view, every call told news, and
      no sensor of the plugin itself is in the view. */
  lemma ViewIsWhatThePluginKnows(ownId: string, consumes: set<string>, es: seq<Event>, s: State)
    requires CanRun(Init(ownId, consumes, true), es) && s == Run(Init(ownId, consumes, true), es)
    ensures s.phase.Running? ==> KnownIds(s.told) == s.consumed.Keys
    ensures TellsNews(s.told)
    ensures forall id | id in s.consumed :: s.consumed[id].pluginId != ownId && s.consumed[id].sensorType in s.consumes
  {
    assert Inv(Init(ownId, consumes, true));
    RunInv(Init(ownId, consumes, true), es);
  }

  lemma {:induction false} KnownSince(told: seq<Told>, id: string, i: nat, j: nat)
    requires TellsNews(told) && i < j <= |told|
    requires forall k | i < k < j :: told[k] != Added(id) && told[k] != Released(id)
    ensures told[i] == Added(id) ==> id in KnownIds(told[..j])
    ensures told[i] == Released(id) ==> id !in KnownIds(told[..j])
    decreases j
  {
    assert told[..j][..j - 1] == told[..j - 1];
    if i < j - 1 {
      KnownSince(told, id, i, j - 1);
    }
  }

  /** Per sensor, added and released strictly alternate: between two additions lies a
      release, and between two releases an addition. */
  lemma AddedAndReleasedAlternate(told: seq<Told>, id: string, i: nat, j: nat)
    requires TellsNews(told) && i < j < |told|
    requires told[i] == told[j] && (told[i] == Added(id) || told[i] == Released(id))
    ensures exists k :: i < k < j && told[k] == if told[i] == Added(id) then Released(id) else Added(id)
  {
    if forall k | i < k < j :: told[k] != if told[i] == Added(id) then Released(id) else Added(id) {
      var m := LastOf(told, told[i], i, j);
      KnownSince(told, id, m, j);
      assert false;
    }
  }

  /** The last occurrence of a call before `j`. */
  lemma {:induction false} LastOf(told: seq<Told>, t: Told, i: nat, j: nat) returns (m: nat)
    requires i < j <= |told| && told[i] == t
    ensures i <= m < j && told[m] == t && forall k | m < k < j :: told[k] != t
    decreases j
  {
    if told[j - 1] == t {
      m := j - 1;
    } else {
      m := LastOf(told, t, i, j - 1);
    }
  }

  /** The sensor an event offers. */
  function Offered(e: Event): Option<SensorData> {
    match e
    case SensorAdded(data, _) => Some(data)
    case ExposedChanged(_, exposed, fetched) => if exposed then fetched else None
    case _ => None
  }

  /** While running, a sensor enters the view if and only if an event offers it as a
      foreign, exposed sensor of a consumed type that is not one of the plugin's own;
      and the plugin hears of it in that very call. */
  lemma AdmittedIff(s: State, e: Event, id: string)
    requires Inv(s) && Enabled(s, e) && s.phase.Running? && id !in s.consumed
    ensures id in Apply(s, e).consumed <==>
            && Offered(e).Some? && Offered(e).value.id == id && id !in s.owned
            && Offered(e).value.pluginId != s.ownId && Offered(e).value.exposed
            && Offered(e).value.sensorType in s.consumes
    ensures id in Apply(s, e).consumed && s.isConsumer ==> Apply(s, e).told == s.told + [Added(id)]
    ensures id in Apply(s, e).consumed ==> Apply(s, e).consumed[id] == Offered(e).value
  {
  }

  /** It leaves if and only if it is deleted, no longer exposed, or the manager closes;
      and only of the close the plugin does not hear. */
  lemma ReleasedIff(s: State, e: Event, id: string)
    requires Inv(s) && Enabled(s, e) && s.phase.Running? && id in s.consumed
    ensures id !in Apply(s, e).consumed <==>
            e == SensorDeleted(id) || (e.ExposedChanged? && e.id == id && !e.exposed) || e.Close?
    ensures id !in Apply(s, e).consumed && s.isConsumer ==>
            Apply(s, e).told == s.told + if e.Close? then [] else [Released(id)]
  {
  }

  // ---- whose cameras the events assign ----

  /** What one event says of the cameras of a sensor that plays a role here already;
      None: it ends that role. */
  function CamerasAfter(e: Event, id: string, cameras: seq<string>): Option<seq<string>> {
    match e
    case SensorAdded(data, _) => Some(if data.id == id then data.cameras else cameras)
    case AssignmentChanged(sensor, camera, isAssigned) =>
      Some(if sensor == id then Without(cameras, camera) + (if isAssigned then [camera] else []) else cameras)
    case Close(_) => None
    case _ => Some(cameras)
  }

  /** The cameras of an own sensor as the events tell them, from its binding on. */
  function OwnCameras(es: seq<Event>, id: string): Option<seq<string>>
    decreases |es|
  {
    if es == [] then None
    else
      var before, e := OwnCameras(es[..|es| - 1], id), es[|es| - 1];
      if e.Bind? && e.id == id then Some(e.cameras)
      else if before.None? || e == SensorDeleted(id) then None
      else CamerasAfter(e, id, before.value)
  }

  /** The same for a sensor the plugin tracks for one of its cameras. */
  function TrackedCameras(es: seq<Event>, id: string): Option<seq<string>>
    decreases |es|
  {
    if es == [] then None
    else
      var before, e := TrackedCameras(es[..|es| - 1], id), es[|es| - 1];
      if e.Track? && e.id == id then Some(e.cameras)
      else if before.None? || e == Untrack(id) then None
      else CamerasAfter(e, id, before.value)
  }

  function Held<T>(m: map<string, T>, id: string): Option<T> {
    if id in m then Some(m[id]) else None
  }

  lemma StepOwnCameras(s: State, es: seq<Event>, e: Event, id: string)
    requires Enabled(s, e) && Held(s.owned, id) == OwnCameras(es, id)
    ensures Held(Apply(s, e).owned, id) == OwnCameras(es + [e], id)
  {
    assert (es + [e])[..|es|] == es;
    if e.Start? { AddAllKeeps(s, e.sensors); }
  }

  lemma StepTrackedCameras(s: State, es: seq<Event>, e: Event, id: string)
    requires Enabled(s, e) && Held(s.external, id) == TrackedCameras(es, id)
    ensures Held(Apply(s, e).external, id) == TrackedCameras(es + [e], id)
  {
    assert (es + [e])[..|es|] == es;
    if e.Start? { AddAllKeeps(s, e.sensors); }
  }

  lemma {:induction false} RunCameras(s: State, done: seq<Event>, es: seq<Event>, id: string)
    requires CanRun(s, es)
    requires Held(s.owned, id) == OwnCameras(done, id) && Held(s.external, id) == TrackedCameras(done, id)
    ensures Held(Run(s, es).owned, id) == OwnCameras(done + es, id)
    ensures Held(Run(s, es).external, id) == TrackedCameras(done + es, id)
    decreases |es|
  {
    if es == [] {
      assert done + es == done;
    } else {
      StepOwnCameras(s, done, es[0], id);
      StepTrackedCameras(s, done, es[0], id);
      RunCameras(Apply(s, es[0]), done + [es[0]], es[1..], id);
      assert done + [es[0]] + es[1..] == done + es;
    }
  }

  /** After every run each own and each tracked sensor has the cameras that the events
      since its binding tell: those of its last announcement, moved by every assignment
      since; and the others have none. */
  lemma CamerasFollowTheEvents(ownId: string, consumes: set<string>, isConsumer: bool, es: seq<Event>, s: State, id: string)
    requires CanRun(Init(ownId, consumes, isConsumer), es) && s == Run(Init(ownId, consumes, isConsumer), es)
    ensures Held(s.owned, id) == OwnCameras(es, id)
    ensures Held(s.external, id) == TrackedCameras(es, id)
  {
    RunCameras(Init(ownId, consumes, isConsumer), [], es, id);
    assert [] + es == es;
  }

  /** A sensor that stays consumed keeps the data it was admitted with; an assignment
      moves its cameras, an announcement does not. */
  lemma ConsumedDataStays(s: State, e: Event, id: string)
    requires Enabled(s, e) && s.phase.Running? && id in s.consumed && id in Apply(s, e).consumed
    ensures Apply(s, e).consumed[id] ==
            if e.AssignmentChanged? && e.id == id
            then s.consumed[id].(cameras := Without(s.consumed[id].cameras, e.camera) + if e.isAssigned then [e.camera] else [])
            else s.consumed[id]
  {
  }

  // ---- proxies ----

  /** What each event does to the proxies: exactly one call where there is a proxy to
      make, to tell or to clean up, with what the event says. */
  lemma ProxyCalls(s: State, e: Event)
    requires PoolInv(s) && Enabled(s, e) && s.phase.Running?
    ensures e.SensorAdded? && e.data.id in s.consumed ==>
      Apply(s, e).pool == s.pool.(calls := s.pool.calls + [P.Reannounced(s.pool.held[e.data.id], e.state)])
    ensures e.ConnectedChanged? && e.id in s.consumed ==>
      Apply(s, e).pool == s.pool.(calls := s.pool.calls + [P.ConnectedSet(s.pool.held[e.id], e.connected)])
    ensures e.ConnectedChanged? && e.id !in s.consumed ==> Apply(s, e) == s
    ensures e.ResyncEnd? && e.answer.Some? ==> Apply(s, e).pool.calls == s.pool.calls + [P.Resynced(e.proxy, e.answer.value)]
    ensures e.ResyncEnd? && e.answer.None? ==> Apply(s, e).pool.calls == s.pool.calls
  {
  }

  lemma ProxyLifetimes(s: State, e: Event, id: string)
    requires PoolInv(s) && Enabled(s, e) && s.phase.Running? && !e.Start? && !e.Close?
    ensures id !in s.consumed && id in Apply(s, e).consumed ==>
      Apply(s, e).pool == P.Pool(s.pool.held[id := s.pool.made], s.pool.made + 1, s.pool.fetching,
                                 s.pool.calls + [P.Opened(s.pool.made, id)])
    ensures id in s.consumed && id !in Apply(s, e).consumed ==>
      Apply(s, e).pool == s.pool.(held := s.pool.held - {id}, calls := s.pool.calls + [P.CleanedUp(s.pool.held[id])])
  {
  }

  ghost predicate PoolInv(s: State) {
    P.Inv(s.pool) && s.pool.held.Keys == s.consumed.Keys
  }

  lemma AddConsumedPool(s: State, data: SensorData)
    requires PoolInv(s)
    ensures PoolInv(AddConsumed(s, data))
  {
    if data.id !in s.consumed {
      P.OpenInv(s.pool, data.id);
    }
  }

  lemma {:induction false} AddAllPool(s: State, sensors: seq<SensorData>)
    requires PoolInv(s)
    ensures PoolInv(AddAll(s, sensors))
    decreases |sensors|
  {
    if sensors != [] {
      AddAllPool(s, sensors[..|sensors| - 1]);
      AddConsumedPool(AddAll(s, sensors[..|sensors| - 1]), sensors[|sensors| - 1]);
    }
  }

  lemma StepPool(s: State, e: Event)
    requires PoolInv(s) && Enabled(s, e)
    ensures PoolInv(Apply(s, e))
  {
    match e
    case Start(_) => StartPool(s, e);
    case SensorAdded(_, _) => SensorAddedPool(s, e);
    case SensorDeleted(_) => SensorDeletedPool(s, e);
    case ConnectedChanged(_, _) => ConnectedChangedPool(s, e);
    case ExposedChanged(_, _, _) => ExposedChangedPool(s, e);
    case AssignmentChanged(_, _, _) => AssignmentChangedPool(s, e);
    case ResyncEnd(proxy, state) => P.EndFetchInv(s.pool, proxy, state);
    case Close(order) => ClosePool(s, order);
    case _ =>
  }

  lemma StartPool(s: State, e: Event)
    requires PoolInv(s) && Enabled(s, e) && e.Start?
    ensures PoolInv(Apply(s, e))
  {
    AddAllPool(s, e.sensors);
  }

  lemma SensorDeletedPool(s: State, e: Event)
    requires PoolInv(s) && Enabled(s, e) && e.SensorDeleted?
    ensures PoolInv(Apply(s, e))
  {
    ReleaseConsumedPool(s.(owned := s.owned - {e.id}), e.id);
  }

  lemma ConnectedChangedPool(s: State, e: Event)
    requires PoolInv(s) && Enabled(s, e) && e.ConnectedChanged?
    ensures PoolInv(Apply(s, e))
  {
    P.CallInv(s.pool, e.id);
  }

  lemma AssignmentChangedPool(s: State, e: Event)
    requires PoolInv(s) && Enabled(s, e) && e.AssignmentChanged?
    ensures PoolInv(Apply(s, e))
  {
    assert Apply(s, e).consumed.Keys == s.consumed.Keys;
  }

  lemma ReleaseConsumedPool(s: State, id: string)
    requires PoolInv(s)
    ensures PoolInv(ReleaseConsumed(s, id))
  {
    P.ReleaseInv(s.pool, id);
    assert (s.pool.held - {id}).Keys == (s.consumed - {id}).Keys;
  }

  lemma ExposedChangedPool(s: State, e: Event)
    requires PoolInv(s) && Enabled(s, e) && e.ExposedChanged?
    ensures PoolInv(Apply(s, e))
  {
    ReleaseConsumedPool(s, e.id);
    if e.fetched.Some? {
      AddConsumedPool(s, e.fetched.value);
    }
  }

  lemma ClosePool(s: State, order: seq<string>)
    requires PoolInv(s) && Enabled(s, Close(order))
    ensures PoolInv(Apply(s, Close(order)))
  {
    P.ReleaseAllInv(s.pool, order);
    var held := P.ReleaseAll(s.pool, order).held;
    forall id ensures id !in held {
      if id in s.pool.held.Keys {
        assert id in set i | i in order;
      }
    }
    assert held.Keys == {};
  }

  lemma SensorAddedPool(s: State, e: Event)
    requires PoolInv(s) && Enabled(s, e) && e.SensorAdded?
    ensures PoolInv(Apply(s, e))
  {
    P.CallInv(s.pool, e.data.id);
    AddConsumedPool(s, e.data);
  }

  lemma {:induction false} RunPool(s: State, es: seq<Event>)
    requires PoolInv(s) && CanRun(s, es)
    ensures PoolInv(Run(s, es))
    decreases |es|
  {
    if es != [] {
      StepPool(s, es[0]);
      RunPool(Apply(s, es[0]), es[1..]);
    }
  }

  lemma {:induction false} ClosedIsEmpty(s: State, es: seq<Event>)
    requires CanRun(s, es) && (s.phase.Closed? ==> s.consumed == map[])
    ensures Run(s, es).phase.Closed? ==> Run(s, es).consumed == map[]
    decreases |es|
  {
    if es != [] {
      if es[0].Start? { AddAllKeeps(s, es[0].sensors); }
      ClosedIsEmpty(Apply(s, es[0]), es[1..]);
    }
  }

  /** Over every run: there is one live proxy for each consumed sensor and no other, so
      none after the close; each opened proxy was cleaned up once, unless it still
      lives; and every call went to a live proxy, except that a resync under way may
      come after the cleanup. */
  lemma ProxiesLiveAsLongAsTheirSensors(ownId: string, consumes: set<string>, isConsumer: bool, es: seq<Event>, s: State)
    requires CanRun(Init(ownId, consumes, isConsumer), es) && s == Run(Init(ownId, consumes, isConsumer), es)
    ensures s.pool.held.Keys == s.consumed.Keys && P.Live(s.pool.calls) == s.pool.held.Values
    ensures forall i, j | i in s.pool.held && j in s.pool.held && s.pool.held[i] == s.pool.held[j] :: i == j
    ensures P.InTheirLives(s.pool.calls)
    ensures forall p: nat :: P.Cleanups(s.pool.calls, p) + (if p in P.Live(s.pool.calls) then 1 else 0) ==
                             if p < P.Opens(s.pool.calls) then 1 else 0
    ensures s.phase.Closed? ==> P.Live(s.pool.calls) == {}
  {
    var s0 := Init(ownId, consumes, isConsumer);
    assert P.Inv(P.Empty()) && s0.pool.held.Keys == {};
    RunPool(s0, es);
    ClosedIsEmpty(s0, es);
    forall p: nat
      ensures P.Cleanups(s.pool.calls, p) + (if p in P.Live(s.pool.calls) then 1 else 0) ==
              if p < P.Opens(s.pool.calls) then 1 else 0
    {
      P.CleanedUpOnce(s.pool.calls, p);
    }
  }

  lemma StartWithOne(data: SensorData)
    requires data.pluginId != "a" && data.exposed && data.sensorType == "t"
    ensures Apply(Init("a", {"t"}, true), Start([data])) ==
            State("a", {"t"}, true, Running, map[], map[], map[data.id := data], [Configured({data.id})],
                  P.Pool(map[data.id := 0], 1, multiset{}, [P.Opened(0, data.id)]))
  {
    var s0 := Init("a", {"t"}, true);
    assert [data][..0] == [] && AddAll(s0, []) == s0;
    assert AddAll(s0, [data]) == AddConsumed(s0, data);
    var consumed, held := AddConsumed(s0, data).consumed, AddConsumed(s0, data).pool.held;
    assert consumed == map[data.id := data] && consumed.Keys == {data.id} && held == map[data.id := 0];
  }

  /** And it may: a resync that looked up its proxy before the sensor was deleted. */
  lemma ResyncMayComeLate(data: SensorData, state: P.Refreshed)
    requires data.pluginId != "a" && data.exposed && data.sensorType == "t"
    ensures var s0, es := Init("a", {"t"}, true), [Start([data]), ResyncStart(data.id), SensorDeleted(data.id), ResyncEnd(0, Some(state))];
      CanRun(s0, es) && Run(s0, es).pool.calls == [P.Opened(0, data.id), P.CleanedUp(0), P.Resynced(0, state)]
  {
    StartWithOne(data);
    var s1 := Apply(Init("a", {"t"}, true), Start([data]));
    var e2, e3, e4 := ResyncStart(data.id), SensorDeleted(data.id), ResyncEnd(0, Some(state));
    var s2 := s1.(pool := s1.pool.(fetching := multiset{0}));
    assert Apply(s1, e2) == s2;
    var s3 := Apply(s2, e3);
    assert s3.pool == P.Pool(map[], 1, multiset{0}, [P.Opened(0, data.id), P.CleanedUp(0)]);
    assert [Start([data]), e2, e3, e4][1..] == [e2, e3, e4] && [e2, e3, e4][1..] == [e3, e4];
    assert [e3, e4][1..] == [e4] && [e4][1..] == [];
    assert CanRun(s3, [e4]) && Run(s3, [e4]) == Apply(s3, e4);
    assert CanRun(s2, [e3, e4]) && Run(s2, [e3, e4]) == Apply(s3, e4);
    assert CanRun(s1, [e2, e3, e4]) && Run(s1, [e2, e3, e4]) == Apply(s3, e4);
  }

  // ---- assignment events fold to sets ----

  datatype Assignment = Assignment(camera: string, isAssigned: bool)

  function Fold(cameras: seq<string>, events: seq<Assignment>): seq<string>
    decreases |events|
  {
    if events == [] then cameras
    else
      var last := events[|events| - 1];
      Reassign(Fold(cameras, events[..|events| - 1]), last.camera, last.isAssigned)
  }

  /** The set of assigned cameras the same events describe. */
  ghost function FoldSet(cameras: set<string>, events: seq<Assignment>): set<string>
    decreases |events|
  {
    if events == [] then cameras
    else
      var last, before := events[|events| - 1], FoldSet(cameras, events[..|events| - 1]);
      if last.isAssigned then before + {last.camera} else before - {last.camera}
  }

  ghost predicate Touched(events: seq<Assignment>, camera: string) {
    exists i | 0 <= i < |events| :: events[i].camera == camera
  }

  lemma TouchedSnoc(events: seq<Assignment>, camera: string)
    requires events != []
    ensures Touched(events, camera) <==> Touched(events[..|events| - 1], camera) || camera == events[|events| - 1].camera
  {
    var init := events[..|events| - 1];
    if i :| 0 <= i < |init| && init[i].camera == camera {
      assert events[i].camera == camera;
    }
    if i :| 0 <= i < |events| && events[i].camera == camera {
      if i < |init| { assert init[i].camera == camera; }
    }
    assert events[|init|].camera == events[|events| - 1].camera;
  }

  lemma {:induction false} WithoutCounts(xs: seq<string>, x: string)
    ensures multiset(Without(xs, x)) == multiset(xs)[x := 0]
    decreases |xs|
  {
    if xs != [] {
      assert xs == xs[..|xs| - 1] + [xs[|xs| - 1]];
      WithoutCounts(xs[..|xs| - 1], x);
    }
  }

  lemma ReassignCounts(xs: seq<string>, x: string, isAssigned: bool)
    ensures multiset(Reassign(xs, x, isAssigned)) == multiset(xs)[x := if isAssigned then 1 else 0]
  {
    WithoutCounts(xs, x);
  }

  /** `out` are the elements of `xs` other than `x`, in order: those at the positions `at`. */
  ghost predicate KeptAt(xs: seq<string>, x: string, out: seq<string>, at: seq<nat>) {
    && |out| == |at|
    && (forall j | 0 <= j < |at| :: at[j] < |xs| && xs[at[j]] != x && out[j] == xs[at[j]])
    && (forall j, k | 0 <= j < k < |at| :: at[j] < at[k])
    && (forall i: nat | i < |xs| && xs[i] != x :: i in at)
  }

  lemma KeptOneMore(xs: seq<string>, x: string, out: seq<string>, at: seq<nat>, last: string)
    requires KeptAt(xs, x, out, at)
    ensures last == x ==> KeptAt(xs + [last], x, out, at)
    ensures last != x ==> KeptAt(xs + [last], x, out + [last], at + [|xs|])
  {
    var ys := xs + [last];
    forall i: nat | i < |ys| && ys[i] != x ensures i in at + [|xs|] && (last == x ==> i in at) {
      if i < |xs| {
        assert xs[i] != x && i in at;
      } else {
        assert (at + [|xs|])[|at|] == i;
      }
    }
  }

  /** An assignment event takes the camera out, keeps the others in their order, and
      puts the camera last if it is assigned. */
  lemma {:induction false} ReassignKeepsOrder(xs: seq<string>, x: string, isAssigned: bool) returns (at: seq<nat>)
    ensures KeptAt(xs, x, Without(xs, x), at)
    ensures Reassign(xs, x, isAssigned) == Without(xs, x) + if isAssigned then [x] else []
    decreases |xs|
  {
    at := [];
    if xs != [] {
      var init, last := xs[..|xs| - 1], xs[|xs| - 1];
      at := ReassignKeepsOrder(init, x, isAssigned);
      KeptOneMore(init, x, Without(init, x), at, last);
      assert xs == init + [last];
      if last != x {
        at := at + [|init|];
      }
    }
  }

  /** After any events a camera is listed exactly if the set the events describe has
      it, a touched one at most once, and an untouched one as often as at the start. */
  lemma {:induction false} AssignmentsFoldToASet(cameras: seq<string>, events: seq<Assignment>, camera: string)
    ensures var after := Fold(cameras, events);
      && (camera in after <==> camera in FoldSet((set c | c in cameras), events))
      && multiset(after)[camera] ==
         if Touched(events, camera) then (if camera in FoldSet((set c | c in cameras), events) then 1 else 0)
         else multiset(cameras)[camera]
    decreases |events|
  {
    if events != [] {
      var init, last := events[..|events| - 1], events[|events| - 1];
      AssignmentsFoldToASet(cameras, init, camera);
      ReassignCounts(Fold(cameras, init), last.camera, last.isAssigned);
      assert multiset(Fold(cameras, events))[camera] > 0 <==> camera in Fold(cameras, events);
      TouchedSnoc(events, camera);
    }
  }
}

/** `SensorManager`: its maps and the event handlers that edit them. */
module ConsumerObjects {
  import opened GoValues
  import opened ConsumerProtocol
  import P = ProxyPool

  class SensorManager {
    const ownId: string
    const consumes: set<string>
    const isConsumer: bool
    var owned: map<string, seq<string>>
    var external: map<string, seq<string>>
    var consumed: map<string, SensorData>
    var told: seq<Told>
    var proxies: map<string, nat>
    var made: nat
    var fetching: multiset<nat>
    var calls: seq<P.Call>
    ghost var phase: Phase

    ghost function Pool(): P.Pool
      reads this
    {
      P.Pool(proxies, made, fetching, calls)
    }

    ghost function Current(): State
      reads this
    {
      State(ownId, consumes, isConsumer, phase, owned, external, consumed, told, Pool())
    }

    ghost predicate Valid()
      reads this
    {
      Inv(Current()) && PoolInv(Current())
    }

    constructor (ownId: string, consumes: set<string>, isConsumer: bool)
      ensures Valid() && Current() == Init(ownId, consumes, isConsumer)
    {
      this.ownId, this.consumes, this.isConsumer := ownId, consumes, isConsumer;
      owned, external, consumed, told, phase := map[], map[], map[], [], Starting;
      proxies, made, fetching, calls := map[], 0, multiset{}, [];
    }

    method TellPlugin(t: Told)
      modifies this`told
      ensures Current() == Tell(old(Current()), t)
    {
      if isConsumer {
        told := told + [t];
      }
    }

    lemma Steps(e: Event)
      requires Valid() && Enabled(Current(), e)
      ensures Inv(Apply(Current(), e)) && PoolInv(Apply(Current(), e))
    {
      StepInv(Current(), e);
      StepPool(Current(), e);
    }

    /** `isConsumable`. */
    method Consumable(data: SensorData) returns (r: bool)
      ensures r == IsConsumable(Current(), data)
    {
      if data.id in owned || data.pluginId == ownId {
        return false;
      }
      if !data.exposed {
        return false;
      }
      return data.sensorType in consumes;
    }

    /** `addConsumed`: an existing entry stays. */
    method AddToView(data: SensorData)
      modifies this`consumed, this`proxies, this`made, this`calls
      ensures Current() == AddConsumed(old(Current()), data)
    {
      if data.id !in consumed {
        consumed := consumed[data.id := data];
        proxies := proxies[data.id := made];
        calls := calls + [P.Opened(made, data.id)];
        made := made + 1;
      }
    }

    method ReleaseFromView(id: string)
      requires PoolInv(Current())
      modifies this`consumed, this`proxies, this`calls, this`told
      ensures Current() == ReleaseConsumed(old(Current()), id)
    {
      if id !in consumed {
        return;
      }
      consumed := consumed - {id};
      CleanUp(id);
      TellPlugin(Released(id));
    }

    /** `cleanupProxy` on the proxy taken out of the map. */
    method CleanUp(id: string)
      requires id in proxies
      modifies this`proxies, this`calls
      ensures Pool() == P.Release(old(Pool()), id)
    {
      calls := calls + [P.CleanedUp(proxies[id])];
      proxies := proxies - {id};
    }

    method AdmitIfConsumable(data: SensorData)
      modifies this`consumed, this`proxies, this`made, this`calls, this`told
      ensures Current() == Admit(old(Current()), data)
    {
      var ok := Consumable(data);
      if ok {
        AddToView(data);
        TellPlugin(Added(data.id));
      }
    }

    /** `init`: the registry's list, then one call that configures the plugin. */
    method StartUp(sensors: seq<SensorData>)
      requires Valid() && phase.Starting?
      modifies this
      ensures Valid() && Current() == Apply(old(Current()), Start(sensors))
    {
      ghost var s := Current();
      Steps(Start(sensors));
      if consumes == {} {
        phase := Running;
        return;
      }
      AddConsumable(sensors);
      AddAllKeeps(s, sensors);
      phase := Running;
      TellPlugin(Configured(consumed.Keys));
    }

    method AddConsumable(sensors: seq<SensorData>)
      modifies this`consumed, this`proxies, this`made, this`calls
      ensures Current() == AddAll(old(Current()), sensors)
    {
      for i := 0 to |sensors|
        invariant Current() == AddAll(old(Current()), sensors[..i])
      {
        assert sensors[..i + 1][..i] == sensors[..i];
        var ok := Consumable(sensors[i]);
        if ok {
          AddToView(sensors[i]);
        }
      }
      assert sensors[..|sensors|] == sensors;
    }

    /** "sensor:added"; a sensor already held takes over the state the event carries. */
    method OnSensorAdded(data: SensorData, state: P.Refreshed)
      requires Valid() && phase.Running?
      modifies this
      ensures Valid() && Current() == Apply(old(Current()), SensorAdded(data, state))
    {
      Steps(SensorAdded(data, state));
      TakeAnnouncement(data, state);
    }

    method TakeAnnouncement(data: SensorData, state: P.Refreshed)
      requires PoolInv(Current()) && phase.Running?
      modifies this
      ensures Current() == Apply(old(Current()), SensorAdded(data, state))
    {
      AddedApplied(Current(), data, state);
      AssignCameras(data.id, data.cameras);
      if data.id in consumed {
        calls := calls + [P.Reannounced(proxies[data.id], state)];
        return;
      }
      AdmitIfConsumable(data);
    }

    method AssignCameras(id: string, cameras: seq<string>)
      modifies this`owned, this`external
      ensures owned == At(old(owned), id, _ => cameras) && external == At(old(external), id, _ => cameras)
    {
      if id in owned {
        owned := owned[id := cameras];
      }
      if id in external {
        external := external[id := cameras];
      }
    }

    /** "sensor:deleted". */
    method OnSensorDeleted(id: string)
      requires Valid() && phase.Running?
      modifies this
      ensures Valid() && Current() == Apply(old(Current()), SensorDeleted(id))
    {
      Steps(SensorDeleted(id));
      owned := owned - {id};
      ReleaseFromView(id);
    }

    /** "sensor:exposed:changed"; `fetched` is the registry's answer, if any. */
    method OnExposedChanged(id: string, exposed: bool, fetched: Option<SensorData>)
      requires Valid() && phase.Running? && (fetched.Some? ==> fetched.value.id == id)
      modifies this
      ensures Valid() && Current() == Apply(old(Current()), ExposedChanged(id, exposed, fetched))
    {
      Steps(ExposedChanged(id, exposed, fetched));
      if !exposed {
        ReleaseFromView(id);
        return;
      }
      if id in consumed || fetched.None? {
        return;
      }
      AdmitIfConsumable(fetched.value);
    }

    /** The loop over a target's cameras in "sensor:assignment:changed". */
    static method NextCameras(cameras: seq<string>, camera: string, isAssigned: bool) returns (next: seq<string>)
      ensures next == Reassign(cameras, camera, isAssigned)
    {
      next := [];
      for i := 0 to |cameras|
        invariant next == Without(cameras[..i], camera)
      {
        assert cameras[..i + 1][..i] == cameras[..i];
        if cameras[i] != camera {
          next := next + [cameras[i]];
        }
      }
      assert cameras[..|cameras|] == cameras;
      if isAssigned {
        next := next + [camera];
      }
    }

    /** "sensor:assignment:changed": every role the sensor has here is updated. */
    method OnAssignmentChanged(id: string, camera: string, isAssigned: bool)
      requires Valid() && phase.Running?
      modifies this
      ensures Valid() && Current() == Apply(old(Current()), AssignmentChanged(id, camera, isAssigned))
    {
      Steps(AssignmentChanged(id, camera, isAssigned));
      AssignmentApplied(Current(), id, camera, isAssigned);
      MoveCamera(id, camera, isAssigned);
    }

    method MoveCamera(id: string, camera: string, isAssigned: bool)
      modifies this`owned, this`external, this`consumed
      ensures owned == if id in old(owned) then old(owned)[id := Reassign(old(owned)[id], camera, isAssigned)] else old(owned)
      ensures external ==
              if id in old(external) then old(external)[id := Reassign(old(external)[id], camera, isAssigned)] else old(external)
      ensures consumed ==
              if id in old(consumed) then old(consumed)[id := Moved(old(consumed)[id], camera, isAssigned)] else old(consumed)
    {
      owned := Reassigned(owned, id, camera, isAssigned);
      external := Reassigned(external, id, camera, isAssigned);
      if id in consumed {
        var next := NextCameras(consumed[id].cameras, camera, isAssigned);
        consumed := consumed[id := consumed[id].(cameras := next)];
      }
    }

    static method Reassigned(m: map<string, seq<string>>, id: string, camera: string, isAssigned: bool)
      returns (out: map<string, seq<string>>)
      ensures out == if id in m then m[id := Reassign(m[id], camera, isAssigned)] else m
    {
      out := m;
      if id in m {
        var next := NextCameras(m[id], camera, isAssigned);
        out := m[id := next];
      }
    }

    /** "sensor:connected:changed". */
    method OnConnectedChanged(id: string, connected: bool)
      requires Valid() && phase.Running?
      modifies this
      ensures Valid() && Current() == Apply(old(Current()), ConnectedChanged(id, connected))
    {
      Steps(ConnectedChanged(id, connected));
      if id in proxies {
        calls := calls + [P.ConnectedSet(proxies[id], connected)];
      }
    }

    /** `resyncConsumed` up to the fetch, whose proxy is looked up first. */
    method BeginResync(id: string) returns (proxy: Option<nat>)
      requires Valid()
      modifies this
      ensures Valid() && Current() == Apply(old(Current()), ResyncStart(id))
      ensures proxy.Some? ==> Enabled(Current(), ResyncEnd(proxy.value, None))
      ensures proxy == if id in consumed then Some(proxies[id]) else None
    {
      Steps(ResyncStart(id));
      if id !in proxies {
        return None;
      }
      fetching := fetching + multiset{proxies[id]};
      return Some(proxies[id]);
    }

    /** `resyncConsumed` after the fetch. */
    method EndResync(proxy: nat, state: Option<P.Refreshed>)
      requires Valid() && proxy in fetching
      modifies this
      ensures Valid() && Current() == Apply(old(Current()), ResyncEnd(proxy, state))
    {
      Steps(ResyncEnd(proxy, state));
      fetching := fetching - multiset{proxy};
      if state.Some? {
        calls := calls + [P.Resynced(proxy, state.value)];
      }
    }

    /** `close`: the view goes without a word to the plugin, and every proxy is cleaned up. */
    method CloseDown() returns (ghost order: seq<string>)
      requires Valid() && phase.Running?
      modifies this
      ensures Enabled(old(Current()), Close(order))
      ensures Valid() && Current() == Apply(old(Current()), Close(order))
    {
      ghost var s := Current();
      order := CleanUpAll();
      StepPool(s, Close(order));
      StepInv(s, Close(order));
      CloseApplied(s, order);
      consumed, owned, external := map[], map[], map[];
      phase := Closed;
    }

    method CleanUpAll() returns (ghost order: seq<string>)
      modifies this`proxies, this`calls
      ensures Pool() == P.ReleaseAll(old(Pool()), order) && (set id | id in order) == old(proxies).Keys
    {
      order := [];
      assert P.ReleaseAll(Pool(), []) == Pool();
      while proxies.Keys != {}
        invariant Pool() == P.ReleaseAll(old(Pool()), order)
        invariant (set id | id in order) + proxies.Keys == old(proxies).Keys
        decreases proxies.Keys
      {
        var id :| id in proxies;
        assert (order + [id])[..|order|] == order;
        order := order + [id];
        CleanUp(id);
      }
    }
  }
}
