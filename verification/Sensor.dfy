/** What a property store tells its observers: one change per property. */
module Announcements {
  import opened GoValues
  import opened StoreLayout
  import opened DeepEquality

  datatype Change = Change(property: string, value: Val, timestamp: int)

  /** `changes` names every key of `delta` once, in some order: that of Go's map iteration. */
  ghost predicate Enumerates(changes: seq<Change>, delta: Values) {
    && |changes| == |delta|
    && (forall i | 0 <= i < |changes| :: changes[i].property in delta && changes[i].value == delta[changes[i].property])
    && (forall i, j | 0 <= i < j < |changes| :: changes[i].property != changes[j].property)
  }

  ghost predicate Stamped(changes: seq<Change>, now: int) {
    forall i | 0 <= i < |changes| :: changes[i].timestamp == now
  }

  lemma StampOneMore(changes: seq<Change>, c: Change)
    requires Stamped(changes, c.timestamp)
    ensures Stamped(changes + [c], c.timestamp)
  {
  }

  /** Same value, or equal in the sense of `isEqual`; the two differ on NaN alone. */
  ghost predicate Agree(a: Val, b: Val) {
    a == b || Equal(a, b, false)
  }

  /** The properties an observer arrives at by applying what was announced. */
  function Replay(base: Values, announced: seq<Change>): Values {
    if announced == [] then base
    else
      var last := announced[|announced| - 1];
      Replay(base, announced[..|announced| - 1])[last.property := last.value]
  }

  lemma {:induction false} ReplayAppend(base: Values, xs: seq<Change>, ys: seq<Change>)
    ensures Replay(base, xs + ys) == Replay(Replay(base, xs), ys)
    decreases |ys|
  {
    if ys == [] {
      assert xs + ys == xs;
    } else {
      assert (xs + ys)[..|xs + ys| - 1] == xs + ys[..|ys| - 1];
      ReplayAppend(base, xs, ys[..|ys| - 1]);
    }
  }

  lemma {:induction false} ReplayKeys(base: Values, changes: seq<Change>, k: string)
    requires forall i, j | 0 <= i < j < |changes| :: changes[i].property != changes[j].property
    ensures (forall i | 0 <= i < |changes| :: changes[i].property != k) ==>
              (k in Replay(base, changes) <==> k in base) && (k in base ==> Replay(base, changes)[k] == base[k])
    ensures forall i | 0 <= i < |changes| && changes[i].property == k ::
              k in Replay(base, changes) && Replay(base, changes)[k] == changes[i].value
    decreases |changes|
  {
    if changes != [] {
      ReplayKeys(base, changes[..|changes| - 1], k);
      assert forall i | 0 <= i < |changes| - 1 :: changes[..|changes| - 1][i] == changes[i];
    }
  }

  ghost function Properties(changes: seq<Change>): set<string> {
    set i | 0 <= i < |changes| :: changes[i].property
  }

  lemma {:induction false} DistinctProperties(changes: seq<Change>)
    requires forall i, j | 0 <= i < j < |changes| :: changes[i].property != changes[j].property
    ensures |Properties(changes)| == |changes|
    decreases |changes|
  {
    if changes != [] {
      var init, last := changes[..|changes| - 1], changes[|changes| - 1];
      DistinctProperties(init);
      assert Properties(changes) == Properties(init) + {last.property} by {
        forall p | p in Properties(changes) ensures p in Properties(init) + {last.property} {
          var i :| 0 <= i < |changes| && changes[i].property == p;
          if i < |init| { assert init[i].property == p; }
        }
        forall p | p in Properties(init) ensures p in Properties(changes) {
          var i :| 0 <= i < |init| && init[i].property == p;
          assert changes[i].property == p;
        }
        assert changes[|init|].property == last.property;
      }
      assert last.property !in Properties(init);
    }
  }

  lemma EnumeratedKeys(changes: seq<Change>, delta: Values)
    requires Enumerates(changes, delta)
    ensures Properties(changes) == delta.Keys
  {
    DistinctProperties(changes);
    assert |delta.Keys| == |delta|;
    SubsetOfSameSize(Properties(changes), delta.Keys);
  }

  lemma EnumerateOneMore(changes: seq<Change>, delta: Values, c: Change)
    requires Enumerates(changes, delta) && c.property !in delta
    ensures Enumerates(changes + [c], delta[c.property := c.value])
  {
    assert |delta[c.property := c.value].Keys| == |delta.Keys + {c.property}| == |delta.Keys| + 1;
  }

  lemma ReplayAt(base: Values, changes: seq<Change>, delta: Values, k: string)
    requires Enumerates(changes, delta) && Properties(changes) == delta.Keys
    ensures k in Replay(base, changes) <==> k in base + delta
    ensures k in Replay(base, changes) ==> Replay(base, changes)[k] == (base + delta)[k]
  {
    ReplayKeys(base, changes, k);
    if k in delta {
      assert k in Properties(changes);
      var i :| 0 <= i < |changes| && changes[i].property == k;
    }
  }

  /** Announcing a delta key by key tells an observer exactly the delta. */
  lemma ReplayEnumeration(base: Values, changes: seq<Change>, delta: Values)
    requires Enumerates(changes, delta)
    ensures Replay(base, changes) == base + delta
  {
    EnumeratedKeys(changes, delta);
    forall k
      ensures k in Replay(base, changes) <==> k in base + delta
      ensures k in Replay(base, changes) ==> Replay(base, changes)[k] == (base + delta)[k]
    {
      ReplayAt(base, changes, delta, k);
    }
  }
}

/** The property store of go/sensor_base.go and the host's replica of it. */
module SensorProtocol {
  import opened GoValues
  import opened StoreLayout
  import opened DeepEquality
  import opened Announcements

  /** The entries of `partial` that `writeState` takes over: not nil, and not equal
      to what is stored even up to the order of lists. */
  ghost predicate TakesOver(props: Values, partial: Values, key: string) {
    key in partial && !partial[key].Nil? && !Equal(Get(props, key), partial[key], true)
  }

  ghost function WriteDelta(props: Values, partial: Values): Values {
    map k | k in partial && TakesOver(props, partial, k) :: partial[k]
  }

  /** `host` is the replica: it starts as a copy of the properties and then applies
      the deltas it is sent. `accepted` counts the host writes that changed a property. */
  datatype State = State(
    props: Values,
    attached: bool,
    host: Values,
    deltas: seq<Values>,
    announced: seq<Change>,
    accepted: nat)

  datatype Step =
    | Write(partial: Values, changes: seq<Change>)
    | Attach                                             // registration sends the properties
    | HostWrite(property: string, value: Val, timestamp: int)

  function Init(): State {
    State(map[], false, map[], [], [], 0)
  }

  ghost predicate Enabled(s: State, l: Step) {
    match l
    case Write(partial, changes) => Enumerates(changes, WriteDelta(s.props, partial))
    case Attach => !s.attached
    case HostWrite(_, _, _) => true
  }

  ghost function Apply(s: State, l: Step): State {
    match l
    case Write(partial, changes) =>
      var delta := WriteDelta(s.props, partial);
      var send := s.attached && delta != map[];
      s.(props := s.props + delta,
         host := if send then s.host + delta else s.host,
         deltas := if send then s.deltas + [delta] else s.deltas,
         announced := s.announced + changes)
    case Attach => s.(attached := true, host := s.props, deltas := [], announced := [], accepted := 0)
    case HostWrite(property, value, timestamp) =>
      if Equal(Get(s.props, property), value, false) then s.(host := s.host[property := value])
      else s.(host := s.host[property := value],
              props := s.props[property := value],
              announced := s.announced + [Change(property, value, timestamp)],
              accepted := s.accepted + 1)
  }

  ghost predicate Mirrors(host: Values, props: Values) {
    forall k :: Agree(Get(host, k), Get(props, k))
  }

  function KeysSent(deltas: seq<Values>): nat {
    if deltas == [] then 0 else KeysSent(deltas[..|deltas| - 1]) + |deltas[|deltas| - 1]|
  }

  ghost predicate Inv(s: State, base: Values) {
    s.attached ==>
      && Mirrors(s.host, s.props)
      && |s.announced| == KeysSent(s.deltas) + s.accepted
      && s.props == Replay(base, s.announced)
  }

  lemma MirroredDelta(host: Values, props: Values, delta: Values)
    requires Mirrors(host, props)
    ensures Mirrors(host + delta, props + delta)
  {
    forall k ensures Agree(Get(host + delta, k), Get(props + delta, k)) {
      assert Agree(Get(host, k), Get(props, k));
    }
  }

  lemma WriteInv(s: State, l: Step, base: Values)
    requires Inv(s, base) && Enabled(s, l) && l.Write?
    ensures Inv(Apply(s, l), base)
  {
    var delta := WriteDelta(s.props, l.partial);
    var s' := Apply(s, l);
    if s.attached {
      ReplayAppend(base, s.announced, l.changes);
      ReplayEnumeration(s.props, l.changes, delta);
      if delta == map[] {
        assert s'.props == s.props;
        assert s'.announced == s.announced;
      } else {
        assert s'.deltas[..|s'.deltas| - 1] == s.deltas;
        MirroredDelta(s.host, s.props, delta);
      }
    }
  }

  lemma HostWriteInv(s: State, l: Step, base: Values)
    requires Inv(s, base) && Enabled(s, l) && l.HostWrite? && s.attached
    ensures Inv(Apply(s, l), base)
  {
    var s' := Apply(s, l);
    assert s'.announced != s.announced ==> s'.announced[..|s'.announced| - 1] == s.announced;
    forall k ensures Agree(Get(s'.host, k), Get(s'.props, k)) {
      assert Agree(Get(s.host, k), Get(s.props, k));
      if k == l.property && Equal(Get(s.props, k), l.value, false) {
        EqualSymmetric(Get(s.props, k), l.value, false);
      }
    }
  }

  // ---- whole sequential runs ----

  ghost predicate CanRun(s: State, ls: seq<Step>)
    decreases |ls|
  {
    ls == [] || (Enabled(s, ls[0]) && CanRun(Apply(s, ls[0]), ls[1..]))
  }

  ghost function Run(s: State, ls: seq<Step>): State
    decreases |ls|
  {
    if ls == [] then s else Run(Apply(s, ls[0]), ls[1..])
  }

  lemma {:induction false} RunInv(s: State, ls: seq<Step>, base: Values)
    requires s.attached && Inv(s, base) && CanRun(s, ls)
    ensures Run(s, ls).attached && Inv(Run(s, ls), base)
    decreases |ls|
  {
    if ls != [] {
      if ls[0].Write? {
        WriteInv(s, ls[0], base);
      } else {
        HostWriteInv(s, ls[0], base);
      }
      RunInv(Apply(s, ls[0]), ls[1..], base);
    }
  }

  /** From registration on, after every operation of every run: the replica holds
      what the sensor holds up to number width, announcements and delta keys (or
      accepted host writes) match one to one, and an observer who applies what was
      announced since holds exactly the sensor's properties. */
  lemma HostMirrorAgrees(s0: State, ls: seq<Step>, s: State)
    requires !s0.attached && CanRun(Apply(s0, Attach), ls) && s == Run(Apply(s0, Attach), ls)
    ensures forall k :: Agree(Get(s.host, k), Get(s.props, k))
    ensures forall k | NaNFree(Get(s.props, k)) :: Equal(Get(s.host, k), Get(s.props, k), false)
    ensures |s.announced| == KeysSent(s.deltas) + s.accepted
    ensures s.props == Replay(s0.props, s.announced)
  {
    var s1 := Apply(s0, Attach);
    assert Inv(s1, s0.props);
    RunInv(s1, ls, s0.props);
    forall k | NaNFree(Get(s.props, k)) ensures Equal(Get(s.host, k), Get(s.props, k), false) {
      assert Agree(Get(s.host, k), Get(s.props, k));
      EqualReflexive(Get(s.props, k), false);
    }
  }

  /** After a write exactly the keys whose new value is not nil and differs from the
      stored one, lists in another order counting as equal, hold the new value; so every
      key written reads back equal to it in that sense. */
  lemma WriteReadsBack(props: Values, partial: Values, k: string)
    ensures var after := props + WriteDelta(props, partial);
      && Get(after, k) == (if k in partial && !partial[k].Nil? && !Equal(Get(props, k), partial[k], true)
                           then partial[k] else Get(props, k))
      && (k in partial && !partial[k].Nil? ==> Get(after, k) == partial[k] || Equal(Get(after, k), partial[k], true))
  {
  }

  /** Writing a state that equals one just written, lists perhaps in another order, is
      silent. */
  lemma PermutedRewriteIsSilent(props: Values, partial: Values, again: Values)
    requires forall k | k in again :: k in partial && Equal(partial[k], again[k], true)
    ensures WriteDelta(props + WriteDelta(props, partial), again) == map[]
  {
    var after := props + WriteDelta(props, partial);
    forall k | k in again ensures again[k].Nil? || Equal(Get(after, k), again[k], true) {
      WriteReadsBack(props, partial, k);
      if !partial[k].Nil? && Get(after, k) != partial[k] {
        EqualTransitive(Get(after, k), partial[k], again[k], true);
      }
    }
    assert forall k :: k !in WriteDelta(after, again);
  }

  /** Writing the same state again is silent exactly when everything the first write
      took over is free of NaN, which never equals itself. */
  lemma RewriteIsSilent(props: Values, partial: Values)
    ensures var delta := WriteDelta(props, partial);
      WriteDelta(props + delta, partial) == map[] <==> forall k | k in delta :: NaNFree(delta[k])
  {
    var delta := WriteDelta(props, partial);
    var again := WriteDelta(props + delta, partial);
    forall k | k in partial ensures k in again <==> k in delta && !NaNFree(partial[k]) {
      EqualReflexive(partial[k], true);
    }
    if again == map[] {
      forall k | k in delta ensures NaNFree(delta[k]) {
        assert k in partial && k !in again;
      }
    } else {
      var k :| k in again;
      assert k in delta;
    }
  }
}

/** `setActive`, `deactivateQuiet` and the lifecycle hooks: the flag flips under the
    lock, the hook is started after it, by whichever goroutine flipped. */
module SensorLifecycle {
  /** `flips` is the history of the flag, `due` are hooks not yet started. */
  datatype State = State(active: bool, flips: seq<bool>, due: seq<bool>, fired: seq<bool>, connected: seq<bool>)

  datatype Step =
    | SetActive(active: bool)
    | DeactivateQuiet
    | Fire(i: nat)

  function Init(): State {
    State(false, [], [], [], [])
  }

  predicate Enabled(s: State, l: Step) {
    l.Fire? ==> l.i < |s.due|
  }

  function Flip(s: State, active: bool, announce: bool): State {
    if s.active == active then s
    else s.(active := active, flips := s.flips + [active], due := s.due + [active],
            connected := if announce then s.connected + [active] else s.connected)
  }

  function Apply(s: State, l: Step): State
    requires Enabled(s, l)
  {
    match l
    case SetActive(active) => Flip(s, active, true)
    case DeactivateQuiet => Flip(s, false, false)
    case Fire(i) => s.(due := s.due[..i] + s.due[i + 1..], fired := s.fired + [s.due[i]])
  }

  ghost predicate CanRun(s: State, ls: seq<Step>)
    decreases |ls|
  {
    ls == [] || (Enabled(s, ls[0]) && CanRun(Apply(s, ls[0]), ls[1..]))
  }

  ghost function Run(s: State, ls: seq<Step>): State
    requires CanRun(s, ls)
    decreases |ls|
  {
    if ls == [] then s else Run(Apply(s, ls[0]), ls[1..])
  }

  function Count(bs: seq<bool>, b: bool): nat {
    multiset(bs)[b]
  }

  ghost predicate Inv(s: State) {
    && (forall i | 0 <= i < |s.flips| :: s.flips[i] == (i % 2 == 0))
    && s.active == (|s.flips| % 2 == 1)
    && Balanced(s)
    && Count(s.flips, true) == Count(s.flips, false) + if s.active then 1 else 0
  }

  /** Every flip's hook has fired or is due. */
  ghost predicate Balanced(s: State) {
    && |s.fired| + |s.due| == |s.flips|
    && Count(s.fired, true) + Count(s.due, true) == Count(s.flips, true)
    && Count(s.fired, false) + Count(s.due, false) == Count(s.flips, false)
  }

  lemma AppendedOne(xs: seq<bool>, b: bool, c: bool)
    ensures Count(xs + [b], c) == Count(xs, c) + if b == c then 1 else 0
  {
  }

  lemma FlipBalanced(s: State, active: bool, announce: bool)
    requires Balanced(s)
    ensures Balanced(Flip(s, active, announce))
  {
    AppendedOne(s.flips, active, true);
    AppendedOne(s.flips, active, false);
    AppendedOne(s.due, active, true);
    AppendedOne(s.due, active, false);
  }

  lemma FlipInv(s: State, active: bool, announce: bool)
    requires Inv(s)
    ensures Inv(Flip(s, active, announce))
  {
    FlipBalanced(s, active, announce);
    AppendedOne(s.flips, active, true);
    AppendedOne(s.flips, active, false);
  }

  lemma TakeOut(xs: seq<bool>, i: nat, b: bool)
    requires i < |xs|
    ensures Count(xs[..i] + xs[i + 1..], b) + (if xs[i] == b then 1 else 0) == Count(xs, b)
  {
    assert xs == xs[..i] + [xs[i]] + xs[i + 1..];
  }

  lemma FireInv(s: State, i: nat)
    requires Inv(s) && i < |s.due|
    ensures Inv(Apply(s, Fire(i)))
  {
    TakeOut(s.due, i, true);
    TakeOut(s.due, i, false);
    AppendedOne(s.fired, s.due[i], true);
    AppendedOne(s.fired, s.due[i], false);
  }

  lemma StepInv(s: State, l: Step)
    requires Inv(s) && Enabled(s, l)
    ensures Inv(Apply(s, l))
  {
    match l
    case SetActive(active) => FlipInv(s, active, true);
    case DeactivateQuiet => FlipInv(s, false, false);
    case Fire(i) => FireInv(s, i);
  }

  lemma {:induction false} RunInv(s: State, ls: seq<Step>)
    requires Inv(s) && CanRun(s, ls)
    ensures Inv(Run(s, ls))
    decreases |ls|
  {
    if ls != [] {
      StepInv(s, ls[0]);
      RunInv(Apply(s, ls[0]), ls[1..]);
    }
  }

  /** In every interleaving the flag's flips alternate, beginning with a start, and
      starts and stops, fired or still due, are paired: one more start than stops
      exactly while the sensor is active. */
  lemma HooksArePaired(ls: seq<Step>, s: State)
    requires CanRun(Init(), ls) && s == Run(Init(), ls)
    ensures forall i | 0 <= i < |s.flips| :: s.flips[i] == (i % 2 == 0)
    ensures |s.fired| + |s.due| == |s.flips|
    ensures Count(s.fired, true) + Count(s.due, true) ==
            Count(s.fired, false) + Count(s.due, false) + if s.active then 1 else 0
  {
    RunInv(Init(), ls);
  }

  /** Whatever hook starts next, the hooks started so far are the first flips, in turn. */
  ghost predicate NextStaysInTurn(s: State) {
    forall i: nat | i < |s.due| :: Apply(s, Fire(i)).fired <= s.flips
  }

  /** As long as the hooks have run in turn the next one is bound to if and only if no
      more than one is due. */
  lemma HooksStayInTurnIff(ls: seq<Step>, s: State)
    requires CanRun(Init(), ls) && s == Run(Init(), ls)
    requires s.fired + s.due == s.flips
    ensures NextStaysInTurn(s) <==> |s.due| <= 1
  {
    RunInv(Init(), ls);
    if |s.due| > 1 {
      SecondIsOutOfTurn(s.fired, s.due);
      assert Apply(s, Fire(1)).fired == s.fired + [s.due[1]];
    } else {
      forall i: nat | i < |s.due| ensures Apply(s, Fire(i)).fired <= s.flips {
        OnlyOneIsInTurn(s.fired, s.due);
      }
    }
  }

  lemma OnlyOneIsInTurn(fired: seq<bool>, due: seq<bool>)
    requires |due| == 1
    ensures fired + [due[0]] == fired + due
  {
    assert [due[0]] == due;
  }

  lemma SecondIsOutOfTurn(fired: seq<bool>, due: seq<bool>)
    requires |due| > 1 && forall i | 0 <= i < |fired + due| :: (fired + due)[i] == (i % 2 == 0)
    ensures !(fired + [due[1]] <= fired + due)
  {
    var n := |fired|;
    assert (fired + due)[n] == due[0] && (fired + due)[n + 1] == due[1];
    assert (fired + [due[1]])[n] == due[1];
  }

  ghost predicate InOrder(s: State) {
    s.fired + s.due == s.flips && |s.due| <= 1
  }

  lemma PromptStep(s: State, l: Step)
    requires Enabled(s, l) && InOrder(s) && (s.due != [] ==> l.Fire?)
    ensures InOrder(Apply(s, l))
  {
    if l.Fire? {
      assert l.i == 0 && s.due == [s.due[0]];
      assert Apply(s, l).fired == s.fired + s.due;
      assert Apply(s, l).due == [];
    } else {
      assert s.due == [] && s.fired == s.flips;
    }
  }

  /** As long as each hook is started before the next flip they alternate as well. */
  lemma {:induction false} PromptHooksAlternate(s: State, ls: seq<Step>)
    requires CanRun(s, ls) && Prompt(s, ls) && InOrder(s)
    ensures InOrder(Run(s, ls))
    decreases |ls|
  {
    if ls != [] {
      PromptStep(s, ls[0]);
      PromptHooksAlternate(Apply(s, ls[0]), ls[1..]);
    }
  }

  ghost predicate Prompt(s: State, ls: seq<Step>)
    requires CanRun(s, ls)
    decreases |ls|
  {
    ls == [] || ((s.due != [] ==> ls[0].Fire?) && Prompt(Apply(s, ls[0]), ls[1..]))
  }

  /** Without that the stop may run before its start: two goroutines flip, and the
      second one gets to its hook first. */
  lemma HooksMayOvertake() returns (ls: seq<Step>)
    ensures CanRun(Init(), ls) && Run(Init(), ls).fired == [false, true]
  {
    ls := [SetActive(true), SetActive(false), Fire(1), Fire(0)];
    var s2 := Apply(Apply(Init(), ls[0]), ls[1]);
    assert s2.due == [true, false];
    var s3 := Apply(s2, Fire(1));
    assert s3.due == [true] && s3.fired == [false];
    var s4 := Apply(s3, Fire(0));
    assert ls[1..][1..][1..][1..] == [];
    assert CanRun(s4, []) && Run(s4, []) == s4;
    assert CanRun(s3, ls[3..]) && Run(s3, ls[3..]) == s4;
    assert ls[2..][1..] == ls[3..] && ls[1..][1..] == ls[2..];
    assert CanRun(s2, ls[2..]) && Run(s2, ls[2..]) == s4;
  }
}

/** `BaseSensor`: the methods behind the two protocols. */
module SensorObjects {
  import opened GoValues
  import opened StoreLayout
  import opened DeepEquality
  import opened Announcements
  import opened SensorProtocol
  import L = SensorLifecycle

  /** The loop of `writeState` with `left` still to visit. */
  ghost predicate Visited(before: Values, partial: Values, left: set<string>, props: Values, delta: Values) {
    && left <= partial.Keys
    && (forall k :: k in delta <==> k in partial && k !in left && TakesOver(before, partial, k))
    && (forall k | k in delta :: delta[k] == partial[k])
    && props == before + delta
  }

  lemma VisitOne(before: Values, partial: Values, left: set<string>, props: Values, delta: Values, key: string)
    requires Visited(before, partial, left, props, delta) && key in left
    ensures Get(props, key) == Get(before, key) && key !in delta
    ensures
      if TakesOver(before, partial, key) then
        Visited(before, partial, left - {key}, props[key := partial[key]], delta[key := partial[key]])
      else
        Visited(before, partial, left - {key}, props, delta)
  {
  }

  lemma AllVisited(before: Values, partial: Values, props: Values, delta: Values)
    requires Visited(before, partial, {}, props, delta)
    ensures delta == WriteDelta(before, partial)
  {
  }

  /** What `writeState` takes over. */
  lemma DeltaIs(before: Values, partial: Values)
    ensures var delta := WriteDelta(before, partial);
      && (forall k :: k in delta <==> k in partial && !partial[k].Nil? && !Equal(Get(before, k), partial[k], true))
      && (forall k | k in delta :: delta[k] == partial[k])
      && (delta == map[] <==> forall k | k in partial :: partial[k].Nil? || Equal(Get(before, k), partial[k], true))
  {
    var delta := WriteDelta(before, partial);
    if forall k | k in partial :: partial[k].Nil? || Equal(Get(before, k), partial[k], true) {
      assert forall k :: k !in delta;
    }
    forall k | k in partial && !partial[k].Nil? && !Equal(Get(before, k), partial[k], true) ensures delta != map[] {
      assert k in delta;
    }
  }

  /** `sent` and `announced` record the calls of `updateFn` and of `propertyChanged.Next`. */
  class BaseSensor {
    var properties: Values
    var hasUpdateFn: bool
    var active: bool
    var sent: seq<Values>
    var announced: seq<Change>
    ghost var s: State
    ghost var hooks: L.State

    ghost predicate Valid()
      reads this
    {
      && properties == s.props && hasUpdateFn == s.attached && sent == s.deltas && announced == s.announced
      && active == hooks.active
    }

    constructor ()
      ensures Valid() && s == Init() && hooks == L.Init()
    {
      properties, hasUpdateFn, active, sent, announced := map[], false, false, [], [];
      s, hooks := Init(), L.Init();
    }

    /** `initUpdateFn`, with the registration that sent a copy of the properties. */
    method InitUpdateFn()
      requires Valid() && !hasUpdateFn
      modifies this
      ensures Valid() && s == Apply(old(s), Attach) && hooks == old(hooks)
    {
      hasUpdateFn, sent, announced := true, [], [];
      s := Apply(s, Attach);
    }

    /** `writeState`: one pass over `partial`, in whatever order the map yields. `delta`
        is what is not nil and differs from what is stored, a list in another order
        counting as equal: it is stored, announced key by key, once each, and sent as
        one if there is anyone to send it to. Without it nothing changes at all. */
    method WriteState(partial: Values, now: int) returns (ghost delta: Values, ghost changes: seq<Change>)
      requires Valid()
      modifies this
      ensures Valid() && hooks == old(hooks) && hasUpdateFn == old(hasUpdateFn)
      ensures forall k :: k in delta <==> k in partial && !partial[k].Nil? && !Equal(Get(old(properties), k), partial[k], true)
      ensures forall k | k in delta :: delta[k] == partial[k]
      ensures properties == old(properties) + delta
      ensures sent == if hasUpdateFn && delta != map[] then old(sent) + [delta] else old(sent)
      ensures announced == old(announced) + changes && Enumerates(changes, delta) && Stamped(changes, now)
      ensures (forall k | k in partial :: partial[k].Nil? || Equal(Get(old(properties), k), partial[k], true)) ==>
              properties == old(properties) && sent == old(sent) && announced == old(announced)
      ensures delta == WriteDelta(old(properties), partial)
      ensures Enabled(old(s), Write(partial, changes)) && s == Apply(old(s), Write(partial, changes))
    {
      DeltaIs(properties, partial);
      delta, changes := TakeAndDeliver(partial, now);
      if delta == map[] {
        assert properties == old(properties) && changes == [];
      }
    }

    method TakeAndDeliver(partial: Values, now: int) returns (ghost delta: Values, ghost changes: seq<Change>)
      requires Valid()
      modifies this
      ensures Valid() && hooks == old(hooks) && hasUpdateFn == old(hasUpdateFn)
      ensures delta == WriteDelta(old(properties), partial) && properties == old(properties) + delta
      ensures sent == if hasUpdateFn && delta != map[] then old(sent) + [delta] else old(sent)
      ensures announced == old(announced) + changes && Enumerates(changes, delta) && Stamped(changes, now)
      ensures Enabled(old(s), Write(partial, changes)) && s == Apply(old(s), Write(partial, changes))
    {
      var taken, news := TakeOver(partial, now);
      if taken != map[] && hasUpdateFn {
        sent := sent + [taken];
      }
      announced := announced + news;
      delta, changes := taken, news;
      Record(partial, changes, delta);
    }

    ghost method Record(partial: Values, changes: seq<Change>, delta: Values)
      requires delta == WriteDelta(s.props, partial) && Enumerates(changes, delta)
      modifies this`s
      ensures Enabled(old(s), Write(partial, changes)) && s == Apply(old(s), Write(partial, changes))
      ensures s.props == old(s).props + delta && s.attached == old(s).attached
      ensures s.deltas == if old(s).attached && delta != map[] then old(s).deltas + [delta] else old(s).deltas
      ensures s.announced == old(s).announced + changes
    {
      s := Apply(s, Write(partial, changes));
    }

    /** The locked loop of `writeState`. */
    method TakeOver(partial: Values, now: int) returns (delta: Values, changes: seq<Change>)
      modifies this`properties
      ensures forall k :: k in delta <==> k in partial && !partial[k].Nil? && !Equal(Get(old(properties), k), partial[k], true)
      ensures forall k | k in delta :: delta[k] == partial[k]
      ensures delta == WriteDelta(old(properties), partial)
      ensures properties == old(properties) + delta
      ensures Enumerates(changes, delta)
      ensures Stamped(changes, now)
    {
      DeltaIs(properties, partial);
      delta, changes := map[], [];
      ghost var before := properties;
      var keys := partial.Keys;
      while keys != {}
        invariant Visited(before, partial, keys, properties, delta)
        invariant Enumerates(changes, delta)
        invariant Stamped(changes, now)
        decreases keys
      {
        var key :| key in keys;
        var value := partial[key];
        var same := IsEqual(Get(properties, key), value, true);
        VisitOne(before, partial, keys, properties, delta, key);
        keys := keys - {key};
        if value.Nil? || same {
          continue;
        }
        EnumerateOneMore(changes, delta, Change(key, value, now));
        StampOneMore(changes, Change(key, value, now));
        properties := properties[key := value];
        delta := delta[key := value];
        changes := changes + [Change(key, value, now)];
      }
      AllVisited(before, partial, properties, delta);
    }

    /** `setPropertyWithTimestamp`, and `onBackendPropertyChanged` with the clock's
        time: never echoed to the host. */
    method SetPropertyWithTimestamp(property: string, value: Val, timestamp: int)
      requires Valid()
      modifies this
      ensures Valid() && hooks == old(hooks) && s == Apply(old(s), HostWrite(property, value, timestamp))
      ensures sent == old(sent)
      ensures Equal(Get(old(properties), property), value, false) ==>
              properties == old(properties) && announced == old(announced)
      ensures !Equal(Get(old(properties), property), value, false) ==>
              && properties == old(properties)[property := value]
              && announced == old(announced) + [Change(property, value, timestamp)]
    {
      var same := IsEqual(Get(properties, property), value, false);
      s := Apply(s, HostWrite(property, value, timestamp));
      if same {
        return;
      }
      properties := properties[property := value];
      announced := announced + [Change(property, value, timestamp)];
    }

    /** `setActive`: true when the flag flipped; then a hook is due and
        `connectedChanged` fires. */
    method SetActive(active: bool) returns (flipped: bool)
      requires Valid()
      modifies this
      ensures Valid() && s == old(s) && properties == old(properties)
      ensures hooks == L.Apply(old(hooks), L.SetActive(active)) && flipped == (hooks != old(hooks))
      ensures flipped ==> hooks.due == old(hooks).due + [active] && hooks.connected == old(hooks).connected + [active]
    {
      hooks := L.Apply(hooks, L.SetActive(active));
      if this.active == active {
        return false;
      }
      this.active := active;
      return true;
    }

    /** `deactivateQuiet`: the teardown's flip, without a connectivity signal. */
    method DeactivateQuiet() returns (flipped: bool)
      requires Valid()
      modifies this
      ensures Valid() && !active && s == old(s) && properties == old(properties)
      ensures hooks == L.Apply(old(hooks), L.DeactivateQuiet) && flipped == old(active)
      ensures hooks.connected == old(hooks).connected
      ensures flipped ==> hooks.due == old(hooks).due + [false]
    {
      hooks := L.Apply(hooks, L.DeactivateQuiet);
      if !active {
        return false;
      }
      active := false;
      return true;
    }
  }
}
