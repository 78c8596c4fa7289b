/** `Share` over Filter over MergeMap over Pairwise over a BehaviorSubject, as
    `CameraDevice.OnPropertyChange` puts them together (go/camera_device.go,
    go/observable.go): whole runs of states, subscriptions and disposals. */
module StreamProtocol {
  import opened GoValues
  import opened ObservableOperators
  import S = ShareProtocol

  // ---- what is to be heard of consecutive states ----

  /** Of the states from position `first` to position `last`: one `step` for each two neighbours. */
  function Chain<C, E>(step: (C, C) -> seq<E>, states: seq<C>, first: nat, last: nat): seq<E>
    requires first <= last < |states|
    decreases last
  {
    if first == last then [] else Chain(step, states, first, last - 1) + step(states[last - 1], states[last])
  }

  /** Later states do not change what earlier ones meant. */
  lemma {:induction false} ChainOfPrefix<C, E>(step: (C, C) -> seq<E>, states: seq<C>, c: C, first: nat, last: nat)
    requires first <= last < |states|
    ensures Chain(step, states + [c], first, last) == Chain(step, states, first, last)
    decreases last
  {
    if first < last {
      ChainOfPrefix(step, states, c, first, last - 1);
    }
  }

  /** Each two neighbouring states have their part of the chain, between those of the
      pairs before and after them, older state first. */
  lemma {:induction false} ChainAt<C, E>(step: (C, C) -> seq<E>, states: seq<C>, first: nat, m: nat, last: nat)
    requires first <= m < last < |states|
    ensures var before, part := |Chain(step, states, first, m)|, step(states[m], states[m + 1]);
      before + |part| <= |Chain(step, states, first, last)|
      && Chain(step, states, first, last)[before..before + |part|] == part
      && |Chain(step, states, first, m + 1)| == before + |part|
    decreases last
  {
    if m < last - 1 {
      ChainAt(step, states, first, m, last - 1);
    }
  }

  lemma ChainSnoc<C, E>(step: (C, C) -> seq<E>, states: seq<C>, c: C, first: nat)
    requires first < |states|
    ensures Chain(step, states + [c], first, |states|) ==
            Chain(step, states, first, |states| - 1) + step(states[|states| - 1], c)
  {
    ChainOfPrefix(step, states, c, first, |states| - 1);
  }

  /** The functions given to MergeMap and Filter. */
  datatype Ops<!C, !E> = Ops(project: ((C, C), nat) -> seq<E>, keep: E -> bool)

  /** What one pair of neighbours leads to behind MergeMap and Filter. */
  ghost predicate StepsBy<C(!new), E>(ops: Ops<C, E>, step: (C, C) -> seq<E>) {
    forall a, b, i :: step(a, b) == Filtered(ops.keep, ops.project((a, b), i))
  }

  // ---- the states of a stream ----

  /** The variables Pairwise and MergeMap capture for one upstream subscription, and the
      position of the state that was current when it was made. */
  datatype Connection<C> = Connection(first: nat, prev: Option<C>, index: nat)

  /** The positions of the states that were current when a subscriber joined and left. */
  datatype Span = Span(joined: nat, left: nat)

  /** `states` are all the values the behavior subject dispatched, its first one included. */
  datatype State<C, E> = State(
    states: seq<C>,
    completed: bool,
    connection: Option<Connection<C>>,
    share: S.State<E>,
    spans: map<nat, Span>)

  datatype Step<C> =
    | Next(c: C)
    | Complete
    | Subscribe(id: nat)
    | Detach(id: nat)
    | Release(id: nat)

  function Init<C, E>(c: C): State<C, E> {
    State([c], false, None, S.Init(), map[])
  }

  /** One value through Pairwise, MergeMap and Filter. */
  function Feed<C, E>(ops: Ops<C, E>, k: Connection<C>, c: C): (Connection<C>, seq<E>) {
    match k.prev
    case None => (k.(prev := Some(c)), [])
    case Some(p) => (k.(prev := Some(c), index := k.index + 1), Filtered(ops.keep, ops.project((p, c), k.index)))
  }

  /** A new upstream subscription: fresh operators, and the current state from the
      subject, unless it has completed. */
  function Connect<C, E>(ops: Ops<C, E>, states: seq<C>, completed: bool): (Connection<C>, seq<E>)
    requires states != []
  {
    var unfed := Connection(|states| - 1, None, 0);
    if completed then (unfed, []) else Feed(ops, unfed, states[|states| - 1])
  }

  function WarmUp<C, E>(ops: Ops<C, E>, s: State<C, E>): seq<E>
    requires s.states != []
  {
    if s.connection.Some? then [] else Connect(ops, s.states, s.completed).1
  }

  function EmitAll<E>(share: S.State<E>, events: seq<E>): S.State<E>
    decreases |events|
  {
    if events == [] then share else EmitAll(S.Apply(share, S.Emit(events[0])), events[1..])
  }

  predicate Enabled<C, E>(ops: Ops<C, E>, s: State<C, E>, l: Step<C>) {
    match l
    case Subscribe(id) => s.states != [] && S.Enabled(s.share, S.Subscribe(id, WarmUp(ops, s)))
    case Release(id) => S.Enabled(s.share, S.Release(id))
    case _ => true
  }

  function Apply<C, E>(ops: Ops<C, E>, s: State<C, E>, l: Step<C>): State<C, E>
    requires Enabled(ops, s, l)
  {
    match l
    case Next(c) =>
      if s.completed then s
      else if s.connection.None? then s.(states := s.states + [c])
      else
        var (k, events) := Feed(ops, s.connection.value, c);
        s.(states := s.states + [c], connection := Some(k), share := EmitAll(s.share, events))
    case Complete => s.(completed := true)
    case Subscribe(id) =>
      s.(connection := if s.connection.Some? then s.connection else Some(Connect(ops, s.states, s.completed).0),
         share := S.Apply(s.share, S.Subscribe(id, WarmUp(ops, s))),
         spans := s.spans[id := Span(|s.states| - 1, |s.states| - 1)])
    case Detach(id) =>
      s.(share := S.Apply(s.share, S.Detach(id)),
         spans := if id in s.share.subs && s.share.subs[id].status.Active? && id in s.spans && s.states != []
                  then s.spans[id := s.spans[id].(left := |s.states| - 1)] else s.spans)
    case Release(id) =>
      var share := S.Apply(s.share, S.Release(id));
      s.(share := share, connection := if share.members.None? then None else s.connection)
  }

  // ---- the invariant ----

  /** The last state a subscriber's log covers. */
  function End<C, E>(s: State<C, E>, id: nat): int
    requires id in s.spans && id in s.share.subs
  {
    if s.share.subs[id].status.Active? then |s.states| - 1 else s.spans[id].left
  }

  /** A subscriber's log is exactly the chain of the states between joining and leaving. */
  ghost predicate HeardItsSpan<C, E>(step: (C, C) -> seq<E>, s: State<C, E>, id: nat) {
    && id in s.spans && id in s.share.subs
    && s.spans[id].joined <= End(s, id) < |s.states|
    && s.share.subs[id].got == Chain(step, s.states, s.spans[id].joined, End(s, id))
  }

  ghost predicate Linked<C, E>(s: State<C, E>) {
    && s.states != []
    && (s.connection.Some? <==> s.share.members.Some?)
    && (s.connection.Some? ==>
          && s.connection.value.first < |s.states|
          && (s.connection.value.prev == Some(s.states[|s.states| - 1]) || s.completed))
  }

  ghost predicate Inv<C(!new), E(!new)>(step: (C, C) -> seq<E>, s: State<C, E>) {
    S.Reachable(s.share) && Linked(s) && AllHeard(step, s)
  }

  lemma {:induction false} EmitAllKeeps<E(!new)>(share: S.State<E>, events: seq<E>)
    requires S.Reachable(share)
    ensures S.Reachable(EmitAll(share, events))
    decreases |events|
  {
    if events != [] {
      S.ReachableStep(share, S.Emit(events[0]));
      EmitAllKeeps(S.Apply(share, S.Emit(events[0])), events[1..]);
    }
  }

  /** All but what the members got stays as it is. */
  lemma {:induction false} EmitAllShape<E>(share: S.State<E>, events: seq<E>)
    ensures var after := EmitAll(share, events);
      && after.members == share.members && after.refCount == share.refCount && after.upstream == share.upstream
      && after.epoch == share.epoch && after.subs.Keys == share.subs.Keys
    decreases |events|
  {
    if events != [] {
      EmitAllShape(S.Apply(share, S.Emit(events[0])), events[1..]);
    }
  }

  predicate IsMember<E>(share: S.State<E>, id: nat) {
    share.members.Some? && share.upstream.Some? && id in share.members.value
  }

  lemma {:induction false} EmitAllReaches<E>(share: S.State<E>, events: seq<E>, id: nat)
    requires id in share.subs
    ensures id in EmitAll(share, events).subs
    ensures EmitAll(share, events).subs[id] ==
            share.subs[id].(got := share.subs[id].got + if IsMember(share, id) then events else [])
    decreases |events|
  {
    if events == [] {
      assert share.subs[id].got + events == share.subs[id].got;
    } else {
      EmitAllReaches(S.Apply(share, S.Emit(events[0])), events[1..], id);
      EmittedInTurn(share.subs[id].got, events);
    }
  }

  lemma EmittedInTurn<E>(got: seq<E>, events: seq<E>)
    requires events != []
    ensures (got + [events[0]]) + events[1..] == got + events && got + [] == got
  {
    assert events == [events[0]] + events[1..];
  }

  lemma HeardOneMore<C, E>(step: (C, C) -> seq<E>, s: State<C, E>, s': State<C, E>, c: C, id: nat)
    requires HeardItsSpan(step, s, id) && s'.states == s.states + [c] && s'.spans == s.spans
    requires id in s'.share.subs && s'.share.subs[id].status == s.share.subs[id].status
    requires s'.share.subs[id].got ==
             s.share.subs[id].got + if s.share.subs[id].status.Active? then step(s.states[|s.states| - 1], c) else []
    ensures HeardItsSpan(step, s', id)
  {
    if s.share.subs[id].status.Active? {
      ChainSnoc(step, s.states, c, s.spans[id].joined);
    } else {
      ChainOfPrefix(step, s.states, c, s.spans[id].joined, s.spans[id].left);
    }
  }

  ghost predicate AllHeard<C, E>(step: (C, C) -> seq<E>, s: State<C, E>) {
    s.spans.Keys == s.share.subs.Keys && forall id | id in s.spans :: HeardItsSpan(step, s, id)
  }

  /** What the shared subject's invariant says of its members. */
  lemma MembersAreActive<E(!new)>(share: S.State<E>, id: nat)
    requires S.Reachable(share) && id in share.subs
    ensures share.subs[id].status.Active? <==> IsMember(share, id)
    ensures share.members.Some? <==> share.upstream.Some?
  {
    S.ReachableInv(share);
    S.NobodyLeft(share);
  }

  /** What a step that emits nothing leaves alone stays heard. */
  lemma HeardStays<C, E>(step: (C, C) -> seq<E>, s: State<C, E>, s': State<C, E>, id: nat)
    requires HeardItsSpan(step, s, id) && s'.states == s.states
    requires id in s'.spans && s'.spans[id].joined == s.spans[id].joined
    requires id in s'.share.subs && s'.share.subs[id].got == s.share.subs[id].got
    requires End(s', id) == End(s, id)
    ensures HeardItsSpan(step, s', id)
  {
  }

  lemma NextHeard<C(!new), E(!new)>(ops: Ops<C, E>, step: (C, C) -> seq<E>, s: State<C, E>, c: C, id: nat)
    requires StepsBy(ops, step) && S.Reachable(s.share) && Linked(s) && AllHeard(step, s) && !s.completed && id in s.spans
    ensures HeardItsSpan(step, Apply(ops, s, Next(c)), id)
  {
    var s' := Apply(ops, s, Next(c));
    assert HeardItsSpan(step, s, id);
    MembersAreActive(s.share, id);
    if s.connection.Some? {
      EmitAllReaches(s.share, Feed(ops, s.connection.value, c).1, id);
    }
    assert s.share.subs[id].got + [] == s.share.subs[id].got;
    HeardOneMore(step, s, s', c, id);
  }

  lemma NextInv<C(!new), E(!new)>(ops: Ops<C, E>, step: (C, C) -> seq<E>, s: State<C, E>, c: C)
    requires StepsBy(ops, step) && Inv(step, s)
    ensures Inv(step, Apply(ops, s, Next(c)))
  {
    if !s.completed {
      if s.connection.Some? {
        EmitAllKeeps(s.share, Feed(ops, s.connection.value, c).1);
        EmitAllShape(s.share, Feed(ops, s.connection.value, c).1);
      }
      forall id | id in s.spans ensures HeardItsSpan(step, Apply(ops, s, Next(c)), id) {
        NextHeard(ops, step, s, c, id);
      }
    }
  }

  lemma SubscribeLinked<C, E>(ops: Ops<C, E>, s: State<C, E>, id: nat)
    requires Linked(s) && Enabled(ops, s, Subscribe(id))
    ensures Linked(Apply(ops, s, Subscribe(id)))
  {
  }

  lemma SubscribeHeard<C, E>(ops: Ops<C, E>, step: (C, C) -> seq<E>, s: State<C, E>, id: nat)
    requires Linked(s) && AllHeard(step, s) && Enabled(ops, s, Subscribe(id))
    ensures AllHeard(step, Apply(ops, s, Subscribe(id)))
  {
    var s' := Apply(ops, s, Subscribe(id));
    forall i | i in s'.spans ensures HeardItsSpan(step, s', i) {
      if i != id {
        HeardStays(step, s, s', i);
      }
    }
  }

  lemma DetachHeard<C, E>(ops: Ops<C, E>, step: (C, C) -> seq<E>, s: State<C, E>, id: nat)
    requires Linked(s) && AllHeard(step, s)
    ensures AllHeard(step, Apply(ops, s, Detach(id))) && Linked(Apply(ops, s, Detach(id)))
  {
    var s' := Apply(ops, s, Detach(id));
    forall i | i in s'.spans ensures HeardItsSpan(step, s', i) {
      HeardStays(step, s, s', i);
    }
  }

  lemma ReleaseLinked<C, E>(ops: Ops<C, E>, s: State<C, E>, id: nat)
    requires Linked(s) && Enabled(ops, s, Release(id))
    ensures Linked(Apply(ops, s, Release(id)))
  {
  }

  lemma ReleaseHeard<C, E>(ops: Ops<C, E>, step: (C, C) -> seq<E>, s: State<C, E>, id: nat)
    requires Linked(s) && AllHeard(step, s) && Enabled(ops, s, Release(id))
    ensures AllHeard(step, Apply(ops, s, Release(id)))
  {
    var s' := Apply(ops, s, Release(id));
    forall i | i in s'.spans ensures HeardItsSpan(step, s', i) {
      HeardStays(step, s, s', i);
    }
  }

  lemma CompleteHeard<C, E>(ops: Ops<C, E>, step: (C, C) -> seq<E>, s: State<C, E>)
    requires AllHeard(step, s)
    ensures AllHeard(step, Apply(ops, s, Complete))
  {
    forall i | i in s.spans ensures HeardItsSpan(step, Apply(ops, s, Complete), i) {
      assert HeardItsSpan(step, s, i);
    }
  }

  lemma SubscribeInv<C(!new), E(!new)>(ops: Ops<C, E>, step: (C, C) -> seq<E>, s: State<C, E>, id: nat)
    requires Inv(step, s) && Enabled(ops, s, Subscribe(id))
    ensures Inv(step, Apply(ops, s, Subscribe(id)))
  {
    S.ReachableStep(s.share, S.Subscribe(id, WarmUp(ops, s)));
    SubscribeLinked(ops, s, id);
    SubscribeHeard(ops, step, s, id);
  }

  lemma DetachInv<C(!new), E(!new)>(ops: Ops<C, E>, step: (C, C) -> seq<E>, s: State<C, E>, id: nat)
    requires Inv(step, s) && Enabled(ops, s, Detach(id))
    ensures Inv(step, Apply(ops, s, Detach(id)))
  {
    S.ReachableStep(s.share, S.Detach(id));
    DetachHeard(ops, step, s, id);
  }

  lemma ReleaseInv<C(!new), E(!new)>(ops: Ops<C, E>, step: (C, C) -> seq<E>, s: State<C, E>, id: nat)
    requires Inv(step, s) && Enabled(ops, s, Release(id))
    ensures Inv(step, Apply(ops, s, Release(id)))
  {
    S.ReachableStep(s.share, S.Release(id));
    ReleaseLinked(ops, s, id);
    ReleaseHeard(ops, step, s, id);
  }

  lemma StepInv<C(!new), E(!new)>(ops: Ops<C, E>, step: (C, C) -> seq<E>, s: State<C, E>, l: Step<C>)
    requires StepsBy(ops, step) && Inv(step, s) && Enabled(ops, s, l)
    ensures Inv(step, Apply(ops, s, l))
  {
    match l
    case Next(c) => NextInv(ops, step, s, c);
    case Complete => CompleteHeard(ops, step, s);
    case Subscribe(id) => SubscribeInv(ops, step, s, id);
    case Detach(id) => DetachInv(ops, step, s, id);
    case Release(id) => ReleaseInv(ops, step, s, id);
  }

  // ---- whole runs ----

  ghost predicate CanRun<C, E>(ops: Ops<C, E>, s: State<C, E>, ls: seq<Step<C>>)
    decreases |ls|
  {
    ls == [] || (Enabled(ops, s, ls[0]) && CanRun(ops, Apply(ops, s, ls[0]), ls[1..]))
  }

  ghost function Run<C, E>(ops: Ops<C, E>, s: State<C, E>, ls: seq<Step<C>>): State<C, E>
    requires CanRun(ops, s, ls)
    decreases |ls|
  {
    if ls == [] then s else Run(ops, Apply(ops, s, ls[0]), ls[1..])
  }

  lemma {:induction false} RunInv<C(!new), E(!new)>(ops: Ops<C, E>, step: (C, C) -> seq<E>, s: State<C, E>, ls: seq<Step<C>>)
    requires StepsBy(ops, step) && Inv(step, s) && CanRun(ops, s, ls)
    ensures Inv(step, Run(ops, s, ls))
    decreases |ls|
  {
    if ls != [] {
      StepInv(ops, step, s, ls[0]);
      RunInv(ops, step, Apply(ops, s, ls[0]), ls[1..]);
    }
  }

  /** Over every run of states, completion, subscribing and both halves of disposing:
      every subscriber, disposed ones included, has heard exactly the steps between the
      states from the one current when it joined to the one current when it left; the
      count is the number not yet disposed, and the operators are connected exactly
      while it is positive. */
  lemma EverySubscriberHearsItsSpan<C(!new), E(!new)>(
    ops: Ops<C, E>, step: (C, C) -> seq<E>, c: C, ls: seq<Step<C>>, s: State<C, E>)
    requires StepsBy(ops, step) && CanRun(ops, Init(c), ls) && s == Run(ops, Init(c), ls)
    ensures s.spans.Keys == s.share.subs.Keys
    ensures forall id | id in s.share.subs :: HeardItsSpan(step, s, id)
    ensures s.share.refCount == |S.Undisposed(s.share)|
    ensures s.connection.Some? <==> s.share.refCount > 0
  {
    S.InitReachable<E>();
    RunInv(ops, step, Init(c), ls);
    S.ReachableInv(s.share);
  }

  /** The first subscriber connects fresh operators at the current state, the last
      release drops them, and nothing in between replaces them. */
  lemma ConnectionsFollowTheCount<C(!new), E(!new)>(ops: Ops<C, E>, step: (C, C) -> seq<E>, s: State<C, E>, l: Step<C>)
    requires StepsBy(ops, step) && Inv(step, s) && Enabled(ops, s, l)
    ensures var s' := Apply(ops, s, l);
      && (s.connection.None? && s'.connection.Some? ==>
            l.Subscribe? && s.share.refCount == 0 && s'.connection.value.first == |s.states| - 1
            && s'.connection.value.index == 0 && WarmUp(ops, s) == [])
      && (s.connection.Some? && s'.connection.None? ==> l.Release? && s.share.refCount == 1)
      && (s.connection.Some? && s'.connection.Some? ==> s'.connection.value.first == s.connection.value.first)
  {
    S.ReachableInv(s.share);
    if l.Next? && !s.completed && s.connection.Some? {
      EmitAllShape(s.share, Feed(ops, s.connection.value, l.c).1);
    }
  }

  /** A span is what its name says: it begins at the state current at the subscribe,
      ends at the one current at the first dispose, and never changes after. */
  lemma SpansAreFixed<C(!new), E(!new)>(ops: Ops<C, E>, step: (C, C) -> seq<E>, s: State<C, E>, l: Step<C>, id: nat)
    requires StepsBy(ops, step) && Inv(step, s) && Enabled(ops, s, l)
    ensures l == Subscribe(id) ==> Apply(ops, s, l).spans[id].joined == |s.states| - 1
    ensures id in s.spans ==> id in Apply(ops, s, l).spans && Apply(ops, s, l).spans[id].joined == s.spans[id].joined
    ensures id in s.spans && s.share.subs[id].status.Active? && l == Detach(id) ==>
            Apply(ops, s, l).spans[id].left == |s.states| - 1
    ensures id in s.spans && !s.share.subs[id].status.Active? ==> Apply(ops, s, l).spans[id] == s.spans[id]
  {
    assert HeardItsSpan(step, s, id) || id !in s.spans;
  }
}

/** The objects behind the stream: the subject, the three operators of one connection,
    and the shared subscription. */
module StreamObjects {
  import opened GoValues
  import opened ObservableOperators
  import opened Subjects
  import opened StreamProtocol
  import S = ShareProtocol
  import ShareObjects

  /** Pairwise, then MergeMap, then Filter, computes the chain of all states. */
  lemma {:induction false} ComposedIsChain<C(!new), E>(ops: Ops<C, E>, step: (C, C) -> seq<E>, states: seq<C>)
    requires StepsBy(ops, step) && states != []
    ensures Filtered(ops.keep, Merged(ops.project, Pairs(states))) == Chain(step, states, 0, |states| - 1)
    decreases |states|
  {
    if |states| > 1 {
      var init, last := states[..|states| - 1], states[|states| - 1];
      ComposedIsChain(ops, step, init);
      assert states == init + [last];
      ChainSnoc(step, init, last, 0);
      var pairs, pair := Pairs(init), (init[|init| - 1], last);
      PairsSnoc(init, last);
      assert (pairs + [pair])[..|pairs|] == pairs;
      FilteredAppend(ops.keep, Merged(ops.project, pairs), ops.project(pair, |pairs|));
    }
  }

  /** The operators of one upstream subscription. */
  class Operators<C(0), E> {
    const pairwise: Pairwise<C>
    const mergeMap: MergeMap<(C, C), E>
    const filter: Filter<E>

    ghost predicate Valid()
      reads pairwise, mergeMap, filter
    {
      && pairwise.Valid() && mergeMap.Valid() && filter.Valid()
      && mergeMap.inputs == pairwise.outputs && filter.inputs == mergeMap.outputs
    }

    ghost function Functions(): Ops<C, E> {
      Ops(mergeMap.project, filter.keep)
    }

    ghost function Captured(first: nat): Connection<C>
      reads pairwise, mergeMap
    {
      Connection(first, if pairwise.hasValue then Some(pairwise.prev) else None, mergeMap.index)
    }

    constructor (project: ((C, C), nat) -> seq<E>, keep: E -> bool)
      ensures Valid() && Functions() == Ops(project, keep)
      ensures fresh(pairwise) && fresh(mergeMap) && fresh(filter)
      ensures pairwise.inputs == [] && forall first :: Captured(first) == Connection(first, None, 0)
    {
      pairwise := new Pairwise();
      mergeMap := new MergeMap(project);
      filter := new Filter(keep);
    }

    /** One value in, what the filter lets through out. */
    method OnValue(c: C) returns (events: seq<E>)
      requires Valid()
      modifies pairwise, mergeMap, filter
      ensures Valid() && pairwise.inputs == old(pairwise.inputs) + [c]
      ensures filter.outputs == old(filter.outputs) + events
      ensures forall first ::
        (Captured(first), events) == Feed(Functions(), old(Captured(first)), c)
    {
      var pairs := pairwise.OnValue(c);
      if pairs == [] {
        return [];
      }
      var projected := mergeMap.OnValue(pairs[0]);
      events := PassThrough(projected);
    }

    method PassThrough(projected: seq<E>) returns (events: seq<E>)
      requires filter.Valid()
      modifies filter
      ensures filter.Valid() && filter.inputs == old(filter.inputs) + projected
      ensures filter.outputs == old(filter.outputs) + events
      ensures events == Filtered(filter.keep, projected)
    {
      events := [];
      for i := 0 to |projected|
        invariant filter.Valid() && filter.inputs == old(filter.inputs) + projected[..i]
        invariant filter.outputs == old(filter.outputs) + events
        invariant events == Filtered(filter.keep, projected[..i])
      {
        assert projected[..i + 1][..i] == projected[..i];
        var out := filter.OnValue(projected[i]);
        events := events + out;
      }
      assert projected[..|projected|] == projected;
    }
  }

  /** What went through the operators of one connection is the chain of what they were fed. */
  lemma OutputsAreTheChain<C(0,!new), E>(o: Operators<C, E>, step: (C, C) -> seq<E>)
    requires o.Valid() && StepsBy(o.Functions(), step) && o.pairwise.inputs != []
    ensures o.filter.outputs == Chain(step, o.pairwise.inputs, 0, |o.pairwise.inputs| - 1)
  {
    ComposedIsChain(o.Functions(), step, o.pairwise.inputs);
  }

  lemma FirstApplied<C, E>(ops: Ops<C, E>, s: State<C, E>, id: nat, k: Connection<C>)
    requires s.states != [] && s.connection.None? && id !in s.share.subs
    requires (k, []) == Connect(ops, s.states, s.completed)
    ensures Enabled(ops, s, Step.Subscribe(id))
    ensures Apply(ops, s, Step.Subscribe(id)) ==
            State(s.states, s.completed, Some(k), S.Apply(s.share, S.Subscribe(id, [])),
                  s.spans[id := Span(|s.states| - 1, |s.states| - 1)])
  {
  }

  lemma DetachApplied<C, E>(ops: Ops<C, E>, s: State<C, E>, id: nat)
    requires s.states != [] && id in s.share.subs && id in s.spans
    ensures Apply(ops, s, Step.Detach(id)) ==
            State(s.states, s.completed, s.connection, S.Apply(s.share, S.Detach(id)),
                  if s.share.subs[id].status.Active? then s.spans[id := s.spans[id].(left := |s.states| - 1)]
                  else s.spans)
  {
  }

  /** The observable of one call: the source subject, the shared subscription, and the
      callback and operators of the current connection, if there is one. */
  class SharedStream<C(0,!new), E(!new)> {
    const ops: Ops<C, E>
    const source: BehaviorSubject<C>
    const share: ShareObjects.Share<E>
    var operators: Operators<C, E>
    var tap: Listener<C>
    ghost var first: nat
    ghost var spans: map<nat, Span>

    ghost predicate Parts()
      reads this, source, source.subscribers, share, operators, operators.pairwise, operators.mergeMap, operators.filter
    {
      source.Valid() && share.Valid() && operators.Valid() && operators.Functions() == ops
    }

    ghost predicate Tapped()
      reads this, source
    {
      source.subscribers == if source.completed then {} else {tap}
    }

    ghost predicate Valid()
      reads this, source, source.subscribers, share, operators, operators.pairwise, operators.mergeMap, operators.filter
    {
      && Parts() && share.connected == share.members.Some?
      && if share.connected then Tapped() else source.subscribers == {}
    }

    ghost function Current(): State<C, E>
      reads this, source, share, operators, operators.pairwise, operators.mergeMap
    {
      State(source.values, source.completed, if share.connected then Some(operators.Captured(first)) else None,
            share.s, spans)
    }

    constructor (ops: Ops<C, E>, c: C)
      ensures Valid() && Current() == Init(c) && this.ops == ops
      ensures fresh(source) && fresh(share) && fresh(operators)
    {
      this.ops := ops;
      source := new BehaviorSubject(c);
      share := new ShareObjects.Share();
      operators := new Operators(ops.project, ops.keep);
      tap := new Listener();
      first, spans := 0, map[];
    }

    /** The next state: the subject dispatches it to the connected operators, and what
        they let through goes to every member of the shared subject. */
    method Next(c: C)
      requires Valid()
      modifies source, source.subscribers, share, operators.pairwise, operators.mergeMap, operators.filter
      ensures Valid() && Current() == Apply(ops, old(Current()), Step.Next(c))
    {
      source.Next(c);
      if !source.completed && share.connected {
        FeedOperators(c);
      }
    }

    method FeedOperators(c: C)
      requires share.Valid() && operators.Valid() && operators.Functions() == ops
      modifies share, operators.pairwise, operators.mergeMap, operators.filter
      ensures share.Valid() && operators.Valid() && operators.Functions() == ops
      ensures (operators.Captured(first), share.s) ==
              var fed := Feed(ops, old(operators.Captured(first)), c); (fed.0, EmitAll(old(share.s), fed.1))
      ensures share.members == old(share.members) && share.connected == old(share.connected)
    {
      var events := operators.OnValue(c);
      assert (operators.Captured(first), events) == Feed(ops, old(operators.Captured(first)), c);
      EmitEach(events);
    }

    method EmitEach(events: seq<E>)
      requires share.Valid()
      modifies share
      ensures share.Valid() && share.s == EmitAll(old(share.s), events)
      ensures share.members == old(share.members) && share.connected == old(share.connected)
    {
      for i := 0 to |events|
        invariant share.Valid()
        invariant EmitAll(share.s, events[i..]) == EmitAll(old(share.s), events)
        invariant share.members == old(share.members) && share.connected == old(share.connected)
      {
        assert events[i..][1..] == events[i + 1..];
        share.Emit(events[i]);
      }
    }

    method CompleteSource()
      requires Valid()
      modifies source
      ensures Valid() && Current() == Apply(ops, old(Current()), Step.Complete)
    {
      source.Complete();
    }

    /** The first subscriber connects; what the subject emits then only primes Pairwise. */
    method Subscribe(id: nat)
      requires Valid() && id !in share.s.subs
      modifies this, source, share
      ensures Valid() && Current() == Apply(ops, old(Current()), Step.Subscribe(id))
      ensures operators == old(operators) || fresh(operators)
    {
      if share.connected {
        SubscribeMore(id);
      } else {
        SubscribeFirst(id);
      }
    }

    method SubscribeMore(id: nat)
      requires Valid() && share.connected && id !in share.s.subs
      modifies this`spans, share
      ensures Valid() && Current() == Apply(ops, old(Current()), Step.Subscribe(id))
    {
      Join(id);
    }

    method SubscribeFirst(id: nat)
      requires Valid() && !share.connected && id !in share.s.subs
      modifies this, source, share
      ensures Valid() && Current() == Apply(ops, old(Current()), Step.Subscribe(id)) && fresh(operators)
    {
      ghost var before := Current();
      ConnectSource();
      FirstApplied(ops, before, id, operators.Captured(first));
      Join(id);
    }

    method Join(id: nat)
      requires Parts() && Tapped() && S.Enabled(share.s, S.Subscribe(id, []))
      modifies this`spans, share
      ensures Valid() && share.connected && operators.Captured(first) == old(operators.Captured(first))
      ensures share.s == S.Apply(old(share.s), S.Subscribe(id, []))
      ensures spans == old(spans)[id := Span(|source.values| - 1, |source.values| - 1)]
    {
      share.Subscribe(id, []);
      spans := spans[id := Span(|source.values| - 1, |source.values| - 1)];
    }

    method ConnectSource()
      requires source.Valid() && source.subscribers == {}
      modifies this`operators, this`tap, this`first, source
      ensures source.Valid() && source.values == old(source.values) && source.completed == old(source.completed)
      ensures source.subscribers == if source.completed then {} else {tap}
      ensures fresh(operators) && operators.Valid() && operators.Functions() == ops
      ensures (operators.Captured(first), []) == Connect(ops, source.values, source.completed)
    {
      first := |source.values| - 1;
      operators := new Operators(ops.project, ops.keep);
      tap := new Listener();
      source.Subscribe(tap);
      if tap.got != [] {
        var dropped := operators.OnValue(tap.got[0]);
      }
    }

    method Detach(id: nat) returns (again: bool)
      requires Valid() && id in share.s.subs && id in spans
      modifies this`spans, share
      ensures Valid() && Current() == Apply(ops, old(Current()), Step.Detach(id))
      ensures !again ==> Enabled(ops, Current(), Step.Release(id))
    {
      ghost var before := Current();
      DetachApplied(ops, before, id);
      if share.s.subs[id].status.Active? {
        spans := spans[id := spans[id].(left := |source.values| - 1)];
      }
      again := share.Detach(id);
    }

    /** The last release drops the connection. */
    method Release(id: nat)
      requires Valid() && Enabled(ops, Current(), Step.Release(id))
      modifies source, share
      ensures Valid() && Current() == Apply(ops, old(Current()), Step.Release(id))
    {
      share.Release(id);
      if share.members.None? {
        source.Unsubscribe(tap);
      }
    }
  }
}
