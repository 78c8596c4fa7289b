/** The operators of go/observable.go: each closure with its captured variables is an
    object, and computes a list function of what it was fed. */
module ObservableOperators {

  // ---- the list functions ----

  function Pairs<T>(xs: seq<T>): seq<(T, T)> {
    if xs == [] then [] else seq(|xs| - 1, i requires 0 <= i < |xs| - 1 => (xs[i], xs[i + 1]))
  }

  function Filtered<T>(keep: T -> bool, xs: seq<T>): seq<T>
    decreases |xs|
  {
    if xs == [] then []
    else Filtered(keep, xs[..|xs| - 1]) + if keep(xs[|xs| - 1]) then [xs[|xs| - 1]] else []
  }

  /** The projections of all values, the value at position `i` projected as number `i`. */
  function Merged<T, R>(project: (T, nat) -> seq<R>, xs: seq<T>): seq<R>
    decreases |xs|
  {
    if xs == [] then [] else Merged(project, xs[..|xs| - 1]) + project(xs[|xs| - 1], |xs| - 1)
  }

  /** Drops a value that equals the one emitted last. */
  function Distinct<T>(equal: (T, T) -> bool, xs: seq<T>): seq<T>
    decreases |xs|
  {
    if xs == [] then []
    else
      var kept, x := Distinct(equal, xs[..|xs| - 1]), xs[|xs| - 1];
      if kept != [] && equal(kept[|kept| - 1], x) then kept else kept + [x]
  }

  /** Drops a value that equals its predecessor. */
  function WithoutRepeats<T>(equal: (T, T) -> bool, xs: seq<T>): seq<T>
    decreases |xs|
  {
    if xs == [] then []
    else
      var kept, x := WithoutRepeats(equal, xs[..|xs| - 1]), xs[|xs| - 1];
      if |xs| > 1 && equal(xs[|xs| - 2], x) then kept else kept + [x]
  }

  /** Values that count as equal are equal to the same values after them. */
  ghost predicate Interchangeable<T(!new)>(equal: (T, T) -> bool) {
    forall a, b, c :: InterchangeableAt(equal, a, b, c)
  }

  predicate InterchangeableAt<T>(equal: (T, T) -> bool, a: T, b: T, c: T) {
    equal(a, b) ==> (equal(a, c) <==> equal(b, c))
  }

  /** The value a comparison with the last output uses agrees with the predecessor. */
  lemma {:induction false} LastKeptStandsForPredecessor<T(!new)>(equal: (T, T) -> bool, xs: seq<T>)
    requires Interchangeable(equal) && xs != []
    ensures Distinct(equal, xs) == WithoutRepeats(equal, xs) != []
    ensures var kept, x := Distinct(equal, xs)[|Distinct(equal, xs)| - 1], xs[|xs| - 1]; kept == x || equal(kept, x)
    decreases |xs|
  {
    if |xs| > 1 {
      var init := xs[..|xs| - 1];
      LastKeptStandsForPredecessor(equal, init);
      assert init[|init| - 1] == xs[|xs| - 2];
      var kept := Distinct(equal, init)[|Distinct(equal, init)| - 1];
      assert InterchangeableAt(equal, kept, xs[|xs| - 2], xs[|xs| - 1]);
    }
  }

  lemma DistinctOfThree<T>(equal: (T, T) -> bool, a: T, b: T, c: T)
    requires equal(a, b)
    ensures Distinct(equal, [a, b, c]) == if equal(a, c) then [a] else [a, c]
    ensures WithoutRepeats(equal, [a, b, c]) == if equal(b, c) then [a] else [a, c]
  {
    assert [a, b, c][..2] == [a, b] && [a, b][..1] == [a] && [a][..0] == [];
    assert Distinct(equal, [a]) == [a] && WithoutRepeats(equal, [a]) == [a];
    assert Distinct(equal, [a, b]) == [a] && WithoutRepeats(equal, [a, b]) == [a];
  }

  /** Dropping a value equal to the one emitted last is dropping a value equal to its
      predecessor, on every input, if and only if equal values are interchangeable: so
      for an equivalence, and not for a tolerance. */
  lemma DistinctDropsRepeatsIff<T(!new)>(equal: (T, T) -> bool)
    ensures (forall xs: seq<T> :: DropsRepeats(equal, xs)) <==> Interchangeable(equal)
  {
    if Interchangeable(equal) {
      forall xs: seq<T> ensures DropsRepeats(equal, xs) {
        if xs != [] { LastKeptStandsForPredecessor(equal, xs); }
      }
    }
    if forall xs: seq<T> :: DropsRepeats(equal, xs) {
      forall a, b, c ensures InterchangeableAt(equal, a, b, c) {
        assert DropsRepeats(equal, [a, b, c]);
        AgreeOnThree(equal, a, b, c);
      }
    }
  }

  predicate DropsRepeats<T(==)>(equal: (T, T) -> bool, xs: seq<T>) {
    Distinct(equal, xs) == WithoutRepeats(equal, xs)
  }

  lemma AgreeOnThree<T>(equal: (T, T) -> bool, a: T, b: T, c: T)
    requires Distinct(equal, [a, b, c]) == WithoutRepeats(equal, [a, b, c])
    ensures InterchangeableAt(equal, a, b, c)
  {
    if equal(a, b) {
      DistinctOfThree(equal, a, b, c);
      assert |[a]| != |[a, c]|;
    }
  }

  /** No two neighbours of the output are equal, whatever `equal` is. */
  lemma {:induction false} DistinctHasNoRepeats<T>(equal: (T, T) -> bool, xs: seq<T>)
    ensures forall i | 0 < i < |Distinct(equal, xs)| :: !equal(Distinct(equal, xs)[i - 1], Distinct(equal, xs)[i])
    decreases |xs|
  {
    if xs != [] {
      DistinctHasNoRepeats(equal, xs[..|xs| - 1]);
    }
  }

  /** With a tolerance the two differ: 0, 1, 2 within 1. */
  lemma ToleranceIsNotDropRepeats()
    ensures var near := (a: int, b: int) => -1 <= a - b <= 1;
      Distinct(near, [0, 1, 2]) == [0, 2] && WithoutRepeats(near, [0, 1, 2]) == [0]
  {
    var near := (a: int, b: int) => -1 <= a - b <= 1;
    DistinctOfThree(near, 0, 1, 2);
  }

  lemma {:induction false} FilteredAppend<T>(keep: T -> bool, xs: seq<T>, ys: seq<T>)
    ensures Filtered(keep, xs + ys) == Filtered(keep, xs) + Filtered(keep, ys)
    decreases |ys|
  {
    if ys == [] {
      assert xs + ys == xs;
    } else {
      assert (xs + ys)[..|xs + ys| - 1] == xs + ys[..|ys| - 1];
      FilteredAppend(keep, xs, ys[..|ys| - 1]);
    }
  }

  /** A pair of neighbours more per value. */
  lemma PairsSnoc<T>(xs: seq<T>, x: T)
    ensures Pairs(xs + [x]) == Pairs(xs) + if xs == [] then [] else [(xs[|xs| - 1], x)]
  {
    if xs != [] {
      var longer, n := Pairs(xs + [x]), |xs| - 1;
      assert |longer| == n + 1 && longer[n] == (xs[n], x);
      assert longer[..n] == Pairs(xs);
    }
  }

  // ---- the operators as objects ----

  class Pairwise<T(0)> {
    var hasValue: bool
    var prev: T
    ghost var inputs: seq<T>
    ghost var outputs: seq<(T, T)>

    ghost predicate Valid()
      reads this
    {
      && outputs == Pairs(inputs)
      && hasValue == (inputs != [])
      && (hasValue ==> prev == inputs[|inputs| - 1])
    }

    constructor ()
      ensures Valid() && inputs == []
    {
      hasValue, inputs, outputs := false, [], [];
    }

    method OnValue(value: T) returns (out: seq<(T, T)>)
      requires Valid()
      modifies this
      ensures Valid() && inputs == old(inputs) + [value] && outputs == old(outputs) + out
      ensures hasValue && prev == value
      ensures out == if old(hasValue) then [(old(prev), value)] else []
    {
      out := [];
      if hasValue {
        out := [(prev, value)];
      }
      PairsSnoc(inputs, value);
      hasValue := true;
      prev := value;
      inputs, outputs := inputs + [value], outputs + out;
    }
  }

  /** `DistinctUntilChangedFunc`; `DistinctUntilChanged` passes `==`. */
  class DistinctUntilChanged<T(0)> {
    const equal: (T, T) -> bool
    var hasValue: bool
    var lastValue: T
    ghost var inputs: seq<T>
    ghost var outputs: seq<T>

    ghost predicate Valid()
      reads this
    {
      && outputs == Distinct(equal, inputs)
      && hasValue == (outputs != [])
      && (hasValue ==> lastValue == outputs[|outputs| - 1])
    }

    constructor (equal: (T, T) -> bool)
      ensures Valid() && inputs == [] && this.equal == equal
    {
      this.equal := equal;
      hasValue, inputs, outputs := false, [], [];
    }

    method OnValue(value: T) returns (out: seq<T>)
      requires Valid()
      modifies this
      ensures Valid() && inputs == old(inputs) + [value] && outputs == old(outputs) + out
      ensures out == if old(hasValue) && equal(old(lastValue), value) then [] else [value]
      ensures hasValue && lastValue == if out == [] then old(lastValue) else value
    {
      out := [];
      if !hasValue || !equal(lastValue, value) {
        hasValue := true;
        lastValue := value;
        out := [value];
      }
      assert (inputs + [value])[..|inputs|] == inputs;
      inputs, outputs := inputs + [value], outputs + out;
    }
  }

  class MergeMap<T, R> {
    const project: (T, nat) -> seq<R>
    var index: nat
    ghost var inputs: seq<T>
    ghost var outputs: seq<R>

    ghost predicate Valid()
      reads this
    {
      outputs == Merged(project, inputs) && index == |inputs|
    }

    constructor (project: (T, nat) -> seq<R>)
      ensures Valid() && inputs == [] && this.project == project
    {
      this.project := project;
      index, inputs, outputs := 0, [], [];
    }

    method OnValue(value: T) returns (out: seq<R>)
      requires Valid()
      modifies this
      ensures Valid() && inputs == old(inputs) + [value] && outputs == old(outputs) + out
      ensures out == project(value, old(index)) && index == old(index) + 1
    {
      var results := project(value, index);
      index := index + 1;
      out := [];
      for i := 0 to |results|
        invariant out == results[..i]
      {
        out := out + [results[i]];
      }
      assert (inputs + [value])[..|inputs|] == inputs;
      inputs, outputs := inputs + [value], outputs + out;
    }
  }

  class Filter<T> {
    const keep: T -> bool
    ghost var inputs: seq<T>
    ghost var outputs: seq<T>

    ghost predicate Valid()
      reads this
    {
      outputs == Filtered(keep, inputs)
    }

    constructor (keep: T -> bool)
      ensures Valid() && inputs == [] && this.keep == keep
    {
      this.keep := keep;
      inputs, outputs := [], [];
    }

    method OnValue(value: T) returns (out: seq<T>)
      requires Valid()
      modifies this
      ensures Valid() && inputs == old(inputs) + [value] && outputs == old(outputs) + out
      ensures out == if keep(value) then [value] else []
    {
      out := [];
      if keep(value) {
        out := [value];
      }
      assert (inputs + [value])[..|inputs|] == inputs;
      inputs, outputs := inputs + [value], outputs + out;
    }
  }
}

/** `Subject`, `BehaviorSubject` and `ReplaySubject`: what each subscriber hears of the
    values put in. A subscriber is the log of one callback. */
module Subjects {
  class Listener<T> {
    var got: seq<T>

    constructor ()
      ensures got == []
    {
      got := [];
    }
  }

  /** Calls every subscriber in turn. */
  method Dispatch<T>(subscribers: set<Listener<T>>, value: T)
    modifies subscribers
    ensures forall l | l in subscribers :: l.got == old(l.got) + [value]
  {
    var rest := subscribers;
    while rest != {}
      invariant rest <= subscribers
      invariant forall l | l in subscribers :: l.got == old(l.got) + if l in rest then [] else [value]
      decreases rest
    {
      var l :| l in rest;
      rest := rest - {l};
      l.got := l.got + [value];
    }
  }

  /** `values` is every value the subject accepted; `joined` tells how many there were
      when a current subscriber joined. */
  class Subject<T> {
    var subscribers: set<Listener<T>>
    var completed: bool
    ghost var values: seq<T>
    ghost var joined: map<Listener<T>, nat>

    ghost predicate Valid()
      reads this, subscribers
    {
      && subscribers == joined.Keys
      && (completed ==> subscribers == {})
      && forall l | l in subscribers :: joined[l] <= |values| && l.got == values[joined[l]..]
    }

    constructor ()
      ensures Valid() && subscribers == {} && values == [] && !completed
    {
      subscribers, completed, values, joined := {}, false, [], map[];
    }

    method Next(value: T)
      requires Valid()
      modifies this, subscribers
      ensures Valid() && subscribers == old(subscribers) && completed == old(completed) && joined == old(joined)
      ensures values == if completed then old(values) else old(values) + [value]
    {
      if completed {
        return;
      }
      Dispatch(subscribers, value);
      values := values + [value];
    }

    method Complete()
      requires Valid()
      modifies this
      ensures Valid() && completed && subscribers == {} && values == old(values)
    {
      if completed {
        return;
      }
      completed := true;
      subscribers := {};
      joined := map[];
    }

    /** A new subscriber hears the values accepted from now on. */
    method Subscribe(l: Listener<T>) returns (closed: bool)
      requires Valid() && l !in subscribers && l.got == []
      modifies this
      ensures Valid() && values == old(values) && completed == old(completed) && closed == completed
      ensures subscribers == if completed then {} else old(subscribers) + {l}
      ensures !completed ==> joined == old(joined)[l := |values|]
    {
      if completed {
        return true;
      }
      subscribers := subscribers + {l};
      joined := joined[l := |values|];
      return false;
    }

    /** The teardown of a subscription; a second one changes nothing. */
    method Unsubscribe(l: Listener<T>)
      requires Valid()
      modifies this
      ensures Valid() && subscribers == old(subscribers) - {l} && values == old(values) && completed == old(completed)
      ensures joined == old(joined) - {l}
    {
      subscribers := subscribers - {l};
      joined := joined - {l};
    }
  }

  /** A value is kept even after completion, but no longer dispatched. */
  class BehaviorSubject<T> {
    var value: T
    var subscribers: set<Listener<T>>
    var completed: bool
    ghost var values: seq<T>
    ghost var joined: map<Listener<T>, nat>

    ghost predicate Valid()
      reads this, subscribers
    {
      && values != []
      && (!completed ==> value == values[|values| - 1])
      && subscribers == joined.Keys
      && (completed ==> subscribers == {})
      && forall l | l in subscribers :: joined[l] < |values| && l.got == values[joined[l]..]
    }

    constructor (initial: T)
      ensures Valid() && subscribers == {} && values == [initial] && !completed && value == initial
    {
      value, subscribers, completed, values, joined := initial, {}, false, [initial], map[];
    }

    method Next(value: T)
      requires Valid()
      modifies this, subscribers
      ensures Valid() && this.value == value && subscribers == old(subscribers) && completed == old(completed)
      ensures values == (if completed then old(values) else old(values) + [value]) && joined == old(joined)
    {
      this.value := value;
      if completed {
        return;
      }
      Dispatch(subscribers, value);
      values := values + [value];
    }

    method Unsubscribe(l: Listener<T>)
      requires Valid()
      modifies this
      ensures Valid() && subscribers == old(subscribers) - {l} && values == old(values) && value == old(value)
      ensures completed == old(completed) && joined == old(joined) - {l}
    {
      subscribers := subscribers - {l};
      joined := joined - {l};
    }

    method Complete()
      requires Valid()
      modifies this
      ensures Valid() && completed && subscribers == {} && values == old(values) && value == old(value)
    {
      completed, subscribers, joined := true, {}, map[];
    }

    /** A new subscriber hears the current value first, then all that follow, with no
        gap and no repetition: its log is a suffix of the values. */
    method Subscribe(l: Listener<T>)
      requires Valid() && l !in subscribers && l.got == []
      modifies this, l
      ensures Valid() && values == old(values) && value == old(value) && completed == old(completed)
      ensures completed ==> l.got == [] && subscribers == {}
      ensures !completed ==> subscribers == old(subscribers) + {l} && joined == old(joined)[l := |values| - 1]
    {
      if completed {
        return;
      }
      subscribers := subscribers + {l};
      l.got := l.got + [value];
      joined := joined[l := |values| - 1];
    }
  }

  function LastN<T>(xs: seq<T>, n: int): seq<T> {
    if n <= 0 then [] else if |xs| <= n then xs else xs[|xs| - n..]
  }

  /** `start` is the position in `values` from which a subscriber's log runs. */
  class ReplaySubject<T> {
    const bufferSize: int
    var buffer: seq<T>
    var subscribers: set<Listener<T>>
    var completed: bool
    ghost var values: seq<T>
    ghost var start: map<Listener<T>, nat>

    ghost predicate Valid()
      reads this, subscribers
    {
      && buffer == LastN(values, bufferSize)
      && subscribers == start.Keys
      && (completed ==> subscribers == {})
      && forall l | l in subscribers :: start[l] <= |values| && l.got == values[start[l]..]
    }

    constructor (bufferSize: int)
      ensures Valid() && subscribers == {} && values == [] && !completed && this.bufferSize == bufferSize
    {
      this.bufferSize := bufferSize;
      buffer, subscribers, completed, values, start := [], {}, false, [], map[];
    }

    method Next(value: T)
      requires Valid()
      modifies this, subscribers
      ensures Valid() && subscribers == old(subscribers) && completed == old(completed) && start == old(start)
      ensures values == if completed then old(values) else old(values) + [value]
    {
      if completed {
        return;
      }
      buffer := buffer + [value];
      if |buffer| > bufferSize {
        buffer := buffer[1..];
      }
      Dispatch(subscribers, value);
      values := values + [value];
    }

    method Complete()
      requires Valid()
      modifies this
      ensures Valid() && completed && subscribers == {} && values == old(values)
    {
      completed, subscribers, start := true, {}, map[];
    }

    /** Replayed and live values join without a gap: the log of a subscriber runs from
        `bufferSize` values before it joined. A completed subject still replays. */
    method Subscribe(l: Listener<T>)
      requires Valid() && l !in subscribers && l.got == []
      modifies this, l
      ensures Valid() && values == old(values) && completed == old(completed)
      ensures l.got == values[if bufferSize <= 0 then |values| else if |values| <= bufferSize then 0 else |values| - bufferSize..]
      ensures !completed ==> subscribers == old(subscribers) + {l}
      ensures !completed ==>
        start == old(start)[l := if bufferSize <= 0 then |values| else if |values| <= bufferSize then 0 else |values| - bufferSize]
      ensures completed ==> subscribers == {}
    {
      var buf := buffer;
      for i := 0 to |buf|
        invariant l.got == buf[..i]
        modifies l
      {
        l.got := l.got + [buf[i]];
      }
      assert l.got == buf;
      if completed {
        return;
      }
      subscribers := subscribers + {l};
      start := start[l := |values| - |buf|];
    }
  }
}

/** `Share`: subscribing, the two halves of disposing, and emitting, interleaved. */
module ShareProtocol {
  import opened GoValues

  datatype Status = Active | Detached | Released

  /** `joined` and `left` are positions in the emitted values. */
  datatype Subscription<T> = Subscription(status: Status, got: seq<T>, joined: nat, left: nat)

  /** `epoch` numbers the upstream subscriptions; `members` are the callbacks in the
      current subject. */
  datatype State<T> = State(
    members: Option<set<nat>>,
    refCount: int,
    upstream: Option<nat>,
    epoch: nat,
    subs: map<nat, Subscription<T>>,
    emitted: seq<T>)

  datatype Step<T> =
    | Subscribe(id: nat, warmUp: seq<T>)  // warmUp: what the source emits while connecting
    | Detach(id: nat)                     // Dispose: the callback leaves the subject
    | Release(id: nat)                    // Dispose: the count goes down
    | Emit(value: T)

  function Init<T>(): State<T> {
    State(None, 0, None, 0, map[], [])
  }

  predicate Enabled<T>(s: State<T>, l: Step<T>) {
    match l
    case Subscribe(id, warmUp) => id !in s.subs && (s.members.Some? ==> warmUp == [])
    case Release(id) => id in s.subs && s.subs[id].status.Detached?
    case _ => true
  }

  function Apply<T>(s: State<T>, l: Step<T>): State<T>
    requires Enabled(s, l)
  {
    match l
    case Subscribe(id, warmUp) =>
      var connecting := s.members.None?;
      var emitted := s.emitted + warmUp;
      s.(members := Some((if connecting then {} else s.members.value) + {id}),
         upstream := if connecting then Some(s.epoch) else s.upstream,
         epoch := if connecting then s.epoch + 1 else s.epoch,
         refCount := s.refCount + 1,
         subs := s.subs[id := Subscription(Active, [], |emitted|, |emitted|)],
         emitted := emitted)
    case Detach(id) =>
      if id in s.subs && s.subs[id].status.Active? then
        s.(members := if s.members.Some? then Some(s.members.value - {id}) else None,
           subs := s.subs[id := s.subs[id].(status := Detached, left := |s.emitted|)])
      else s
    case Release(id) =>
      var last := s.refCount - 1 == 0;
      s.(refCount := s.refCount - 1,
         members := if last then None else s.members,
         upstream := if last then None else s.upstream,
         subs := s.subs[id := s.subs[id].(status := Released)])
    case Emit(value) =>
      s.(emitted := s.emitted + [value],
         subs := if s.upstream.Some? && s.members.Some? then Received(s.subs, s.members.value, value) else s.subs)
  }

  function Received<T>(subs: map<nat, Subscription<T>>, members: set<nat>, value: T): map<nat, Subscription<T>> {
    map id | id in subs :: if id in members then subs[id].(got := subs[id].got + [value]) else subs[id]
  }

  ghost function Undisposed<T>(s: State<T>): set<nat> {
    set id | id in s.subs && !s.subs[id].status.Released?
  }

  /** A subscription has the values emitted since it joined, until it left. */
  ghost predicate Faithful<T>(sub: Subscription<T>, emitted: seq<T>) {
    if sub.status.Active? then sub.joined <= |emitted| && sub.got == emitted[sub.joined..]
    else sub.joined <= sub.left <= |emitted| && sub.got == emitted[sub.joined..sub.left]
  }

  ghost predicate Inv<T>(s: State<T>) {
    && s.refCount == |Undisposed(s)|
    && (s.members.Some? <==> s.refCount > 0)
    && (s.upstream.Some? <==> s.refCount > 0)
    && (s.upstream.Some? ==> s.upstream.value + 1 == s.epoch)
    && (s.members.Some? ==> forall id :: id in s.members.value <==> id in s.subs && s.subs[id].status.Active?)
    && (forall id | id in s.subs :: Faithful(s.subs[id], s.emitted))
  }

  lemma StillFaithful<T>(sub: Subscription<T>, emitted: seq<T>, more: seq<T>)
    requires Faithful(sub, emitted) && (sub.status.Active? ==> more == [])
    ensures Faithful(sub, emitted + more)
  {
    if sub.status.Active? {
      assert emitted + more == emitted;
    } else {
      assert (emitted + more)[sub.joined..sub.left] == emitted[sub.joined..sub.left];
    }
  }

  lemma SubscribeFaithful<T>(s: State<T>, l: Step<T>)
    requires Inv(s) && Enabled(s, l) && l.Subscribe?
    ensures forall id | id in Apply(s, l).subs :: Faithful(Apply(s, l).subs[id], Apply(s, l).emitted)
  {
    var s' := Apply(s, l);
    NobodyLeft(s);
    forall id | id in s'.subs ensures Faithful(s'.subs[id], s'.emitted) {
      if id != l.id {
        StillFaithful(s.subs[id], s.emitted, l.warmUp);
      }
    }
  }

  lemma SubscribeInv<T>(s: State<T>, l: Step<T>)
    requires Inv(s) && Enabled(s, l) && l.Subscribe?
    ensures Inv(Apply(s, l))
  {
    assert Undisposed(Apply(s, l)) == Undisposed(s) + {l.id};
    NobodyLeft(s);
    SubscribeFaithful(s, l);
  }

  /** Without a subject everybody has released. */
  lemma NobodyLeft<T>(s: State<T>)
    requires Inv(s)
    ensures s.members.None? ==> forall id | id in s.subs :: s.subs[id].status.Released?
  {
    if s.members.None? {
      forall id | id in s.subs ensures s.subs[id].status.Released? {
        assert id !in Undisposed(s);
      }
    }
  }

  lemma DetachInv<T>(s: State<T>, id: nat)
    requires Inv(s)
    ensures Inv(Apply(s, Detach(id)))
  {
    assert Undisposed(Apply(s, Detach(id))) == Undisposed(s);
  }

  lemma ReleaseInv<T>(s: State<T>, id: nat)
    requires Inv(s) && Enabled(s, Release(id))
    ensures Inv(Apply(s, Release(id)))
  {
    assert id in Undisposed(s);
    assert Undisposed(Apply(s, Release(id))) == Undisposed(s) - {id};
  }

  lemma EmitInv<T>(s: State<T>, value: T)
    requires Inv(s)
    ensures Inv(Apply(s, Emit(value)))
  {
    var s' := Apply(s, Emit(value));
    assert Undisposed(s') == Undisposed(s);
    NobodyLeft(s);
    forall id | id in s'.subs ensures Faithful(s'.subs[id], s'.emitted) {
      assert Faithful(s.subs[id], s.emitted);
    }
  }

  ghost predicate CanRun<T>(s: State<T>, ls: seq<Step<T>>)
    decreases |ls|
  {
    ls == [] || (Enabled(s, ls[0]) && CanRun(Apply(s, ls[0]), ls[1..]))
  }

  ghost function Run<T>(s: State<T>, ls: seq<Step<T>>): State<T>
    requires CanRun(s, ls)
    decreases |ls|
  {
    if ls == [] then s else Run(Apply(s, ls[0]), ls[1..])
  }

  lemma StepInv<T>(s: State<T>, l: Step<T>)
    requires Inv(s) && Enabled(s, l)
    ensures Inv(Apply(s, l))
  {
    match l
    case Subscribe(_, _) => SubscribeInv(s, l);
    case Detach(id) => DetachInv(s, id);
    case Release(id) => ReleaseInv(s, id);
    case Emit(value) => EmitInv(s, value);
  }

  lemma {:induction false} RunInv<T>(s: State<T>, ls: seq<Step<T>>)
    requires Inv(s) && CanRun(s, ls)
    ensures Inv(Run(s, ls))
    decreases |ls|
  {
    if ls != [] {
      StepInv(s, ls[0]);
      RunInv(Apply(s, ls[0]), ls[1..]);
    }
  }

  /** Some run leads to `s`. */
  ghost predicate Reachable<T(!new)>(s: State<T>) {
    exists ls :: CanRun(Init(), ls) && s == Run(Init(), ls)
  }

  lemma {:induction false} RunSnoc<T>(s: State<T>, ls: seq<Step<T>>, l: Step<T>)
    requires CanRun(s, ls) && Enabled(Run(s, ls), l)
    ensures CanRun(s, ls + [l]) && Run(s, ls + [l]) == Apply(Run(s, ls), l)
    decreases |ls|
  {
    if ls == [] {
      assert CanRun(Apply(s, l), []);
      assert ([] + [l])[1..] == [];
    } else {
      RunSnoc(Apply(s, ls[0]), ls[1..], l);
      assert (ls + [l])[1..] == ls[1..] + [l];
    }
  }

  lemma ReachableStep<T(!new)>(s: State<T>, l: Step<T>)
    requires Reachable(s) && Enabled(s, l)
    ensures Reachable(Apply(s, l))
  {
    var ls :| CanRun(Init(), ls) && s == Run(Init(), ls);
    RunSnoc(Init(), ls, l);
  }

  lemma ReachableInv<T(!new)>(s: State<T>)
    requires Reachable(s)
    ensures Inv(s)
  {
    var ls :| CanRun(Init(), ls) && s == Run(Init(), ls);
    assert Undisposed(Init<T>()) == {};
    RunInv(Init(), ls);
  }

  lemma InitReachable<T(!new)>()
    ensures Reachable<T>(Init())
  {
    assert CanRun<T>(Init(), []);
    assert Run<T>(Init(), []) == Init();
  }

  /** Over every run: the count is the number of subscribers not yet disposed, there is
      one upstream subscription exactly while it is positive, and each subscriber got
      exactly the values emitted between its subscribe and its dispose, none of those
      emitted while connecting. */
  lemma ShareCountsAndDelivers<T>(ls: seq<Step<T>>, s: State<T>)
    requires CanRun(Init(), ls) && s == Run(Init(), ls)
    ensures s.refCount == |Undisposed(s)|
    ensures s.upstream.Some? <==> s.refCount > 0
    ensures forall id | id in s.subs :: Faithful(s.subs[id], s.emitted)
  {
    assert Undisposed(Init<T>()) == {};
    RunInv(Init(), ls);
  }

  function Releases<T>(ls: seq<Step<T>>, id: nat): nat
    decreases |ls|
  {
    if ls == [] then 0 else (if ls[0] == Release(id) then 1 else 0) + Releases(ls[1..], id)
  }

  lemma DisposedStep<T>(s: State<T>, l: Step<T>, id: nat)
    requires Inv(s) && Enabled(s, l) && id in s.subs && !s.subs[id].status.Active?
    ensures id in Apply(s, l).subs
    ensures Apply(s, l).subs[id] == if l == Release(id) then s.subs[id].(status := Released) else s.subs[id]
    ensures l == Release(id) ==> s.subs[id].status.Detached?
  {
    NobodyLeft(s);
  }

  /** A disposed subscriber hears nothing more and is counted down at most once,
      whatever follows, repeated disposal included. */
  lemma {:induction false} DisposedOnceForAll<T>(s: State<T>, ls: seq<Step<T>>, id: nat)
    requires Inv(s) && CanRun(s, ls) && id in s.subs && !s.subs[id].status.Active?
    ensures var s' := Run(s, ls);
      && id in s'.subs && s'.subs[id].got == s.subs[id].got
      && s'.subs[id].joined == s.subs[id].joined && s'.subs[id].left == s.subs[id].left
      && !s'.subs[id].status.Active?
      && (s.subs[id].status.Released? ==> s'.subs[id].status.Released?)
      && Releases(ls, id) == (if s.subs[id].status.Detached? && s'.subs[id].status.Released? then 1 else 0)
    decreases |ls|
  {
    if ls != [] {
      StepInv(s, ls[0]);
      DisposedStep(s, ls[0], id);
      DisposedOnceForAll(Apply(s, ls[0]), ls[1..], id);
    }
  }

  /** The upstream is subscribed anew only when nobody was left. */
  lemma OneUpstreamAtATime<T>(s: State<T>, l: Step<T>)
    requires Inv(s) && Enabled(s, l)
    ensures Apply(s, l).epoch != s.epoch ==> s.upstream.None? && l.Subscribe? && s.refCount == 0
    ensures s.upstream.Some? && Apply(s, l).upstream.Some? ==> Apply(s, l).upstream == s.upstream
  {
  }
}

/** The variables `Share` captures, and the closures that update them. */
module ShareObjects {
  import opened GoValues
  import opened ShareProtocol

  ghost predicate Matches<T>(s: State<T>, members: Option<set<nat>>, connected: bool, refCount: int,
                             closed: set<nat>, logs: map<nat, seq<T>>) {
    && members == s.members && connected == s.upstream.Some? && refCount == s.refCount
    && logs.Keys == s.subs.Keys && closed <= logs.Keys
    && forall id | id in logs :: logs[id] == s.subs[id].got && (id in closed <==> !s.subs[id].status.Active?)
  }

  lemma CountMeansConnected<T(!new)>(s: State<T>)
    requires Reachable(s)
    ensures (s.members.Some? <==> s.refCount > 0) && (s.upstream.Some? <==> s.refCount > 0)
  {
    ReachableInv(s);
  }

  lemma SubscribeMatches<T>(s: State<T>, members: Option<set<nat>>, connected: bool, refCount: int,
                            closed: set<nat>, logs: map<nat, seq<T>>, id: nat, warmUp: seq<T>)
    requires Matches(s, members, connected, refCount, closed, logs)
    requires id !in s.subs && id !in closed && (connected ==> warmUp == []) && (members.Some? <==> connected)
    ensures Enabled(s, Step.Subscribe(id, warmUp))
    ensures Matches(Apply(s, Step.Subscribe(id, warmUp)),
                    Some((if members.Some? then members.value else {}) + {id}), true, refCount + 1, closed, logs[id := []])
  {
  }

  /** `members` is the subject's subscriber map, `connected` tells whether
      `sourceDisposable` is set, `logs` what each callback got. */
  class Share<T(!new)> {
    var members: Option<set<nat>>
    var connected: bool
    var refCount: int
    var closed: set<nat>
    var logs: map<nat, seq<T>>
    ghost var s: State<T>

    ghost predicate Valid()
      reads this
    {
      Reachable(s) && Matches(s, members, connected, refCount, closed, logs)
    }

    constructor ()
      ensures Valid() && s == Init()
    {
      members, connected, refCount, closed, logs := None, false, 0, {}, map[];
      s := Init();
      InitReachable<T>();
    }

    /** Subscribe; the values the source emits while connecting reach nobody. */
    method Subscribe(id: nat, ghost warmUp: seq<T>)
      requires Valid() && Enabled(s, Step.Subscribe(id, warmUp))
      modifies this
      ensures Valid() && s == Apply(old(s), Step.Subscribe(id, warmUp))
      ensures logs == old(logs)[id := []] && connected && members.Some?
    {
      CountMeansConnected(s);
      SubscribeMatches(s, members, connected, refCount, closed, logs, id, warmUp);
      ReachableStep(s, Step.Subscribe(id, warmUp));
      s := Apply(s, Step.Subscribe(id, warmUp));
      if members.None? {
        members := Some({});
        connected := true;
      }
      refCount := refCount + 1;
      members := Some(members.value + {id});
      logs := logs[id := []];
    }

    /** The first half of Dispose; a second call changes nothing and asks for no release. */
    method Detach(id: nat) returns (again: bool)
      requires Valid() && id in s.subs
      modifies this
      ensures Valid() && s == Apply(old(s), Step.Detach(id)) && logs == old(logs)
      ensures connected == old(connected) && members.Some? == old(members).Some?
      ensures again <==> old(s) == s
      ensures !again ==> Enabled(s, Step.Release(id))
    {
      ReachableStep(s, Step.Detach(id));
      again := id in closed;
      s := Apply(s, Step.Detach(id));
      if again {
        return;
      }
      closed := closed + {id};
      if members.Some? {
        members := Some(members.value - {id});
      }
    }

    /** The second half: the last one to go disposes of the source. */
    method Release(id: nat)
      requires Valid() && Enabled(s, Step.Release(id))
      modifies this
      ensures Valid() && s == Apply(old(s), Step.Release(id)) && logs == old(logs)
      ensures (connected <==> refCount > 0) && (connected <==> members.Some?)
    {
      ReachableStep(s, Step.Release(id));
      CountMeansConnected(Apply(s, Step.Release(id)));
      s := Apply(s, Step.Release(id));
      refCount := refCount - 1;
      if refCount == 0 {
        connected := false;
        members := None;
      }
    }

    /** The upstream callback: every callback in the subject gets the value. */
    method Emit(value: T)
      requires Valid()
      modifies this
      ensures Valid() && s == Apply(old(s), Step.Emit(value))
      ensures members == old(members) && refCount == old(refCount) && connected == old(connected)
    {
      ReachableStep(s, Step.Emit(value));
      s := Apply(s, Step.Emit(value));
      if connected && members.Some? {
        logs := map id | id in logs :: if id in members.value then logs[id] + [value] else logs[id];
      }
    }
  }
}
