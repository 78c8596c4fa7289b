/** `CameraDevice.OnPropertyChange`: the changed, selected properties between
    consecutive camera states. */
module PropertyChanges {
  import opened GoValues
  import opened ObservableOperators
  import opened StreamProtocol
  import opened StreamObjects
  import S = ShareProtocol

  // ---- changedCameraProps ----

  /** A struct's fields in declaration order. */
  datatype Field = Plain(name: string, jsonTag: string, value: Val) | Embedded(fields: seq<Field>)

  datatype Camera = Camera(fields: seq<Field>)

  predicate Tracked(f: Field)
    requires f.Plain?
  {
    f.name != "ID" && f.jsonTag != "" && f.jsonTag != "-"
  }

  /** The name in a json tag: what comes before the first comma. */
  function BeforeComma(jsonTag: string): string {
    if jsonTag == "" || jsonTag[0] == ',' then "" else [jsonTag[0]] + BeforeComma(jsonTag[1..])
  }

  function Tag(f: Field): string
    requires f.Plain?
  {
    BeforeComma(f.jsonTag)
  }

  lemma {:induction false} BeforeCommaIs(jsonTag: string)
    ensures BeforeComma(jsonTag) <= jsonTag && ',' !in BeforeComma(jsonTag)
    ensures |BeforeComma(jsonTag)| < |jsonTag| ==> jsonTag[|BeforeComma(jsonTag)|] == ','
  {
    if jsonTag != "" && jsonTag[0] != ',' {
      BeforeCommaIs(jsonTag[1..]);
      assert jsonTag == [jsonTag[0]] + jsonTag[1..];
    }
  }

  /** Two values of one struct type. */
  predicate SameType(a: seq<Field>, b: seq<Field>)
    decreases a
  {
    |a| == |b| && forall i | 0 <= i < |a| ::
      match (a[i], b[i])
      case (Plain(n, t, _), Plain(m, u, _)) => n == m && t == u
      case (Embedded(fs), Embedded(gs)) => SameType(fs, gs)
      case _ => false
  }

  function ChangedProps(a: seq<Field>, b: seq<Field>): seq<string>
    decreases a
  {
    if a == [] || |a| != |b| then []
    else
      var init, f, g := ChangedProps(a[..|a| - 1], b[..|b| - 1]), a[|a| - 1], b[|b| - 1];
      if f.Embedded? && g.Embedded? then init + ChangedProps(f.fields, g.fields)
      else if f.Plain? && g.Plain? && Tracked(f) && f.value != g.value then init + [Tag(f)]
      else init
  }

  /** The tracked fields, embedded structs spread out. */
  function Leaves(a: seq<Field>): seq<Field>
    decreases a
  {
    if a == [] then []
    else
      var init, f := Leaves(a[..|a| - 1]), a[|a| - 1];
      match f
      case Embedded(fs) => init + Leaves(fs)
      case Plain(_, _, _) => if Tracked(f) then init + [f] else init
  }

  /** Leaf by leaf, the tags of those that differ. */
  function Differing(xs: seq<Field>, ys: seq<Field>): seq<string>
    requires |xs| == |ys|
    decreases |xs|
  {
    if xs == [] then []
    else
      var init, x := Differing(xs[..|xs| - 1], ys[..|ys| - 1]), xs[|xs| - 1];
      if x != ys[|ys| - 1] && x.Plain? then init + [Tag(x)] else init
  }

  lemma {:induction false} DifferingAppend(xs: seq<Field>, ys: seq<Field>, xs': seq<Field>, ys': seq<Field>)
    requires |xs| == |ys| && |xs'| == |ys'|
    ensures Differing(xs + xs', ys + ys') == Differing(xs, ys) + Differing(xs', ys')
    decreases |xs'|
  {
    if xs' == [] {
      assert xs + xs' == xs && ys + ys' == ys;
    } else {
      assert (xs + xs')[..|xs + xs'| - 1] == xs + xs'[..|xs'| - 1];
      assert (ys + ys')[..|ys + ys'| - 1] == ys + ys'[..|ys'| - 1];
      DifferingAppend(xs, ys, xs'[..|xs'| - 1], ys'[..|ys'| - 1]);
    }
  }

  lemma SameTypePrefix(a: seq<Field>, b: seq<Field>)
    requires SameType(a, b) && a != []
    ensures SameType(a[..|a| - 1], b[..|b| - 1])
    ensures a[|a| - 1].Embedded? <==> b[|b| - 1].Embedded?
    ensures a[|a| - 1].Embedded? ==> SameType(a[|a| - 1].fields, b[|b| - 1].fields)
    ensures a[|a| - 1].Plain? ==> a[|a| - 1].name == b[|b| - 1].name && a[|a| - 1].jsonTag == b[|b| - 1].jsonTag
  {
  }

  /** `changedCameraProps` names exactly the tracked leaves whose values differ, in
      declaration order through all embedded structs. */
  lemma {:induction false} ChangedPropsAreTheDifferingLeaves(a: seq<Field>, b: seq<Field>)
    requires SameType(a, b)
    ensures |Leaves(a)| == |Leaves(b)| && ChangedProps(a, b) == Differing(Leaves(a), Leaves(b))
    ensures forall i | 0 <= i < |Leaves(a)| :: Leaves(a)[i].Plain? && Leaves(b)[i].Plain?
    decreases a
  {
    if a != [] {
      SameTypePrefix(a, b);
      var f, g := a[|a| - 1], b[|b| - 1];
      ChangedPropsAreTheDifferingLeaves(a[..|a| - 1], b[..|b| - 1]);
      var xs, ys := Leaves(a[..|a| - 1]), Leaves(b[..|b| - 1]);
      if f.Embedded? {
        ChangedPropsAreTheDifferingLeaves(f.fields, g.fields);
        DifferingAppend(xs, ys, Leaves(f.fields), Leaves(g.fields));
      } else if Tracked(f) {
        DifferingAppend(xs, ys, [f], [g]);
        assert [f][..0] == [] && [g][..0] == [];
      }
    }
  }

  /** No event for a pair exactly when its tracked parts are the same. */
  lemma {:induction false} NoChangeNoEvent(xs: seq<Field>, ys: seq<Field>)
    requires |xs| == |ys| && forall i | 0 <= i < |xs| :: xs[i].Plain?
    ensures Differing(xs, ys) == [] <==> xs == ys
    decreases |xs|
  {
    if xs != [] {
      NoChangeNoEvent(xs[..|xs| - 1], ys[..|ys| - 1]);
      assert xs == xs[..|xs| - 1] + [xs[|xs| - 1]] && ys == ys[..|ys| - 1] + [ys[|ys| - 1]];
    }
  }

  // ---- the pipeline ----

  datatype Event = Event(property: string, oldCamera: Camera, newCamera: Camera)

  /** One event per changed property, in declaration order. */
  function Project(pair: (Camera, Camera), index: nat): seq<Event> {
    var changed := ChangedProps(pair.0.fields, pair.1.fields);
    seq(|changed|, i requires 0 <= i < |changed| => Event(changed[i], pair.0, pair.1))
  }

  /** No selection selects everything. */
  function Selecting(selection: set<string>): Event -> bool {
    (e: Event) => selection == {} || e.property in selection
  }

  function SelectedChanges(selection: set<string>): (Camera, Camera) -> seq<Event> {
    (a: Camera, b: Camera) => Filtered(Selecting(selection), Project((a, b), 0))
  }

  function Operating(selection: set<string>): Ops<Camera, Event> {
    Ops(Project, Selecting(selection))
  }

  lemma SelectedChangesAreTheStep(selection: set<string>)
    ensures StepsBy(Operating(selection), SelectedChanges(selection))
  {
    forall a, b, i: nat
      ensures SelectedChanges(selection)(a, b) == Filtered(Selecting(selection), Project((a, b), i))
    {
      assert Project((a, b), i) == Project((a, b), 0);
    }
  }

  /** The observable of one call to `OnPropertyChange`. */
  method OnPropertyChange(selection: set<string>, current: Camera) returns (o: SharedStream<Camera, Event>)
    ensures fresh(o) && o.Valid() && o.Current() == Init(current) && o.ops == Operating(selection)
  {
    o := new SharedStream(Operating(selection), current);
  }

  /** Over every run of camera states, subscriptions and disposals, every subscriber,
      disposed ones included, has heard for each two consecutive cameras, from the one
      current when it joined to the one current when it left, one event per selected
      property that differs, and nothing else. */
  lemma SubscribersHearTheSelectedChanges(
    selection: set<string>, current: Camera, ls: seq<Step<Camera>>, s: State<Camera, Event>)
    requires CanRun(Operating(selection), Init(current), ls) && s == Run(Operating(selection), Init(current), ls)
    ensures s.spans.Keys == s.share.subs.Keys
    ensures forall id | id in s.spans :: HeardItsSpan(SelectedChanges(selection), s, id)
    ensures s.share.refCount == |S.Undisposed(s.share)| && (s.connection.Some? <==> s.share.refCount > 0)
  {
    SelectedChangesAreTheStep(selection);
    EverySubscriberHearsItsSpan(Operating(selection), SelectedChanges(selection), current, ls, s);
  }

  lemma {:induction false} FilteredMembers<T>(keep: T -> bool, xs: seq<T>, x: T)
    ensures x in Filtered(keep, xs) <==> x in xs && keep(x)
    decreases |xs|
  {
    if xs != [] {
      FilteredMembers(keep, xs[..|xs| - 1], x);
      assert xs == xs[..|xs| - 1] + [xs[|xs| - 1]];
    }
  }

  // ---- the events of one pair, one by one ----

  /** The leaf at position `i` differs, and its property is selected. */
  ghost predicate Selected(selection: set<string>, xs: seq<Field>, ys: seq<Field>, i: nat)
    requires i < |xs| && i < |ys|
  {
    xs[i] != ys[i] && xs[i].Plain? && (selection == {} || Tag(xs[i]) in selection)
  }

  /** `at` are the positions of those leaves, in order. */
  ghost predicate SelectedAt(selection: set<string>, xs: seq<Field>, ys: seq<Field>, at: seq<nat>)
    requires |xs| == |ys|
  {
    && (forall j | 0 <= j < |at| :: at[j] < |xs| && Selected(selection, xs, ys, at[j]))
    && (forall j, k | 0 <= j < k < |at| :: at[j] < at[k])
    && (forall i: nat | i < |xs| && Selected(selection, xs, ys, i) :: i in at)
  }

  function EventsOf(tags: seq<string>, a: Camera, b: Camera): seq<Event> {
    seq(|tags|, i requires 0 <= i < |tags| => Event(tags[i], a, b))
  }

  /** The events are those of the selected differing leaves, in their order. */
  ghost predicate EventsAt(events: seq<Event>, xs: seq<Field>, at: seq<nat>, a: Camera, b: Camera) {
    |events| == |at| &&
    forall j | 0 <= j < |at| :: at[j] < |xs| && xs[at[j]].Plain? && events[j] == Event(Tag(xs[at[j]]), a, b)
  }

  lemma SelectedOneMore(selection: set<string>, xs: seq<Field>, ys: seq<Field>, before: seq<nat>)
    requires |xs| == |ys| > 0 && SelectedAt(selection, xs[..|xs| - 1], ys[..|xs| - 1], before)
    ensures SelectedAt(selection, xs, ys, if Selected(selection, xs, ys, |xs| - 1) then before + [|xs| - 1] else before)
  {
    var n := |xs| - 1;
    var at := if Selected(selection, xs, ys, n) then before + [n] else before;
    forall j | 0 <= j < |before| ensures before[j] < n && Selected(selection, xs, ys, before[j]) {
      assert Selected(selection, xs[..n], ys[..n], before[j]);
    }
    forall i: nat | i < |xs| && Selected(selection, xs, ys, i) ensures i in at {
      if i < n {
        assert Selected(selection, xs[..n], ys[..n], i);
        assert i in before;
      } else {
        assert at[|before|] == i;
      }
    }
  }

  lemma EventsSnoc(tags: seq<string>, tag: string, a: Camera, b: Camera)
    ensures EventsOf(tags + [tag], a, b) == EventsOf(tags, a, b) + [Event(tag, a, b)]
  {
  }

  /** One more leaf, one more event if it differs and is selected. */
  lemma EventsOneMore(selection: set<string>, xs: seq<Field>, ys: seq<Field>, a: Camera, b: Camera)
    requires |xs| == |ys| > 0 && xs[|xs| - 1].Plain?
    ensures Filtered(Selecting(selection), EventsOf(Differing(xs, ys), a, b)) ==
            Filtered(Selecting(selection), EventsOf(Differing(xs[..|xs| - 1], ys[..|xs| - 1]), a, b))
            + if Selected(selection, xs, ys, |xs| - 1) then [Event(Tag(xs[|xs| - 1]), a, b)] else []
  {
    var n := |xs| - 1;
    var tags, e := Differing(xs[..n], ys[..n]), Event(Tag(xs[n]), a, b);
    if xs[n] != ys[n] {
      EventsSnoc(tags, Tag(xs[n]), a, b);
      FilteredAppend(Selecting(selection), EventsOf(tags, a, b), [e]);
      FilteredOne(Selecting(selection), e);
    }
  }

  lemma FilteredOne<T>(keep: T -> bool, x: T)
    ensures Filtered(keep, [x]) == if keep(x) then [x] else []
  {
    assert [x][..0] == [];
    assert Filtered(keep, []) == [];
  }

  lemma EventsAtSnoc(events: seq<Event>, xs: seq<Field>, at: seq<nat>, a: Camera, b: Camera)
    requires xs != [] && xs[|xs| - 1].Plain? && EventsAt(events, xs[..|xs| - 1], at, a, b)
    ensures EventsAt(events, xs, at, a, b)
    ensures EventsAt(events + [Event(Tag(xs[|xs| - 1]), a, b)], xs, at + [|xs| - 1], a, b)
  {
  }

  lemma {:induction false} EventsOfDiffering(selection: set<string>, xs: seq<Field>, ys: seq<Field>, a: Camera, b: Camera)
    returns (at: seq<nat>)
    requires |xs| == |ys| && forall i | 0 <= i < |xs| :: xs[i].Plain?
    ensures SelectedAt(selection, xs, ys, at)
    ensures EventsAt(Filtered(Selecting(selection), EventsOf(Differing(xs, ys), a, b)), xs, at, a, b)
    decreases |xs|
  {
    at := [];
    if xs != [] {
      var n := |xs| - 1;
      at := EventsOfDiffering(selection, xs[..n], ys[..n], a, b);
      SelectedOneMore(selection, xs, ys, at);
      EventsOneMore(selection, xs, ys, a, b);
      EventsAtSnoc(Filtered(Selecting(selection), EventsOf(Differing(xs[..n], ys[..n]), a, b)), xs, at, a, b);
      if Selected(selection, xs, ys, n) {
        at := at + [n];
      }
    }
  }

  /** The events of one pair are exactly: one for each tracked leaf that differs and is
      selected, in declaration order through embedded structs, under its json name. */
  lemma ChangesOfOnePairInOrder(selection: set<string>, a: Camera, b: Camera) returns (at: seq<nat>)
    requires SameType(a.fields, b.fields)
    ensures |Leaves(a.fields)| == |Leaves(b.fields)| && SelectedAt(selection, Leaves(a.fields), Leaves(b.fields), at)
    ensures EventsAt(SelectedChanges(selection)(a, b), Leaves(a.fields), at, a, b)
  {
    ChangedPropsAreTheDifferingLeaves(a.fields, b.fields);
    at := EventsOfDiffering(selection, Leaves(a.fields), Leaves(b.fields), a, b);
    assert Project((a, b), 0) == EventsOf(ChangedProps(a.fields, b.fields), a, b);
  }

  /** A field somewhere in a struct or in the structs embedded in it. */
  ghost predicate Occurs(a: seq<Field>, f: Field)
    decreases a
  {
    exists i | 0 <= i < |a| ::
      match a[i]
      case Plain(_, _, _) => a[i] == f
      case Embedded(fs) => Occurs(fs, f)
  }

  /** Tracked are all plain fields but ID and those without a json name. */
  lemma {:induction false} LeavesAre(a: seq<Field>, f: Field)
    requires f.Plain?
    ensures f in Leaves(a) <==> Occurs(a, f) && f.name != "ID" && f.jsonTag != "" && f.jsonTag != "-"
    decreases a
  {
    if a != [] {
      var init, last := a[..|a| - 1], a[|a| - 1];
      LeavesAre(init, f);
      if last.Embedded? {
        LeavesAre(last.fields, f);
      }
      OccursSnoc(a, f);
    }
  }

  lemma OccursSnoc(a: seq<Field>, f: Field)
    requires a != [] && f.Plain?
    ensures Occurs(a, f) <==>
      Occurs(a[..|a| - 1], f) || (if a[|a| - 1].Embedded? then Occurs(a[|a| - 1].fields, f) else a[|a| - 1] == f)
  {
    var init := a[..|a| - 1];
    assert forall i | 0 <= i < |init| :: init[i] == a[i];
  }

  ghost predicate LeafDiffers(xs: seq<Field>, ys: seq<Field>, tag: string) {
    |xs| == |ys| && exists i :: 0 <= i < |xs| && xs[i].Plain? && Tag(xs[i]) == tag && xs[i] != ys[i]
  }

  /** The events of one pair: exactly the selected tags of tracked leaves that differ. */
  lemma ChangesOfOnePair(selection: set<string>, a: Camera, b: Camera, tag: string)
    requires SameType(a.fields, b.fields)
    ensures Event(tag, a, b) in SelectedChanges(selection)(a, b) <==>
            (selection == {} || tag in selection) && LeafDiffers(Leaves(a.fields), Leaves(b.fields), tag)
  {
    var e := Event(tag, a, b);
    FilteredMembers(Selecting(selection), Project((a, b), 0), e);
    ChangedPropsAreTheDifferingLeaves(a.fields, b.fields);
    DifferingMembers(Leaves(a.fields), Leaves(b.fields), tag);
    var changed := ChangedProps(a.fields, b.fields);
    if tag in changed {
      var i :| 0 <= i < |changed| && changed[i] == tag;
      assert Project((a, b), 0)[i] == e;
    }
  }

  lemma {:induction false} DifferingMembers(xs: seq<Field>, ys: seq<Field>, tag: string)
    requires |xs| == |ys| && forall i | 0 <= i < |xs| :: xs[i].Plain?
    ensures tag in Differing(xs, ys) <==> LeafDiffers(xs, ys, tag)
    decreases |xs|
  {
    if xs != [] {
      var n := |xs| - 1;
      DifferingMembers(xs[..n], ys[..n], tag);
      if i :| 0 <= i < |xs| && xs[i].Plain? && Tag(xs[i]) == tag && xs[i] != ys[i] {
        if i < n { assert xs[..n][i] == xs[i] && ys[..n][i] == ys[i]; }
      }
      if tag in Differing(xs[..n], ys[..n]) {
        var i :| 0 <= i < n && xs[..n][i].Plain? && Tag(xs[..n][i]) == tag && xs[..n][i] != ys[..n][i];
        assert Tag(xs[i]) == tag && xs[i] != ys[i];
      }
    }
  }
}
