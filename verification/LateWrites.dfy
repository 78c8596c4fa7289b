/** The remote store of go/config_persistence.go when a put that was given up after its
    timeout is applied all the same, at any later time. */
module LateWrites {
  import opened GoValues
  import W = CoalescingProtocol

  /** `store` is what the registry really holds, `late` the snapshots of puts that were
      reported as failed and may still arrive. */
  datatype State<D> = State(w: W.State<D>, store: Option<nat>, late: multiset<nat>)

  datatype Step<D> =
    | Protocol(l: W.Step<D>)
    | GiveUp(t: nat)      // the timeout: the flush fails with its put under way
    | LateApply(i: nat)   // the put of snapshot `i` arrives

  function Init<D>(doc: D): State<D> {
    State(W.Init(doc), None, multiset{})
  }

  predicate Enabled<D(==)>(s: State<D>, l: Step<D>) {
    match l
    case Protocol(m) => W.Enabled(s.w, m)
    case GiveUp(t) => W.Enabled(s.w, W.FlushEnd(t, W.Failed)) && !s.w.drainers[t].wrote
    case LateApply(i) => i in s.late
  }

  function Apply<D(==)>(s: State<D>, l: Step<D>): State<D>
    requires Enabled(s, l)
  {
    match l
    case Protocol(m) => s.(w := W.Apply(s.w, m), store := if m.Write? then W.Apply(s.w, m).disk else s.store)
    case GiveUp(t) =>
      s.(w := W.Apply(s.w, W.FlushEnd(t, W.Failed)),
         late := s.late + multiset{s.w.handles[s.w.drainers[t].handle].newest})
    case LateApply(i) => s.(store := Some(i), late := s.late - multiset{i})
  }

  // ---- what may arrive late is older than what is being flushed ----

  /** Snapshot `i` belongs to a batch whose flush was at least begun. */
  ghost predicate Begun<D>(w: W.State<D>, i: nat) {
    && i < |w.owner|
    && (w.owner[i] < |w.log|
        || exists t :: t in w.drainers && w.drainers[t].Flushing? && w.drainers[t].wrote && w.drainers[t].handle == w.owner[i])
  }

  ghost predicate Inv<D(!new)>(s: State<D>) {
    && W.Reachable(s.w)
    && (forall i | i in s.late :: Begun(s.w, i))
    && (s.store.Some? ==> Begun(s.w, s.store.value))
    && (s.store.None? ==> s.w.disk.None?)
  }

  lemma BegunStays<D(!new)>(w: W.State<D>, m: W.Step<D>, i: nat)
    requires W.Reachable(w) && W.Enabled(w, m) && Begun(w, i)
    ensures Begun(W.Apply(w, m), i)
  {
    var w' := W.Apply(w, m);
    W.ReachableInv(w);
    W.StepLater(w, m);
    assert w'.owner[i] == w.owner[i];
    if w.owner[i] >= |w.log| {
      var t :| t in w.drainers && w.drainers[t].Flushing? && w.drainers[t].wrote && w.drainers[t].handle == w.owner[i];
      W.BusyIff(w, t);
      if m.FlushEnd? {
        assert w'.owner[i] < |w'.log|;
      } else {
        assert t in w'.drainers && w'.drainers[t] == w.drainers[t];
      }
    }
  }

  lemma WrittenIsBegun<D(!new)>(w: W.State<D>, t: nat)
    requires W.Reachable(w) && W.Enabled(w, W.Write(t))
    ensures var w' := W.Apply(w, W.Write(t)); w'.disk.Some? && Begun(w', w'.disk.value)
  {
    W.ReachableInv(w);
    var w' := W.Apply(w, W.Write(t));
    assert t in w'.drainers && w'.drainers[t] == W.Flushing(w.drainers[t].handle, true);
  }

  lemma GivenUpIsBegun<D(!new)>(w: W.State<D>, t: nat)
    requires W.Reachable(w) && W.Enabled(w, W.FlushEnd(t, W.Failed))
    ensures Begun(W.Apply(w, W.FlushEnd(t, W.Failed)), w.handles[w.drainers[t].handle].newest)
  {
    W.ReachableInv(w);
  }

  lemma StepInv<D(!new)>(s: State<D>, l: Step<D>)
    requires Inv(s) && Enabled(s, l)
    ensures Inv(Apply(s, l))
  {
    if !l.LateApply? {
      var m := if l.Protocol? then l.l else W.FlushEnd(l.t, W.Failed);
      W.ReachableStep(s.w, m);
      forall i | Begun(s.w, i) ensures Begun(W.Apply(s.w, m), i) {
        BegunStays(s.w, m, i);
      }
      if m.Write? {
        WrittenIsBegun(s.w, m.t);
      } else if l.GiveUp? {
        GivenUpIsBegun(s.w, l.t);
      }
    }
  }

  // ---- the store never goes back ----

  ghost predicate Forward(before: Option<nat>, after: Option<nat>) {
    before.Some? ==> W.OnDisk(after, before.value)
  }

  /** A late put is in time if the store holds nothing newer. */
  predicate InTime<D>(s: State<D>, l: Step<D>) {
    l.LateApply? && s.store.Some? ==> s.store.value <= l.i
  }

  lemma WriteIsForward<D(!new)>(s: State<D>, t: nat)
    requires Inv(s) && W.Enabled(s.w, W.Write(t))
    ensures Forward(s.store, W.Apply(s.w, W.Write(t)).disk)
  {
    W.ReachableInv(s.w);
    W.BusyIff(s.w, t);
    if s.store.Some? {
      var i, h := s.store.value, s.w.drainers[t].handle;
      assert s.w.owner[i] < |s.w.log| == h;
      assert s.w.owner[s.w.handles[h].newest] == h;
    }
  }

  lemma ForwardIff<D(!new)>(s: State<D>, l: Step<D>)
    requires Inv(s) && Enabled(s, l)
    ensures Forward(s.store, Apply(s, l).store) <==> InTime(s, l)
  {
    if l.Protocol? && l.l.Write? {
      WriteIsForward(s, l.l.t);
    }
  }

  ghost predicate CanRun<D>(s: State<D>, ls: seq<Step<D>>)
    decreases |ls|
  {
    ls == [] || (Enabled(s, ls[0]) && CanRun(Apply(s, ls[0]), ls[1..]))
  }

  ghost function Run<D>(s: State<D>, ls: seq<Step<D>>): State<D>
    requires CanRun(s, ls)
    decreases |ls|
  {
    if ls == [] then s else Run(Apply(s, ls[0]), ls[1..])
  }

  ghost predicate NeverBack<D>(s: State<D>, ls: seq<Step<D>>)
    requires CanRun(s, ls)
    decreases |ls|
  {
    ls == [] || (Forward(s.store, Apply(s, ls[0]).store) && NeverBack(Apply(s, ls[0]), ls[1..]))
  }

  ghost predicate AllInTime<D>(s: State<D>, ls: seq<Step<D>>)
    requires CanRun(s, ls)
    decreases |ls|
  {
    ls == [] || (InTime(s, ls[0]) && AllInTime(Apply(s, ls[0]), ls[1..]))
  }

  lemma InitInv<D(!new)>(doc: D)
    ensures Inv(Init(doc))
  {
    W.InitReachable(doc);
  }

  lemma {:induction false} RunForwardIff<D(!new)>(s: State<D>, ls: seq<Step<D>>)
    requires Inv(s) && CanRun(s, ls)
    ensures Inv(Run(s, ls)) && (NeverBack(s, ls) <==> AllInTime(s, ls))
    decreases |ls|
  {
    if ls != [] {
      StepInv(s, ls[0]);
      ForwardIff(s, ls[0]);
      RunForwardIff(Apply(s, ls[0]), ls[1..]);
    }
  }

  /** Over every run with puts arriving late: the store never goes back to an older
      snapshot if and only if every late put finds nothing newer in it. */
  lemma StoreNeverGoesBackIff<D(!new)>(doc: D, ls: seq<Step<D>>)
    requires CanRun(Init(doc), ls)
    ensures NeverBack(Init(doc), ls) <==> AllInTime(Init(doc), ls)
  {
    InitInv(doc);
    RunForwardIff(Init(doc), ls);
  }

  // ---- acknowledged saves ----

  /** Every save that returned nil is covered by what the store holds. */
  ghost predicate Covers<D>(s: State<D>) {
    forall i: nat | W.Acknowledged(s.w, i) :: W.OnDisk(s.store, i)
  }

  ghost predicate NoOlderThanWritten<D>(s: State<D>) {
    s.w.disk.Some? ==> W.OnDisk(s.store, s.w.disk.value)
  }

  lemma {:induction false} InTimeKeepsWritten<D(!new)>(s: State<D>, ls: seq<Step<D>>)
    requires Inv(s) && CanRun(s, ls) && NoOlderThanWritten(s) && AllInTime(s, ls)
    ensures NoOlderThanWritten(Run(s, ls))
    decreases |ls|
  {
    if ls != [] {
      StepInv(s, ls[0]);
      InTimeKeepsWritten(Apply(s, ls[0]), ls[1..]);
    }
  }

  lemma WrittenCovers<D(!new)>(s: State<D>)
    requires Inv(s) && NoOlderThanWritten(s)
    ensures Covers(s)
  {
    W.ReachableInv(s.w);
    forall i: nat | W.Acknowledged(s.w, i) ensures W.OnDisk(s.store, i) {
      W.AcknowledgedIsOnDisk(s.w, i);
    }
  }

  /** As long as late puts are in time, every acknowledged save stays covered. */
  lemma DurableWhileInTime<D(!new)>(doc: D, ls: seq<Step<D>>)
    requires CanRun(Init(doc), ls) && AllInTime(Init(doc), ls)
    ensures Covers(Run(Init(doc), ls))
  {
    InitInv(doc);
    RunForwardIff(Init(doc), ls);
    InTimeKeepsWritten(Init(doc), ls);
    WrittenCovers(Run(Init(doc), ls));
  }

  /** The steps that leave an acknowledged save uncovered: the arrival of a put older
      than it, and the acknowledgement of a flush which an older put has overwritten. */
  ghost predicate Uncovers<D>(s: State<D>, l: Step<D>)
    requires Enabled(s, l)
  {
    match l
    case LateApply(i) => exists j: nat :: W.Acknowledged(s.w, j) && i < j
    case Protocol(m) =>
      m.Close? &&
      var handle := s.w.handles[s.w.drainers[m.t].handle];
      handle.outcome == Some(W.Durable) && !W.OnDisk(s.store, handle.newest)
    case GiveUp(_) => false
  }

  lemma OnlyCloseAcknowledges<D(!new)>(w: W.State<D>, m: W.Step<D>, i: nat)
    requires W.Reachable(w) && W.Enabled(w, m)
    ensures W.Acknowledged(w, i) ==> W.Acknowledged(W.Apply(w, m), i)
    ensures W.Acknowledged(W.Apply(w, m), i) && !m.Close? ==> W.Acknowledged(w, i)
  {
    W.ReachableInv(w);
    W.StepLater(w, m);
    if m.Enqueue? {
      W.EnqueueKeepsHandles(w);
    }
  }

  /** What `Close` acknowledges is the batch of its handle. */
  lemma CloseAcknowledges<D(!new)>(w: W.State<D>, t: nat, i: nat)
    requires W.Reachable(w) && W.Enabled(w, W.Close(t))
    ensures var h := w.drainers[t].handle;
      W.Acknowledged(W.Apply(w, W.Close(t)), i) <==>
        W.Acknowledged(w, i) || (i < |w.owner| && w.owner[i] == h && w.handles[h].outcome == Some(W.Durable))
    ensures var h := w.drainers[t].handle;
      w.handles[h].newest < |w.owner| && w.owner[w.handles[h].newest] == h
      && (i < |w.owner| && w.owner[i] == h ==> i <= w.handles[h].newest)
  {
    W.ReachableInv(w);
  }

  lemma CloseCoversIff<D(!new)>(s: State<D>, t: nat)
    requires Inv(s) && Covers(s) && Enabled(s, Protocol(W.Close(t)))
    ensures Covers(Apply(s, Protocol(W.Close(t)))) <==> !Uncovers(s, Protocol(W.Close(t)))
  {
    var w' := W.Apply(s.w, W.Close(t));
    var h := s.w.drainers[t].handle;
    forall i: nat
      ensures W.Acknowledged(w', i) <==>
        W.Acknowledged(s.w, i) || (i < |s.w.owner| && s.w.owner[i] == h && s.w.handles[h].outcome == Some(W.Durable))
      ensures i < |s.w.owner| && s.w.owner[i] == h ==> i <= s.w.handles[h].newest
    {
      CloseAcknowledges(s.w, t, i);
    }
    CloseAcknowledges(s.w, t, s.w.handles[h].newest);
  }

  /** Where every acknowledged save is covered, the next step keeps it so if and only
      if it is none of those. */
  lemma CoversIff<D(!new)>(s: State<D>, l: Step<D>)
    requires Inv(s) && Covers(s) && Enabled(s, l)
    ensures Covers(Apply(s, l)) <==> !Uncovers(s, l)
  {
    if l.Protocol? && l.l.Close? {
      CloseCoversIff(s, l.l.t);
    } else if !l.LateApply? {
      var m := if l.Protocol? then l.l else W.FlushEnd(l.t, W.Failed);
      ForwardIff(s, l);
      forall i: nat | W.Acknowledged(W.Apply(s.w, m), i) ensures W.OnDisk(Apply(s, l).store, i) {
        OnlyCloseAcknowledges(s.w, m, i);
      }
    }
  }

  ghost predicate CoversThroughout<D>(s: State<D>, ls: seq<Step<D>>)
    requires CanRun(s, ls)
    decreases |ls|
  {
    Covers(s) && (ls == [] || CoversThroughout(Apply(s, ls[0]), ls[1..]))
  }

  ghost predicate NoneUncovers<D>(s: State<D>, ls: seq<Step<D>>)
    requires CanRun(s, ls)
    decreases |ls|
  {
    ls == [] || (!Uncovers(s, ls[0]) && NoneUncovers(Apply(s, ls[0]), ls[1..]))
  }

  lemma {:induction false} RunCoversIff<D(!new)>(s: State<D>, ls: seq<Step<D>>)
    requires Inv(s) && Covers(s) && CanRun(s, ls)
    ensures CoversThroughout(s, ls) <==> NoneUncovers(s, ls)
    decreases |ls|
  {
    if ls != [] {
      StepInv(s, ls[0]);
      CoversIff(s, ls[0]);
      if Covers(Apply(s, ls[0])) {
        RunCoversIff(Apply(s, ls[0]), ls[1..]);
      }
    }
  }

  /** Over every run with puts arriving late: every acknowledged save is covered at every
      moment if and only if no put arrives after a newer save was acknowledged, and none
      overwrites a newer one that is acknowledged next. */
  lemma AcknowledgedStayCoveredIff<D(!new)>(doc: D, ls: seq<Step<D>>)
    requires CanRun(Init(doc), ls)
    ensures CoversThroughout(Init(doc), ls) <==> NoneUncovers(Init(doc), ls)
  {
    InitInv(doc);
    RunCoversIff(Init(doc), ls);
  }

  lemma {:induction false} RunSnoc<D>(s: State<D>, ls: seq<Step<D>>, l: Step<D>)
    requires CanRun(s, ls) && Enabled(Run(s, ls), l)
    ensures CanRun(s, ls + [l]) && Run(s, ls + [l]) == Apply(Run(s, ls), l)
    decreases |ls|
  {
    if ls == [] {
      assert CanRun(Apply(s, l), []);
      assert ([] + [l])[1..] == [];
    } else {
      RunSnoc(Apply(s, ls[0]), ls[1..], l);
      assert (ls + [l])[1..] == ls[1..] + [l];
    }
  }

  /** Some run leads from `s` to `s'`. */
  ghost predicate LeadsTo<D(!new)>(s: State<D>, s': State<D>) {
    exists ls :: CanRun(s, ls) && s' == Run(s, ls)
  }

  lemma LeadsFurther<D(!new)>(s0: State<D>, s: State<D>, l: Step<D>)
    requires LeadsTo(s0, s) && Enabled(s, l)
    ensures LeadsTo(s0, Apply(s, l))
  {
    var ls :| CanRun(s0, ls) && s == Run(s0, ls);
    RunSnoc(s0, ls, l);
  }

  /** Every save had a batch of its own, and drainer 0, if it was started, has nothing to do. */
  predicate Drained(w: W.State<int>) {
    && w.held.None? && w.pending.None? && |w.enqueued| == |w.owner| == |w.handles|
    && w.drainers == (if w.inFlight then map[0 := W.Top] else map[]) && w.spawned == if w.inFlight then 1 else 0
  }

  /** The writer when the save of `d` was taken as a batch of its own. */
  function TakenOne(w: W.State<int>, d: int): W.State<int> {
    w.(doc := d, enqueued := w.enqueued + [d], owner := w.owner + [|w.handles|],
       handles := w.handles + [W.Handle(|w.enqueued|, None, false)],
       inFlight := true, spawned := 1, drainers := map[0 := W.Flushing(|w.handles|, false)])
  }

  /** And when its flush was over and its handle closed. */
  function ClosedOne(w: W.State<int>, d: int, outcome: W.Outcome): W.State<int> {
    TakenOne(w, d).(handles := w.handles + [W.Handle(|w.enqueued|, Some(outcome), true)], drainers := map[0 := W.Top],
                    disk := if outcome.Durable? then Some(|w.enqueued|) else w.disk,
                    log := w.log + [W.Flush(|w.handles|, |w.enqueued|, outcome)])
  }

  lemma SaveTaken(s0: State<int>, s: State<int>, d: int)
    requires LeadsTo(s0, s) && Drained(s.w)
    ensures LeadsTo(s0, s.(w := TakenOne(s.w, d)))
  {
    LeadsFurther(s0, s, Protocol(W.Install(d)));
    var s1 := s.(w := W.Apply(s.w, W.Install(d)));
    LeadsFurther(s0, s1, Protocol(W.Enqueue));
    var s2 := s1.(w := W.Apply(s1.w, W.Enqueue));
    assert s2.w.handles == s.w.handles + [W.Handle(|s.w.enqueued|, None, false)] && s2.w.drainers == map[0 := W.Top];
    LeadsFurther(s0, s2, Protocol(W.Take(0)));
    assert Apply(s2, Protocol(W.Take(0))).w.drainers == TakenOne(s.w, d).drainers;
  }

  /** Its put is given up. */
  lemma SaveGivenUp(s0: State<int>, s: State<int>, d: int)
    requires LeadsTo(s0, s) && Drained(s.w)
    ensures LeadsTo(s0, State(ClosedOne(s.w, d, W.Failed), s.store, s.late + multiset{|s.w.enqueued|}))
  {
    SaveTaken(s0, s, d);
    var s1 := s.(w := TakenOne(s.w, d));
    LeadsFurther(s0, s1, GiveUp(0));
    var s2 := Apply(s1, GiveUp(0));
    LeadsFurther(s0, s2, Protocol(W.Close(0)));
    var s3 := Apply(s2, Protocol(W.Close(0)));
    assert s3.w.handles == ClosedOne(s.w, d, W.Failed).handles && s3.w.drainers == map[0 := W.Top];
  }

  /** Its put gets through. */
  lemma SaveWritten(s0: State<int>, s: State<int>, d: int)
    requires LeadsTo(s0, s) && Drained(s.w)
    ensures LeadsTo(s0, State(ClosedOne(s.w, d, W.Durable), Some(|s.w.enqueued|), s.late))
  {
    SaveTaken(s0, s, d);
    var s1 := s.(w := TakenOne(s.w, d));
    LeadsFurther(s0, s1, Protocol(W.Write(0)));
    var s2 := Apply(s1, Protocol(W.Write(0)));
    LeadsFurther(s0, s2, Protocol(W.FlushEnd(0, W.Durable)));
    var s3 := Apply(s2, Protocol(W.FlushEnd(0, W.Durable)));
    LeadsFurther(s0, s3, Protocol(W.Close(0)));
    var s4 := Apply(s3, Protocol(W.Close(0)));
    assert s4.w.handles == ClosedOne(s.w, d, W.Durable).handles && s4.w.drainers == map[0 := W.Top];
  }

  /** Such a run: the put of the first save is given up, the second save is written and
      acknowledged, and then the first put arrives. */
  lemma LatePutUncovers(first: int, second: int) returns (s: State<int>)
    ensures LeadsTo(Init(0), s) && W.Acknowledged(s.w, 1) && s.store == Some(0) && !Covers(s)
  {
    var s0: State<int> := Init(0);
    assert CanRun(s0, []);
    SaveGivenUp(s0, s0, first);
    var s1 := State(ClosedOne(s0.w, first, W.Failed), None, multiset{0});
    SaveWritten(s0, s1, second);
    var s2 := State(ClosedOne(s1.w, second, W.Durable), Some(1), multiset{0});
    LeadsFurther(s0, s2, LateApply(0));
    s := Apply(s2, LateApply(0));
    assert W.Acknowledged(s.w, 1) && !W.OnDisk(s.store, 1);
  }

  /** The next put that gets through covers everything again, whatever arrived late before. */
  lemma NextWriteCovers<D(!new)>(s: State<D>, t: nat)
    requires Inv(s) && Enabled(s, Protocol(W.Write(t)))
    ensures Covers(Apply(s, Protocol(W.Write(t))))
  {
    StepInv(s, Protocol(W.Write(t)));
    WrittenCovers(Apply(s, Protocol(W.Write(t))));
  }
}
