/** The coalescing writer of go/config_persistence.go as a protocol: savers, the
    drainer goroutine and the waiters interleave, one step per lock-held region. */
module CoalescingProtocol {
  import opened GoValues

  /** What a flush reports; a recovered panic counts as Failed. */
  datatype Outcome = Durable | Failed

  /** A `pendingFlush`: index of its snapshot, its `err` once written, and the closed channel. */
  datatype Handle = Handle(newest: nat, outcome: Option<Outcome>, done: bool)

  /** Where a drainer goroutine stands in `run`. */
  datatype Pc =
    | Top
    | Flushing(handle: nat, wrote: bool)
    | Closing(handle: nat)

  datatype Flush = Flush(handle: nat, snapshot: nat, outcome: Outcome)

  /** `doc` is the document the savers edit; `held` is the snapshot of a saver that
      still holds the document's lock. `enqueued`, `owner`, `log` and the index in
      `disk` are the history the properties speak of. */
  datatype State<D> = State(
    doc: D,
    held: Option<D>,
    enqueued: seq<D>,
    owner: seq<nat>,
    handles: seq<Handle>,
    pending: Option<nat>,
    inFlight: bool,
    drainers: map<nat, Pc>,
    spawned: nat,
    disk: Option<nat>,
    log: seq<Flush>)

  datatype Step<D> =
    | Install(d: D)              // save: edit under the lock, encode
    | InstallUnencodable(d: D)   // save: the edit stays, the encoder fails
    | Enqueue                    // save: enqueue, then unlock
    | Take(t: nat)               // run: pending becomes this drainer's batch
    | Exit(t: nat)               // run: nothing pending, the drainer ends
    | Write(t: nat)              // flush: the snapshot reaches the store
    | FlushEnd(t: nat, outcome: Outcome)
    | Close(t: nat)              // close(p.done)

  function Init<D>(doc: D): State<D> {
    State(doc, None, [], [], [], None, false, map[], 0, None, [])
  }

  predicate Enabled<D(==)>(s: State<D>, l: Step<D>) {
    match l
    case Install(_) => s.held.None?
    case InstallUnencodable(_) => s.held.None?
    case Enqueue => s.held.Some? && (s.pending.Some? ==> s.pending.value < |s.handles|)
    case Take(t) => t in s.drainers && s.drainers[t].Top? && s.pending.Some?
    case Exit(t) => t in s.drainers && s.drainers[t].Top? && s.pending.None?
    case Write(t) =>
      && t in s.drainers && s.drainers[t].Flushing? && !s.drainers[t].wrote
      && s.drainers[t].handle < |s.handles|
    case FlushEnd(t, outcome) =>
      && t in s.drainers && s.drainers[t].Flushing?
      && s.drainers[t].handle < |s.handles|
      && (outcome.Durable? ==> s.drainers[t].wrote)
    case Close(t) => t in s.drainers && s.drainers[t].Closing? && s.drainers[t].handle < |s.handles|
  }

  function AfterEnqueue<D>(s: State<D>): State<D>
    requires s.held.Some? && (s.pending.Some? ==> s.pending.value < |s.handles|)
  {
    var first := s.pending.None?;
    var h := if first then |s.handles| else s.pending.value;
    var handles := if first then s.handles + [Handle(0, None, false)] else s.handles;
    s.(held := None,
       enqueued := s.enqueued + [s.held.value],
       owner := s.owner + [h],
       handles := handles[h := handles[h].(newest := |s.enqueued|)],
       pending := Some(h),
       inFlight := true,
       drainers := if s.inFlight then s.drainers else s.drainers[s.spawned := Top],
       spawned := if s.inFlight then s.spawned else s.spawned + 1)
  }

  function Apply<D(==)>(s: State<D>, l: Step<D>): State<D>
    requires Enabled(s, l)
  {
    match l
    case Install(d) => s.(doc := d, held := Some(d))
    case InstallUnencodable(d) => s.(doc := d)
    case Enqueue => AfterEnqueue(s)
    case Take(t) => s.(pending := None, drainers := s.drainers[t := Flushing(s.pending.value, false)])
    case Exit(t) => s.(inFlight := false, drainers := s.drainers - {t})
    case Write(t) =>
      var h := s.drainers[t].handle;
      s.(disk := Some(s.handles[h].newest), drainers := s.drainers[t := Flushing(h, true)])
    case FlushEnd(t, outcome) =>
      var h := s.drainers[t].handle;
      s.(handles := s.handles[h := s.handles[h].(outcome := Some(outcome))],
         drainers := s.drainers[t := Closing(h)],
         log := s.log + [Flush(h, s.handles[h].newest, outcome)])
    case Close(t) =>
      var h := s.drainers[t].handle;
      s.(handles := s.handles[h := s.handles[h].(done := true)], drainers := s.drainers[t := Top])
  }

  // ---- the invariant ----

  /** Enqueues fall into contiguous batches, numbered in order, and a handle
      points at the newest snapshot of its batch. */
  ghost predicate Batches<D>(s: State<D>) {
    && |s.owner| == |s.enqueued|
    && (forall i | 0 <= i < |s.owner| :: s.owner[i] < |s.handles| && i <= s.handles[s.owner[i]].newest)
    && (forall i, j | 0 <= i <= j < |s.owner| :: s.owner[i] <= s.owner[j])
    && (forall h | 0 <= h < |s.handles| :: s.handles[h].newest < |s.owner| && s.owner[s.handles[h].newest] == h)
  }

  /** How many handles have left `pending`: drainers take them in order. */
  ghost function Taken<D>(s: State<D>): int {
    if s.pending.Some? then |s.handles| - 1 else |s.handles|
  }

  ghost predicate Busy<D>(s: State<D>) {
    exists t :: t in s.drainers && !s.drainers[t].Top?
  }

  /** How many handles have been closed. */
  ghost function Closed<D>(s: State<D>): int {
    Taken(s) - if Busy(s) then 1 else 0
  }

  /** One drainer at most, alive exactly while `inFlight`; a pending flush is never left without one. */
  ghost predicate OneDrainer<D>(s: State<D>) {
    && (forall t, u | t in s.drainers && u in s.drainers :: t == u)
    && (s.inFlight <==> s.drainers.Keys != {})
    && (s.pending.Some? ==> s.inFlight)
  }

  /** The newest taken handle is the only one in work; all before it are closed. */
  ghost predicate Progress<D>(s: State<D>) {
    && (s.pending.Some? ==> s.handles != [] && s.pending.value == |s.handles| - 1)
    && (s.drainers.Keys == {} ==> |s.log| == Taken(s))
    && (forall t | t in s.drainers ::
          match s.drainers[t]
          case Top => |s.log| == Taken(s)
          case Flushing(h, _) => h == Taken(s) - 1 == |s.log|
          case Closing(h) => h == Taken(s) - 1 == |s.log| - 1)
    && (forall h | 0 <= h < |s.handles| :: s.handles[h].done <==> h < Closed(s))
  }

  /** One log entry per handle whose outcome is known, in batch order, for the
      newest snapshot of that batch. */
  ghost predicate LogInOrder<D>(s: State<D>) {
    && |s.log| <= |s.handles|
    && (forall h | 0 <= h < |s.handles| :: s.handles[h].outcome.Some? <==> h < |s.log|)
    && (forall h | 0 <= h < |s.log| ::
          s.log[h] == Flush(h, s.handles[h].newest, s.log[h].outcome) && s.handles[h].outcome == Some(s.log[h].outcome))
  }

  /** The store holds the newest snapshot of a taken batch, and is at least as new
      as every flush that reported success. */
  ghost predicate DiskCovers<D>(s: State<D>) {
    && (s.disk.Some? ==>
          && s.disk.value < |s.owner|
          && s.owner[s.disk.value] < Taken(s)
          && s.handles[s.owner[s.disk.value]].newest == s.disk.value)
    && (forall h | 0 <= h < |s.handles| && s.handles[h].outcome == Some(Durable) ::
          s.disk.Some? && h <= s.owner[s.disk.value])
    && (forall t | t in s.drainers && s.drainers[t].Flushing? && s.drainers[t].wrote ::
          s.disk.Some? && s.owner[s.disk.value] == s.drainers[t].handle)
  }

  ghost predicate Inv<D>(s: State<D>) {
    Batches(s) && OneDrainer(s) && Progress(s) && LogInOrder(s) && DiskCovers(s)
  }

  lemma InitInv<D>(doc: D)
    ensures Inv(Init(doc))
  {
  }

  lemma EnqueueBatches<D>(s: State<D>)
    requires Inv(s) && Enabled(s, Enqueue)
    ensures Batches(Apply(s, Enqueue))
  {
  }

  lemma EnqueueOneDrainer<D>(s: State<D>)
    requires Inv(s) && Enabled(s, Enqueue)
    ensures OneDrainer(Apply(s, Enqueue))
    ensures Busy(Apply(s, Enqueue)) <==> Busy(s)
  {
    var s' := Apply(s, Enqueue);
    if !s.inFlight {
      assert s'.drainers == map[s.spawned := Top];
      assert s.spawned in s'.drainers.Keys;
    }
  }

  lemma EnqueueKeepsHandles<D>(s: State<D>)
    requires Inv(s) && Enabled(s, Enqueue)
    ensures var s' := Apply(s, Enqueue);
      && Taken(s') == Taken(s)
      && |s.handles| <= |s'.handles| == Taken(s) + 1
      && s'.handles[Taken(s)].outcome.None? && !s'.handles[Taken(s)].done
      && (forall h | 0 <= h < Taken(s) :: s'.handles[h] == s.handles[h])
  {
  }

  lemma EnqueueInv<D>(s: State<D>)
    requires Inv(s) && Enabled(s, Enqueue)
    ensures Inv(Apply(s, Enqueue))
  {
    EnqueueBatches(s);
    EnqueueOneDrainer(s);
    EnqueueKeepsHandles(s);
    var s' := Apply(s, Enqueue);
    assert Progress(s') by {
      assert forall t | t in s'.drainers :: t in s.drainers || s'.drainers[t].Top?;
    }
    assert LogInOrder(s');
    assert DiskCovers(s');
  }

  lemma BusyIff<D>(s: State<D>, t: nat)
    requires OneDrainer(s) && t in s.drainers
    ensures Busy(s) <==> !s.drainers[t].Top?
    ensures s.drainers.Keys == {t}
  {
  }

  lemma TakeInv<D>(s: State<D>, t: nat)
    requires Inv(s) && Enabled(s, Take(t))
    ensures Inv(Apply(s, Take(t)))
  {
    BusyIff(s, t);
    BusyIff(Apply(s, Take(t)), t);
  }

  lemma ExitInv<D>(s: State<D>, t: nat)
    requires Inv(s) && Enabled(s, Exit(t))
    ensures Inv(Apply(s, Exit(t)))
  {
    BusyIff(s, t);
    assert Apply(s, Exit(t)).drainers.Keys == {};
  }

  lemma WriteInv<D>(s: State<D>, t: nat)
    requires Inv(s) && Enabled(s, Write(t))
    ensures Inv(Apply(s, Write(t)))
  {
    BusyIff(s, t);
    BusyIff(Apply(s, Write(t)), t);
  }

  lemma FlushEndProgress<D>(s: State<D>, t: nat, outcome: Outcome)
    requires Inv(s) && Enabled(s, FlushEnd(t, outcome))
    ensures Progress(Apply(s, FlushEnd(t, outcome)))
  {
    BusyIff(s, t);
    BusyIff(Apply(s, FlushEnd(t, outcome)), t);
  }

  lemma FlushEndLog<D>(s: State<D>, t: nat, outcome: Outcome)
    requires Inv(s) && Enabled(s, FlushEnd(t, outcome))
    ensures LogInOrder(Apply(s, FlushEnd(t, outcome))) && DiskCovers(Apply(s, FlushEnd(t, outcome)))
  {
    assert s.drainers[t].handle == |s.log|;
  }

  lemma FlushEndInv<D>(s: State<D>, t: nat, outcome: Outcome)
    requires Inv(s) && Enabled(s, FlushEnd(t, outcome))
    ensures Inv(Apply(s, FlushEnd(t, outcome)))
  {
    FlushEndProgress(s, t, outcome);
    FlushEndLog(s, t, outcome);
  }

  lemma CloseProgress<D>(s: State<D>, t: nat)
    requires Inv(s) && Enabled(s, Close(t))
    ensures Progress(Apply(s, Close(t)))
  {
    BusyIff(s, t);
    BusyIff(Apply(s, Close(t)), t);
  }

  lemma CloseInv<D>(s: State<D>, t: nat)
    requires Inv(s) && Enabled(s, Close(t))
    ensures Inv(Apply(s, Close(t)))
  {
    CloseProgress(s, t);
  }

  lemma StepInv<D>(s: State<D>, l: Step<D>)
    requires Inv(s) && Enabled(s, l)
    ensures Inv(Apply(s, l))
  {
    match l
    case Install(_) => assert Busy(s) <==> Busy(Apply(s, l));
    case InstallUnencodable(_) => assert Busy(s) <==> Busy(Apply(s, l));
    case Enqueue => EnqueueInv(s);
    case Take(t) => TakeInv(s, t);
    case Exit(t) => ExitInv(s, t);
    case Write(t) => WriteInv(s, t);
    case FlushEnd(t, outcome) => FlushEndInv(s, t, outcome);
    case Close(t) => CloseInv(s, t);
  }

  // ---- whole runs ----

  ghost predicate CanRun<D>(s: State<D>, ls: seq<Step<D>>)
    decreases |ls|
  {
    ls == [] || (Enabled(s, ls[0]) && CanRun(Apply(s, ls[0]), ls[1..]))
  }

  ghost function Run<D>(s: State<D>, ls: seq<Step<D>>): State<D>
    requires CanRun(s, ls)
    decreases |ls|
  {
    if ls == [] then s else Run(Apply(s, ls[0]), ls[1..])
  }

  /** The save that enqueued snapshot `i` has returned nil from its wait. */
  ghost predicate Acknowledged<D>(s: State<D>, i: nat) {
    && i < |s.owner| && s.owner[i] < |s.handles|
    && s.handles[s.owner[i]].done
    && s.handles[s.owner[i]].outcome == Some(Durable)
  }

  ghost predicate OnDisk(disk: Option<nat>, i: nat) {
    disk.Some? && i <= disk.value
  }

  /** What no step takes back: history only grows, the store never goes back to
      an older snapshot, a handle resolved stays resolved the same way. */
  ghost predicate Later<D>(s: State<D>, s': State<D>) {
    && s.enqueued <= s'.enqueued
    && s.owner <= s'.owner
    && s.log <= s'.log
    && |s.handles| <= |s'.handles|
    && (s.disk.Some? ==> OnDisk(s'.disk, s.disk.value))
    && (forall h | 0 <= h < |s.handles| && s.handles[h].done :: s'.handles[h] == s.handles[h])
  }

  lemma StepLater<D>(s: State<D>, l: Step<D>)
    requires Inv(s) && Enabled(s, l)
    ensures Later(s, Apply(s, l))
  {
    match l
    case Enqueue =>
      EnqueueKeepsHandles(s);
    case Take(t) =>
    case Write(t) =>
      var h := s.drainers[t].handle;
      BusyIff(s, t);
      if s.disk.Some? {
        assert s.owner[s.disk.value] <= h;
      }
    case FlushEnd(t, outcome) =>
      BusyIff(s, t);
    case Close(t) =>
      BusyIff(s, t);
    case _ =>
  }

  lemma {:induction false} RunInv<D>(s: State<D>, ls: seq<Step<D>>)
    requires Inv(s) && CanRun(s, ls)
    ensures Inv(Run(s, ls))
    ensures Later(s, Run(s, ls))
    decreases |ls|
  {
    if ls != [] {
      StepInv(s, ls[0]);
      StepLater(s, ls[0]);
      RunInv(Apply(s, ls[0]), ls[1..]);
    }
  }

  /** Some interleaving of savers and drainers leads from a fresh writer to `s`. */
  ghost predicate Reachable<D(!new)>(s: State<D>) {
    exists doc, ls :: CanRun(Init(doc), ls) && s == Run(Init(doc), ls)
  }

  lemma ReachableInv<D(!new)>(s: State<D>)
    requires Reachable(s)
    ensures Inv(s)
  {
    var doc, ls :| CanRun(Init(doc), ls) && s == Run(Init(doc), ls);
    InitInv(doc);
    RunInv(Init(doc), ls);
  }

  lemma InitReachable<D(!new)>(doc: D)
    ensures Reachable(Init(doc))
  {
    assert CanRun(Init(doc), []);
    assert Run(Init(doc), []) == Init(doc);
  }

  lemma {:induction false} RunAppend<D>(s: State<D>, ls: seq<Step<D>>, more: seq<Step<D>>)
    requires CanRun(s, ls) && CanRun(Run(s, ls), more)
    ensures CanRun(s, ls + more) && Run(s, ls + more) == Run(Run(s, ls), more)
    decreases |ls|
  {
    if ls == [] {
      assert ls + more == more;
    } else {
      RunAppend(Apply(s, ls[0]), ls[1..], more);
      assert (ls + more)[1..] == ls[1..] + more;
    }
  }

  lemma ReachableRun<D(!new)>(s: State<D>, ls: seq<Step<D>>)
    requires Reachable(s) && CanRun(s, ls)
    ensures Reachable(Run(s, ls))
  {
    var doc, first :| CanRun(Init(doc), first) && s == Run(Init(doc), first);
    RunAppend(Init(doc), first, ls);
  }

  lemma ReachableStep<D(!new)>(s: State<D>, l: Step<D>)
    requires Reachable(s) && Enabled(s, l)
    ensures Reachable(Apply(s, l))
  {
    assert CanRun(Apply(s, l), []);
    assert [l][1..] == [];
    assert CanRun(s, [l]) && Run(s, [l]) == Apply(s, l);
    ReachableRun(s, [l]);
  }

  lemma AcknowledgedIsOnDisk<D>(s: State<D>, i: nat)
    requires Inv(s) && Acknowledged(s, i)
    ensures OnDisk(s.disk, i)
  {
    var h, d := s.owner[i], s.owner[s.disk.value];
    assert h <= d;
    if h < d {
      assert s.disk.value > i;
    }
  }

  /** In every interleaving: the store holds one of the enqueued snapshots (or
      what it held at the start), never an older one than before, and every save
      acknowledged so far is covered by it from then on. */
  lemma DurablePrefix<D(!new)>(s: State<D>, ls: seq<Step<D>>, s': State<D>)
    requires Reachable(s) && CanRun(s, ls) && s' == Run(s, ls)
    ensures s'.disk.Some? ==> s'.disk.value < |s'.enqueued|
    ensures s.disk.Some? ==> OnDisk(s'.disk, s.disk.value)
    ensures s.enqueued <= s'.enqueued
    ensures forall i: nat | Acknowledged(s, i) :: Acknowledged(s', i) && OnDisk(s'.disk, i)
  {
    ReachableInv(s);
    RunInv(s, ls);
    forall i: nat | Acknowledged(s, i) ensures Acknowledged(s', i) && OnDisk(s'.disk, i) {
      assert s'.owner[i] == s.owner[i];
      AcknowledgedIsOnDisk(s', i);
    }
  }

  ghost function FirstOf<D>(s: State<D>, h: nat): nat
    requires h < |s.handles|
  {
    if h == 0 then 0 else s.handles[h - 1].newest + 1
  }

  lemma BatchIsInterval<D>(s: State<D>, h: nat, i: nat)
    requires Batches(s) && h < |s.handles| && i < |s.owner|
    ensures s.owner[i] == h <==> FirstOf(s, h) <= i <= s.handles[h].newest
  {
    assert s.owner[s.handles[h].newest] == h;
    if h > 0 {
      assert s.owner[s.handles[h - 1].newest] == h - 1;
    }
  }

  lemma DoneIsLogged<D>(s: State<D>, h: nat)
    requires Inv(s) && h < |s.handles| && s.handles[h].done
    ensures h < |s.log| && s.handles[h].outcome.Some?
    ensures s.log[h] == Flush(h, s.handles[h].newest, s.handles[h].outcome.value)
  {
    if t :| t in s.drainers {
      BusyIff(s, t);
    } else {
      assert s.drainers.Keys == {};
    }
  }

  /** Enqueues split into contiguous batches, one per handle; every closed handle
      carries the outcome of the one flush of its batch's newest snapshot. */
  lemma CoalescingPartition<D(!new)>(s: State<D>)
    requires Reachable(s)
    ensures forall h: nat, i: nat | h < |s.handles| && i < |s.owner| ::
              s.owner[i] == h <==> FirstOf(s, h) <= i <= s.handles[h].newest
    ensures forall h | 0 <= h < |s.handles| && s.handles[h].done ::
              && h < |s.log| && s.handles[h].outcome.Some?
              && s.log[h] == Flush(h, s.handles[h].newest, s.handles[h].outcome.value)
    ensures forall k | 0 <= k < |s.log| :: s.log[k].handle == k
  {
    ReachableInv(s);
    forall h: nat, i: nat | h < |s.handles| && i < |s.owner|
      ensures s.owner[i] == h <==> FirstOf(s, h) <= i <= s.handles[h].newest
    {
      BatchIsInterval(s, h, i);
    }
    forall h | 0 <= h < |s.handles| && s.handles[h].done
      ensures h < |s.log| && s.handles[h].outcome.Some?
      ensures s.log[h] == Flush(h, s.handles[h].newest, s.handles[h].outcome.value)
    {
      DoneIsLogged(s, h);
    }
  }

  /** Flushes never overlap, no pending flush is left without a drainer, and once
      the drainer is gone no caller waits. */
  lemma SingleDrainer<D(!new)>(s: State<D>)
    requires Reachable(s)
    ensures |s.drainers| == if s.inFlight then 1 else 0
    ensures s.pending.Some? ==> s.inFlight
    ensures !s.inFlight ==> forall h | 0 <= h < |s.handles| :: s.handles[h].done
  {
    ReachableInv(s);
    if s.inFlight {
      var t :| t in s.drainers.Keys;
      BusyIff(s, t);
    } else {
      assert s.drainers.Keys == {};
    }
  }

  // ---- the drain ends ----

  predicate IsDrainStep<D>(l: Step<D>) {
    l.Take? || l.Exit? || l.Write? || l.FlushEnd? || l.Close?
  }

  /** Steps a drainer has left before it can only look for more work. */
  function StepsLeft(pc: Pc): nat {
    match pc
    case Top => 1
    case Closing(_) => 2
    case Flushing(_, wrote) => if wrote then 3 else 4
  }

  ghost function Work<D>(s: State<D>): nat {
    (if s.pending.Some? then 4 else 0)
    + (if t :| t in s.drainers then StepsLeft(s.drainers[t]) else 0)
  }

  /** How many more flushes can complete if nothing else is enqueued. */
  ghost function FlushesLeft<D>(s: State<D>): nat {
    (if s.pending.Some? then 1 else 0)
    + (if exists t :: t in s.drainers && s.drainers[t].Flushing? then 1 else 0)
  }

  lemma DrainStepWorks<D>(s: State<D>, l: Step<D>)
    requires Inv(s) && Enabled(s, l) && IsDrainStep(l)
    ensures var s' := Apply(s, l);
      && Work(s') < Work(s)
      && FlushesLeft(s') + |s'.log| <= FlushesLeft(s) + |s.log|
  {
    var s' := Apply(s, l);
    BusyIff(s, l.t);
    assert forall t | t in s.drainers :: t == l.t;
    assert forall t | t in s'.drainers :: t == l.t;
    assert s.drainers[l.t].Flushing? <==> exists t :: t in s.drainers && s.drainers[t].Flushing?;
  }

  lemma {:induction false} DrainRun<D>(s: State<D>, ls: seq<Step<D>>)
    requires Inv(s) && CanRun(s, ls)
    requires forall l | l in ls :: IsDrainStep(l)
    ensures |ls| + Work(Run(s, ls)) <= Work(s)
    ensures FlushesLeft(Run(s, ls)) + |Run(s, ls).log| <= FlushesLeft(s) + |s.log|
    decreases |ls|
  {
    if ls != [] {
      StepInv(s, ls[0]);
      DrainStepWorks(s, ls[0]);
      DrainRun(Apply(s, ls[0]), ls[1..]);
    }
  }

  /** With no further enqueues the drain is over after at most eight steps and two
      flush completions, and it cannot stop earlier: as long as the drainer is
      alive one of its steps is possible, and when it is gone every handle is closed. */
  lemma DrainEnds<D(!new)>(s: State<D>, ls: seq<Step<D>>, s': State<D>)
    requires Reachable(s) && CanRun(s, ls) && s' == Run(s, ls)
    requires forall l | l in ls :: IsDrainStep(l)
    ensures |ls| <= 8
    ensures |s'.log| <= |s.log| + 2
    ensures s'.inFlight ==> exists l :: IsDrainStep(l) && Enabled(s', l)
    ensures !s'.inFlight ==> s'.pending.None? && forall h | 0 <= h < |s'.handles| :: s'.handles[h].done
  {
    ReachableInv(s);
    RunInv(s, ls);
    DrainRun(s, ls);
    WorkBound(s);
    if s'.inFlight {
      var t :| t in s'.drainers.Keys;
      BusyIff(s', t);
      var l := match s'.drainers[t]
        case Top => if s'.pending.Some? then Take(t) else Exit(t)
        case Flushing(_, _) => FlushEnd(t, Failed)
        case Closing(_) => Close(t);
      assert IsDrainStep(l) && Enabled(s', l);
    } else {
      assert s'.drainers.Keys == {};
    }
  }

  lemma WorkBound<D>(s: State<D>)
    requires Inv(s)
    ensures Work(s) <= 8 && FlushesLeft(s) <= 2
  {
  }

  /** From any moment on, a burst of saves during which no flush completes costs at
      most two more flushes, however many they are. */
  lemma BurstCostsTwoFlushes<D(!new)>(s0: State<D>, burst: seq<Step<D>>, drain: seq<Step<D>>, s: State<D>)
    requires Reachable(s0) && CanRun(s0, burst) && s == Run(s0, burst) && CanRun(s, drain)
    requires forall l | l in burst :: !l.FlushEnd?
    requires forall l | l in drain :: IsDrainStep(l)
    ensures |Run(s, drain).log| <= |s0.log| + 2
  {
    ReachableRun(s0, burst);
    NoFlushEndNoLog(s0, burst);
    DrainEnds(s, drain, Run(s, drain));
  }

  lemma {:induction false} NoFlushEndNoLog<D>(s: State<D>, ls: seq<Step<D>>)
    requires CanRun(s, ls)
    requires forall l | l in ls :: !l.FlushEnd?
    ensures Run(s, ls).log == s.log
    decreases |ls|
  {
    if ls != [] {
      NoFlushEndNoLog(Apply(s, ls[0]), ls[1..]);
    }
  }
}

/** The Go objects behind the protocol: each method is one lock-held region or one
    statement of `run`, and moves the protocol by exactly the step it names. */
module CoalescingWriterObjects {
  import opened GoValues
  import opened CoalescingProtocol

  /** How a call of the flush function ends; nil means that the snapshot is in the
      store, and with an error or a panic it may have got there all the same. */
  datatype Answer =
    | ReturnsNil
    | ReturnsError(error: string, reached: bool)
    | Panics(reason: string, reached: bool)

  predicate Reaches(answer: Answer) {
    match answer
    case ReturnsNil => true
    case ReturnsError(_, reached) => reached
    case Panics(_, reached) => reached
  }

  /** `err` is what the waiters get of a flush that ended like this. */
  predicate Delivers(answer: Answer, err: Option<string>) {
    && (err.None? <==> answer.ReturnsNil?)
    && (answer.ReturnsError? ==> err == Some(answer.error))
    && (answer.Panics? ==> err == Some("store: flush panicked: " + answer.reason))
  }

  class PendingFlush<D> {
    var snapshot: D
    var err: Option<string>
    var done: bool           // the channel is closed

    constructor (snapshot: D)
      ensures this.snapshot == snapshot && err.None? && !done
    {
      this.snapshot := snapshot;
      err, done := None, false;
    }
  }

  class CoalescingWriter<D(!new,==)> {
    const flush: (nat, D) -> Answer  // given the number of the call and the snapshot
    var calls: nat                   // of flush, so far
    var inFlight: bool
    var pending: PendingFlush?<D>
    ghost var s: State<D>
    ghost var flushes: seq<PendingFlush<D>>  // the object behind each handle
    ghost var repr: set<PendingFlush<D>>

    ghost predicate Valid()
      reads this, repr
    {
      Reachable(s) && inFlight == s.inFlight && calls == |s.log| && Behind(flush, s, flushes, pending, repr)
    }

    /** The objects `flushes` are the handles of `s`. */
    static ghost predicate Behind(flush: (nat, D) -> Answer, s: State<D>, flushes: seq<PendingFlush<D>>,
                                  pending: PendingFlush?<D>, repr: set<PendingFlush<D>>)
      reads repr
    {
      && |flushes| == |s.handles| && (forall h | 0 <= h < |flushes| :: flushes[h] in repr)
      && (forall h, g | 0 <= h < g < |flushes| :: flushes[h] != flushes[g])
      && (s.pending.Some? ==> s.pending.value < |flushes|)
      && pending == (if s.pending.Some? then flushes[s.pending.value] else null)
      && (forall h | 0 <= h < |flushes| :: Represents(flush, flushes[h], s, h))
    }

    /** New handles have new objects, the others keep theirs. */
    twostate predicate Grown()
      reads this
    {
      old(flushes) <= flushes && fresh(repr - old(repr)) && old(repr) <= repr
    }

    /** `p` has the newest snapshot of its batch, and once that was flushed the answer. */
    static ghost predicate Represents(flush: (nat, D) -> Answer, p: PendingFlush<D>, s: State<D>, h: nat)
      requires h < |s.handles|
      reads p
    {
      && s.handles[h].newest < |s.enqueued|
      && p.snapshot == s.enqueued[s.handles[h].newest]
      && p.done == s.handles[h].done
      && (s.handles[h].outcome.Some? ==>
            && Delivers(flush(h, p.snapshot), p.err)
            && (s.handles[h].outcome == Some(Durable) <==> flush(h, p.snapshot).ReturnsNil?))
    }

    constructor (flush: (nat, D) -> Answer, doc: D)
      ensures Valid() && s == Init(doc) && this.flush == flush
    {
      this.flush := flush;
      calls, inFlight, pending := 0, false, null;
      s, flushes, repr := Init(doc), [], {};
      InitReachable(doc);
    }

    /** A saver has the document's lock and has encoded the snapshot it will enqueue. */
    ghost method Install(d: D)
      requires Valid() && s.held.None?
      modifies this`s
      ensures Valid() && s == Apply(old(s), Step.Install(d)) && s.held == Some(d)
    {
      ReachableStep(s, Step.Install(d));
      s := Apply(s, Step.Install(d));
    }

    /** `enqueue`, called by the saver that holds the document's lock. */
    method Enqueue(snapshot: D) returns (p: PendingFlush<D>, ghost spawned: bool)
      requires Valid() && s.held == Some(snapshot)
      modifies this, pending
      ensures Valid()
      ensures s == Apply(old(s), Step.Enqueue)
      ensures |s.owner| > 0 && s.owner[|s.owner| - 1] < |flushes| && p == flushes[s.owner[|s.owner| - 1]]
      ensures p.snapshot == snapshot && !p.done
      ensures Grown() && (old(pending) == null ==> fresh(p))
      ensures old(pending) != null ==> p == old(pending)
      ensures spawned == !old(inFlight) && calls == old(calls)
    {
      EnqueueShape(s);
      spawned := !inFlight;
      if pending == null {
        NewPending(snapshot);
      } else {
        RefillPending(snapshot);
      }
      p := pending;
      if !inFlight {
        inFlight := true;
      }
      s := Apply(s, Step.Enqueue);
    }

    method NewPending(snapshot: D)
      requires Valid() && s.held == Some(snapshot) && pending == null
      modifies this`pending, this`flushes, this`repr
      ensures pending != null && fresh(pending) && pending.snapshot == snapshot && !pending.done
      ensures flushes == old(flushes) + [pending] && repr == old(repr) + {pending}
      ensures Behind(flush, Apply(s, Step.Enqueue), flushes, pending, repr)
    {
      EnqueueShape(s);
      pending := new PendingFlush(snapshot);
      flushes, repr := flushes + [pending], repr + {pending};
    }

    method RefillPending(snapshot: D)
      requires Valid() && s.held == Some(snapshot) && pending != null
      modifies pending
      ensures pending.snapshot == snapshot && !pending.done
      ensures Behind(flush, Apply(s, Step.Enqueue), flushes, pending, repr)
    {
      EnqueueShape(s);
      pending.snapshot := snapshot;
    }

    /** Other goroutines save, one after the other, each holding the document's lock. */
    method Arrive(saves: seq<D>)
      requires Valid() && s.held.None?
      modifies this, pending
      ensures Valid() && Grown() && Arrived(old(s), s, saves) && calls == old(calls)
    {
      NothingArrived(s);
      for i := 0 to |saves|
        invariant Valid() && Grown() && Arrived(old(s), s, saves[..i]) && calls == old(calls)
        invariant pending == old(pending) || fresh(pending)
      {
        assert saves[..i + 1] == saves[..i] + [saves[i]];
        SaveArrived(old(s), s, saves[..i], saves[i]);
        Install(saves[i]);
        var p, spawned := Enqueue(saves[i]);
      }
      assert saves[..|saves|] == saves;
    }

    /** The locked region of `run`: take the pending batch, or exit. */
    method TakePending(ghost t: nat) returns (p: PendingFlush?<D>)
      requires Valid() && t in s.drainers && s.drainers[t].Top?
      modifies this
      ensures Valid() && flushes == old(flushes) && repr == old(repr)
      ensures p == old(pending) && pending == null
      ensures s == Apply(old(s), if p == null then Exit(t) else Take(t))
      ensures p == null ==> !inFlight && forall q | q in flushes :: q.done
    {
      ghost var step := if pending == null then Exit(t) else Take(t);
      ReachableStep(s, step);
      p := pending;
      pending := null;
      if p == null {
        inFlight := false;
      }
      s := Apply(s, step);
      SingleDrainer(s);
    }

    /** The drainer `t` works on the handle of `p`. */
    ghost predicate Works(t: nat, p: PendingFlush<D>, at: Pc)
      reads this
    {
      t in s.drainers && s.drainers[t] == at && !at.Top? && at.handle < |flushes| && p == flushes[at.handle]
    }

    /** `runFlush`: the handle gets what the flush of its own snapshot answers, a
        recovered panic as an error; `during` is saved meanwhile. */
    method RunFlush(ghost t: nat, ghost h: nat, p: PendingFlush<D>, during: seq<D>)
      requires Valid() && s.held.None? && Works(t, p, Flushing(h, false))
      modifies this, repr
      ensures Valid() && Grown() && Works(t, p, Closing(h))
      ensures Passed(old(s), s, during) && h == old(calls) == calls - 1
      ensures p.snapshot == old(p.snapshot) && s.handles[h].outcome.Some?
      ensures p.err.None? <==> flush(h, p.snapshot).ReturnsNil?
      ensures Delivers(flush(h, p.snapshot), p.err)
      ensures s.disk == if Reaches(flush(h, p.snapshot)) then Some(s.handles[h].newest) else old(s.disk)
      ensures s.handles[h].outcome == Some(if p.err.None? then Durable else Failed)
    {
      FlushIsNext(s, t);
      var answer := flush(calls, p.snapshot);
      CallFlush(t, h, p, answer, during);
      ghost var called := s;
      var err := Recovered(answer);
      EndFlush(t, h, p, answer, err);
      assert during + [] == during;
      PassedOn(old(s), called, s, during, []);
    }

    /** The flush until it comes back. */
    method CallFlush(ghost t: nat, ghost h: nat, p: PendingFlush<D>, answer: Answer, during: seq<D>)
      requires Valid() && s.held.None? && Works(t, p, Flushing(h, false))
      modifies this, pending
      ensures Valid() && Grown() && Works(t, p, Flushing(h, Reaches(answer))) && Passed(old(s), s, during)
      ensures p.snapshot == old(p.snapshot) && calls == old(calls)
      ensures s.log == old(s.log) && s.handles[h].newest == old(s.handles)[h].newest
      ensures s.disk == if Reaches(answer) then Some(s.handles[h].newest) else old(s.disk)
    {
      StartFlush(t, h, p, Reaches(answer));
      ghost var started := s;
      ArriveDuring(t, p, Flushing(h, Reaches(answer)), during);
      assert [] + during == during;
      PassedOn(old(s), started, s, [], during);
    }

    ghost method StartFlush(t: nat, h: nat, p: PendingFlush<D>, reachesStore: bool)
      requires Valid() && s.held.None? && Works(t, p, Flushing(h, false))
      modifies this`s
      ensures Valid() && Works(t, p, Flushing(h, reachesStore)) && Passed(old(s), s, [])
      ensures s.log == old(s.log) && s.handles == old(s.handles)
      ensures s.disk == if reachesStore then Some(s.handles[h].newest) else old(s.disk)
    {
      PassedItself(s);
      if reachesStore {
        ReachStore(t, h, p);
      }
    }

    method ArriveDuring(ghost t: nat, ghost p: PendingFlush<D>, ghost at: Pc, saves: seq<D>)
      requires Valid() && s.held.None? && Works(t, p, at)
      modifies this, pending
      ensures Valid() && Grown() && Works(t, p, at) && Passed(old(s), s, saves)
      ensures calls == old(calls) && s.disk == old(s.disk) && s.log == old(s.log)
      ensures p.snapshot == old(p.snapshot) && p.err == old(p.err)
      ensures at.handle < |old(s.handles)| && s.handles[at.handle] == old(s.handles)[at.handle]
    {
      TakenIsNotPending(s, t);
      Arrive(saves);
    }

    ghost method ReachStore(t: nat, h: nat, p: PendingFlush<D>)
      requires Valid() && s.held.None? && Works(t, p, Flushing(h, false))
      modifies this`s
      ensures Valid() && s == Apply(old(s), Write(t)) && Works(t, p, Flushing(h, true)) && Passed(old(s), s, [])
    {
      DrainStepPasses(s, Write(t));
      ReachableStep(s, Write(t));
      s := Apply(s, Write(t));
    }

    /** What `runFlush` returns: a panic does not get past it. */
    static method Recovered(answer: Answer) returns (err: Option<string>)
      ensures Delivers(answer, err)
    {
      match answer
      case ReturnsNil => err := None;
      case ReturnsError(error, _) => err := Some(error);
      case Panics(reason, _) => err := Some("store: flush panicked: " + reason);
    }

    /** The flush has come back, or panicked: `p.err` is written. */
    method EndFlush(ghost t: nat, ghost h: nat, p: PendingFlush<D>, ghost answer: Answer, err: Option<string>)
      requires Valid() && s.held.None? && calls == h && answer == flush(h, p.snapshot) && Delivers(answer, err)
      requires Works(t, p, Flushing(h, Reaches(answer)))
      modifies this`s, this`calls, p
      ensures Valid() && Works(t, p, Closing(h)) && Passed(old(s), s, []) && calls == old(calls) + 1
      ensures p.snapshot == old(p.snapshot) && p.err == err
      ensures s == Apply(old(s), FlushEnd(t, if answer.ReturnsNil? then Durable else Failed))
    {
      DrainStepPasses(s, FlushEnd(t, if answer.ReturnsNil? then Durable else Failed));
      p.err := err;
      RecordOutcome(t, h, p, answer);
      calls := calls + 1;
    }

    ghost method RecordOutcome(t: nat, h: nat, p: PendingFlush<D>, answer: Answer)
      requires Reachable(s) && inFlight == s.inFlight && Behind(flush, s, flushes, pending, repr)
      requires Works(t, p, Flushing(h, Reaches(answer))) && answer == flush(h, p.snapshot) && Delivers(answer, p.err)
      modifies this`s
      ensures Reachable(s) && inFlight == s.inFlight && Behind(flush, s, flushes, pending, repr)
      ensures Works(t, p, Closing(h)) && |s.log| == |old(s).log| + 1
      ensures s == Apply(old(s), FlushEnd(t, if answer.ReturnsNil? then Durable else Failed))
    {
      var l := FlushEnd(t, if answer.ReturnsNil? then Durable else Failed);
      ReachableStep(s, l);
      s := Apply(s, l);
    }

    /** `close(p.done)`. */
    method CloseDone(ghost t: nat, ghost h: nat, p: PendingFlush<D>)
      requires Valid() && s.held.None? && Works(t, p, Closing(h))
      modifies this`s, p
      ensures Valid() && p.done && t in s.drainers && s.drainers[t].Top? && Passed(old(s), s, [])
      ensures s == Apply(old(s), Close(t)) && p.snapshot == old(p.snapshot) && p.err == old(p.err)
    {
      DrainStepPasses(s, Close(t));
      ReachableStep(s, Close(t));
      p.done := true;
      s := Apply(s, Close(t));
    }

    /** One round of the loop in `run`, with what is saved between its regions; false
        when it returned. */
    method RunOnce(ghost t: nat, a: Arrivals<D>) returns (again: bool)
      requires Valid() && s.held.None? && t in s.drainers && s.drainers[t].Top?
      modifies this, repr
      ensures Valid() && s.held.None? && Grown() && old(s.log) <= s.log
      ensures again ==> t in s.drainers && s.drainers[t].Top? && s.enqueued == old(s.enqueued) + Saves(a)
      ensures again && Saves(a) == [] ==> old(pending) != null && pending == null
      ensures !again ==> a.first == [] && s.enqueued == old(s.enqueued) && !inFlight && pending == null
      ensures !again ==> calls == old(calls)
      ensures again ==>
        && calls == old(calls) + 1 && old(calls) < |flushes|
        && flushes[old(calls)].done && Delivers(flush(old(calls), flushes[old(calls)].snapshot), flushes[old(calls)].err)
    {
      Arrive(a.first);
      again := TakeAndFlush(t, a);
      assert Saves(a) == a.first + (a.second + (a.third + a.fourth));
    }

    method TakeAndFlush(ghost t: nat, a: Arrivals<D>) returns (again: bool)
      requires Valid() && s.held.None? && t in s.drainers && s.drainers[t].Top?
      modifies this, repr
      ensures Valid() && s.held.None? && Grown() && old(s.log) <= s.log
      ensures again == (old(pending) != null)
      ensures again ==> t in s.drainers && s.drainers[t].Top?
      ensures again ==> s.enqueued == old(s.enqueued) + (a.second + (a.third + a.fourth))
      ensures again ==> (pending == null <==> a.second + (a.third + a.fourth) == [])
      ensures !again ==> s.enqueued == old(s.enqueued) && !inFlight && pending == null
      ensures !again ==> calls == old(calls)
      ensures again ==>
        && calls == old(calls) + 1 && old(calls) < |flushes|
        && flushes[old(calls)].done && Delivers(flush(old(calls), flushes[old(calls)].snapshot), flushes[old(calls)].err)
    {
      ghost var h := if pending == null then 0 else s.pending.value;
      var p := TakePending(t);
      again := p != null;
      if again {
        FlushTaken(t, h, p, a);
      }
    }

    method FlushTaken(ghost t: nat, ghost h: nat, p: PendingFlush<D>, a: Arrivals<D>)
      requires Valid() && s.held.None? && Works(t, p, Flushing(h, false))
      modifies this, repr
      ensures Valid() && Grown() && p.done && t in s.drainers && s.drainers[t].Top?
      ensures Passed(old(s), s, a.second + (a.third + a.fourth))
      ensures h == old(calls) == calls - 1 && Delivers(flush(h, p.snapshot), p.err)
      ensures h < |flushes| && p == flushes[h]
    {
      ArriveDuring(t, p, Flushing(h, false), a.second);
      ghost var arrived := s;
      FlushAndClose(t, h, p, a);
      PassedOn(old(s), arrived, s, a.second, a.third + a.fourth);
    }

    method FlushAndClose(ghost t: nat, ghost h: nat, p: PendingFlush<D>, a: Arrivals<D>)
      requires Valid() && s.held.None? && Works(t, p, Flushing(h, false))
      modifies this, repr
      ensures Valid() && Grown() && p.done && t in s.drainers && s.drainers[t].Top?
      ensures Passed(old(s), s, a.third + a.fourth)
      ensures h == old(calls) == calls - 1 && Delivers(flush(h, p.snapshot), p.err)
      ensures h < |flushes| && p == flushes[h]
    {
      RunFlush(t, h, p, a.third);
      ghost var flushed := s;
      CloseAfter(t, h, p, a.fourth);
      PassedOn(old(s), flushed, s, a.third, a.fourth);
    }

    method CloseAfter(ghost t: nat, ghost h: nat, p: PendingFlush<D>, saves: seq<D>)
      requires Valid() && s.held.None? && Works(t, p, Closing(h))
      modifies this, repr
      ensures Valid() && Grown() && p.done && t in s.drainers && s.drainers[t].Top?
      ensures Passed(old(s), s, saves) && calls == old(calls)
      ensures p.snapshot == old(p.snapshot) && p.err == old(p.err) && h < |flushes| && p == flushes[h]
    {
      ArriveDuring(t, p, Closing(h), saves);
      ghost var arrived := s;
      CloseDone(t, h, p);
      PassedOn(old(s), arrived, s, saves, []);
    }

    /** `run`, whatever is saved meanwhile: the loop ends, with every caller released. */
    method RunDrainer(ghost t: nat, schedule: seq<Arrivals<D>>) returns (ghost rounds: nat)
      requires Valid() && s.held.None? && t in s.drainers && s.drainers[t].Top?
      modifies this, repr
      ensures Valid() && !inFlight && pending == null && Grown() && old(s.log) <= s.log
      ensures rounds <= |schedule| && s.enqueued == old(s.enqueued) + AllSaves(schedule[..rounds])
      ensures calls == |flushes|
      ensures forall h: nat | h < |flushes| :: flushes[h].done && Delivers(flush(h, flushes[h].snapshot), flushes[h].err)
    {
      var again, i := true, 0;
      while again
        invariant Valid() && s.held.None? && Grown() && old(s.log) <= s.log
        invariant i <= |schedule| && s.enqueued == old(s.enqueued) + AllSaves(schedule[..i])
        invariant if again then t in s.drainers && s.drainers[t].Top? else !inFlight && pending == null
        decreases again, |schedule| - i, pending != null
      {
        var a := if i < |schedule| then schedule[i] else Arrivals([], [], [], []);
        again := RunOnce(t, a);
        if again && i < |schedule| {
          assert schedule[..i + 1][..i] == schedule[..i];
          i := i + 1;
        }
      }
      rounds := i;
      EveryHandleAnswered();
    }

    /** Without a drainer nobody waits, and every handle has the answer of its own flush. */
    lemma EveryHandleAnswered()
      requires Valid() && !inFlight
      ensures calls == |flushes|
      ensures forall h: nat | h < |flushes| :: flushes[h].done && Delivers(flush(h, flushes[h].snapshot), flushes[h].err)
    {
      AllFlushed(s);
      SingleDrainer(s);
    }
  }

  /** Without a drainer every handle has been flushed. */
  lemma AllFlushed<D(!new)>(s: State<D>)
    requires Reachable(s) && !s.inFlight
    ensures |s.log| == |s.handles| && forall h | 0 <= h < |s.handles| :: s.handles[h].outcome.Some?
  {
    ReachableInv(s);
    assert s.drainers.Keys == {};
  }

  lemma FlushIsNext<D(!new)>(s: State<D>, t: nat)
    requires Reachable(s) && t in s.drainers && s.drainers[t].Flushing?
    ensures s.drainers[t].handle == |s.log| < |s.handles|
  {
    ReachableInv(s);
  }

  lemma TakenIsNotPending<D(!new)>(s: State<D>, t: nat)
    requires Reachable(s) && t in s.drainers && !s.drainers[t].Top?
    ensures s.drainers[t].handle < |s.handles| && s.pending != Some(s.drainers[t].handle)
  {
    ReachableInv(s);
  }

  lemma EnqueueShape<D(!new)>(s: State<D>)
    requires Reachable(s) && Enabled(s, Step.Enqueue)
    ensures Reachable(Apply(s, Step.Enqueue))
    ensures var s' := Apply(s, Step.Enqueue);
      var h := if s.pending.Some? then s.pending.value else |s.handles|;
      && h == |s'.handles| - 1 && s'.pending == Some(h) && s'.inFlight
      && (s.pending.Some? ==> |s'.handles| == |s.handles|)
      && s'.handles[h] == Handle(|s.enqueued|, None, false)
      && (forall g: nat | g < h :: g < |s.handles| && s'.handles[g] == s.handles[g] && s.handles[g].newest < |s.enqueued|)
      && s'.enqueued == s.enqueued + [s.held.value]
      && |s'.owner| > 0 && s'.owner[|s'.owner| - 1] == h
  {
    ReachableStep(s, Step.Enqueue);
    ReachableInv(s);
    EnqueueKeepsHandles(s);
  }

  /** What is saved before a round of `run` takes the batch, before its flush, during it,
      and before the channel is closed. */
  datatype Arrivals<D> = Arrivals(first: seq<D>, second: seq<D>, third: seq<D>, fourth: seq<D>)

  function Saves<D>(a: Arrivals<D>): seq<D> {
    a.first + a.second + a.third + a.fourth
  }

  function AllSaves<D>(schedule: seq<Arrivals<D>>): seq<D>
    decreases |schedule|
  {
    if schedule == [] then [] else AllSaves(schedule[..|schedule| - 1]) + Saves(schedule[|schedule| - 1])
  }

  /** From `s0` to `s` exactly `saves` were enqueued, and nothing was taken. */
  ghost predicate Passed<D>(s0: State<D>, s: State<D>, saves: seq<D>) {
    && s.held.None? && s.enqueued == s0.enqueued + saves && s0.log <= s.log
    && (s.pending.None? <==> s0.pending.None? && saves == [])
  }

  ghost predicate Arrived<D>(s0: State<D>, s: State<D>, saves: seq<D>) {
    && Passed(s0, s, saves)
    && s.log == s0.log && s.disk == s0.disk
    && (s0.pending.Some? ==> s.pending == s0.pending)
    && (s0.pending.None? && s.pending.Some? ==> |s0.handles| <= s.pending.value)
    && |s0.handles| <= |s.handles|
    && (forall h: nat | h < |s0.handles| && s0.pending != Some(h) :: s.handles[h] == s0.handles[h])
    && (forall t | t in s0.drainers :: t in s.drainers && s.drainers[t] == s0.drainers[t])
  }

  lemma PassedItself<D>(s: State<D>)
    requires s.held.None?
    ensures Passed(s, s, [])
  {
  }

  lemma NothingArrived<D>(s: State<D>)
    requires s.held.None?
    ensures Arrived(s, s, [])
  {
  }

  lemma PassedOn<D>(s0: State<D>, s1: State<D>, s2: State<D>, first: seq<D>, more: seq<D>)
    requires Passed(s0, s1, first) && Passed(s1, s2, more)
    ensures Passed(s0, s2, first + more)
  {
  }

  lemma SaveArrived<D(!new)>(s0: State<D>, s: State<D>, saves: seq<D>, d: D)
    requires Reachable(s) && Arrived(s0, s, saves)
    ensures Enabled(s, Step.Install(d)) && Enabled(Apply(s, Step.Install(d)), Step.Enqueue)
    ensures Arrived(s0, Apply(Apply(s, Step.Install(d)), Step.Enqueue), saves + [d])
  {
    ReachableInv(s);
  }

  lemma DrainStepPasses<D>(s: State<D>, l: Step<D>)
    requires Enabled(s, l) && s.held.None? && (l.Write? || l.FlushEnd? || l.Close?)
    ensures Passed(s, Apply(s, l), [])
  {
  }
}
