/** `DeviceStorage.persist` and its dirty flag (go/storage.go), interleaved with the
    coalescing writer, the drainer, and the saves of other storages. */
module PersistProtocol {
  import opened GoValues
  import opened StoreLayout
  import opened StorageValues
  import W = CoalescingProtocol

  /** Where a `persist` call stands; it is identified by its sequence number. */
  datatype Phase =
    | Snapshotted(values: Values)          // holds persistMu
    | Installed(values: Values)            // holds persistMu and the document's lock
    | Waiting(values: Values, index: nat)  // enqueued as snapshot `index`
    | Refused                              // the encoder failed

  datatype Done = Done(values: Values, index: nat, durable: bool)

  /** `origin` is the document at the start. `finished`, `flips`, `edits`,
      `lastInstalled` and `sources` are history: the persists that returned, the numbers
      used up by schema flips, the values each persist put into the document, which of
      them did so last, and which had done so when each snapshot was enqueued. */
  datatype State = State(
    loc: Location,
    values: Values,
    schemas: seq<Schema>,
    dirty: bool,
    persistSeq: nat,
    writer: W.State<Values>,
    active: map<nat, Phase>,
    finished: map<nat, Done>,
    flips: set<nat>,
    origin: Values,
    edits: map<nat, Values>,
    lastInstalled: nat,
    sources: seq<nat>)

  datatype Step =
    | Change(values: Values, schemas: seq<Schema>)  // any edit that leaves flag and number alone
    | Flip(schemas: seq<Schema>)                    // ChangeSchema turned a key's storable-ness
    | Begin                                         // persist: the locked snapshot
    | Install(number: nat, encodes: bool)           // save: edit the document, encode
    | Enqueue(number: nat)                          // save: enqueue; persistMu is released
    | Finish(number: nat)                           // persist: wait is over
    | OtherInstall(loc: Location, values: Values, encodes: bool)
    | OtherEnqueue
    | Drain(step: W.Step<Values>)

  function Init(loc: Location, doc: Values): State {
    State(loc, LoadedValues(doc, loc), [], false, 0, W.Init(doc), map[], map[], {}, doc, map[], 0, [])
  }

  predicate HoldsPersistMu(p: Phase) {
    p.Snapshotted? || p.Installed?
  }

  predicate WaitIsOver(w: W.State<Values>, i: nat) {
    && i < |w.owner| && w.owner[i] < |w.handles|
    && w.handles[w.owner[i]].done && w.handles[w.owner[i]].outcome.Some?
  }

  function WriterStep(s: State, l: Step): Option<W.Step<Values>>
    requires l.Install? ==> l.number in s.active && s.active[l.number].Snapshotted?
  {
    match l
    case Install(q, encodes) =>
      var doc := Save(s.writer.doc, s.loc, s.active[q].values);
      Some(if encodes then W.Install(doc) else W.InstallUnencodable(doc))
    case OtherInstall(loc, values, encodes) =>
      var doc := Save(s.writer.doc, loc, values);
      Some(if encodes then W.Install(doc) else W.InstallUnencodable(doc))
    case Enqueue(_) => Some(W.Enqueue)
    case OtherEnqueue => Some(W.Enqueue)
    case Drain(step) => Some(step)
    case _ => None
  }

  predicate Enabled(s: State, l: Step) {
    && (match l
        case Begin => forall q | q in s.active :: !HoldsPersistMu(s.active[q])
        case Install(q, _) => q in s.active && s.active[q].Snapshotted?
        case Enqueue(q) => q in s.active && s.active[q].Installed?
        case Finish(q) =>
          q in s.active && (s.active[q].Refused? || (s.active[q].Waiting? && WaitIsOver(s.writer, s.active[q].index)))
        case OtherInstall(loc, _, _) => loc != s.loc
        case OtherEnqueue => forall q | q in s.active :: !s.active[q].Installed?
        case Drain(step) => W.IsDrainStep(step)
        case _ => true)
    && (WriterStep(s, l).Some? ==> W.Enabled(s.writer, WriterStep(s, l).value))
  }

  /** What `wait` reports for a finished persist. */
  function ResultOf(s: State, q: nat): Done
    requires Enabled(s, Finish(q))
  {
    match s.active[q]
    case Waiting(values, i) => Done(values, i, s.writer.handles[s.writer.owner[i]].outcome == Some(W.Durable))
    case _ => Done(map[], 0, false)
  }

  function Apply(s: State, l: Step): State
    requires Enabled(s, l)
  {
    var w := if WriterStep(s, l).Some? then W.Apply(s.writer, WriterStep(s, l).value) else s.writer;
    match l
    case Change(values, schemas) => s.(values := values, schemas := schemas)
    case Flip(schemas) =>
      s.(schemas := schemas, dirty := true, persistSeq := s.persistSeq + 1, flips := s.flips + {s.persistSeq + 1})
    case Begin =>
      s.(persistSeq := s.persistSeq + 1,
         active := s.active[s.persistSeq + 1 := Snapshotted(PersistedPart(s.schemas, s.values))])
    case Install(q, encodes) =>
      var values := s.active[q].values;
      s.(writer := w, active := s.active[q := if encodes then Installed(values) else Refused],
         edits := s.edits[q := values], lastInstalled := q)
    case Enqueue(q) =>
      s.(writer := w, active := s.active[q := Waiting(s.active[q].values, |s.writer.enqueued|)],
         sources := s.sources + [s.lastInstalled])
    case OtherEnqueue => s.(writer := w, sources := s.sources + [s.lastInstalled])
    case Finish(q) =>
      s.(dirty := if q == s.persistSeq then !ResultOf(s, q).durable else s.dirty,
         active := s.active - {q},
         finished := s.finished[q := ResultOf(s, q)])
    case _ => s.(writer := w)
  }

  // ---- the invariant ----

  /** Every number up to `persistSeq` belongs to one persist or one flip. */
  ghost predicate Numbered(s: State) {
    && (forall q | q in s.active || q in s.finished || q in s.flips :: 0 < q <= s.persistSeq)
    && (forall q: nat | 0 < q <= s.persistSeq :: q in s.active || q in s.finished || q in s.flips)
    && (forall q | q in s.flips :: q !in s.active && q !in s.finished)
    && (forall q | q in s.active :: q !in s.finished)
  }

  /** persistMu keeps the document edits in the order of the snapshots. */
  ghost predicate Ordered(s: State) {
    && s.lastInstalled <= s.persistSeq
    && (forall q, r | q in s.active && r in s.active && HoldsPersistMu(s.active[q]) && HoldsPersistMu(s.active[r]) :: q == r)
    && (forall q | q in s.active ::
          match s.active[q]
          case Snapshotted(_) => s.lastInstalled < q
          case Installed(_) => s.lastInstalled == q
          case _ => q <= s.lastInstalled)
    && (forall q | q in s.finished :: q <= s.lastInstalled)
  }

  ghost predicate Flagged(s: State) {
    && (s.persistSeq in s.flips ==> s.dirty)
    && (s.persistSeq in s.finished ==> (s.dirty <==> !s.finished[s.persistSeq].durable))
    && (!s.dirty ==> forall f | f in s.flips :: ClearedSince(s, f))
  }

  /** A persist whose snapshot was taken after number `f` has made it to the disk. */
  ghost predicate ClearedSince(s: State, f: nat) {
    exists q :: q in s.finished && f < q && s.finished[q].durable
  }

  /** What a load of the location answers once `values` was saved there. */
  function AsSaved(values: Values): Option<Values> {
    if values == map[] then None else Some(values)
  }

  /** What the location reads as once persist `n` was the last to edit the document. */
  function Section(s: State, n: nat): Option<Values> {
    if n in s.edits then AsSaved(s.edits[n]) else ReadLocation(s.origin, s.loc)
  }

  /** Every enqueued document holds, at this location, what the last persist before it put there. */
  ghost predicate SourcesAgree(s: State) {
    && |s.sources| == |s.writer.enqueued|
    && (forall j | 0 <= j < |s.sources| :: s.sources[j] <= s.lastInstalled)
    && (forall i, j | 0 <= i <= j < |s.sources| :: s.sources[i] <= s.sources[j])
    && (forall j | 0 <= j < |s.sources| :: ReadLocation(s.writer.enqueued[j], s.loc) == Section(s, s.sources[j]))
    && ReadLocation(s.writer.doc, s.loc) == Section(s, s.lastInstalled)
    && (s.writer.held.Some? ==> s.writer.held.value == s.writer.doc)
    && (forall n | n in s.edits :: 0 < n <= s.lastInstalled)
    && (s.lastInstalled > 0 ==> s.lastInstalled in s.edits)
    && (forall j | 0 <= j < |s.sources| && s.sources[j] > 0 :: s.sources[j] in s.edits)
  }

  /** Snapshot `i` is the one persist `q` enqueued, with these values. */
  ghost predicate EnqueuedBy(s: State, q: nat, values: Values, i: nat) {
    && i < |s.sources| && s.sources[i] == q && q in s.edits && s.edits[q] == values
    && forall j | 0 <= j < i :: s.sources[j] < q
  }

  /** What a persist knows of its own snapshot. */
  ghost predicate PhasesAgree(s: State) {
    && (forall q | q in s.active && s.active[q].Installed? ::
          && s.writer.held.Some? && q in s.edits && s.edits[q] == s.active[q].values
          && forall j | 0 <= j < |s.sources| :: s.sources[j] < q)
    && (forall q | q in s.active && s.active[q].Waiting? :: EnqueuedBy(s, q, s.active[q].values, s.active[q].index))
    && (forall q | q in s.finished && s.finished[q].durable ::
          && W.Acknowledged(s.writer, s.finished[q].index)
          && EnqueuedBy(s, q, s.finished[q].values, s.finished[q].index))
  }

  ghost predicate Inv(s: State) {
    Numbered(s) && Ordered(s) && Flagged(s) && W.Reachable(s.writer) && SourcesAgree(s) && PhasesAgree(s)
  }

  lemma InitInv(loc: Location, doc: Values)
    ensures Inv(Init(loc, doc))
  {
    W.InitReachable(doc);
  }

  lemma StepNumbered(s: State, l: Step)
    requires Numbered(s) && Enabled(s, l)
    ensures Numbered(Apply(s, l))
  {
  }

  lemma StepOrdered(s: State, l: Step)
    requires Ordered(s) && Numbered(s) && Enabled(s, l)
    ensures Ordered(Apply(s, l))
  {
  }

  lemma StepFlagged(s: State, l: Step)
    requires Flagged(s) && Numbered(s) && Enabled(s, l)
    ensures Flagged(Apply(s, l))
  {
    var s' := Apply(s, l);
    if !s'.dirty {
      forall f | f in s'.flips ensures ClearedSince(s', f) {
        if !s.dirty {
          var q :| q in s.finished && f < q && s.finished[q].durable;
          assert q in s'.finished && s'.finished[q].durable;
        } else {
          assert l.Finish? && l.number in s'.finished && s'.finished[l.number].durable;
        }
      }
    }
  }

  /** A step of the writer that edits no document keeps every enqueued snapshot and
      every acknowledgement. */
  lemma WriterStepKeeps(w: W.State<Values>, l: W.Step<Values>)
    requires W.Reachable(w) && W.Enabled(w, l)
    ensures W.Reachable(W.Apply(w, l))
    ensures w.enqueued <= W.Apply(w, l).enqueued
    ensures forall i: nat | W.Acknowledged(w, i) :: W.Acknowledged(W.Apply(w, l), i)
    ensures W.IsDrainStep(l) ==> W.Apply(w, l).enqueued == w.enqueued
  {
    W.ReachableStep(w, l);
    W.ReachableInv(w);
    W.StepLater(w, l);
  }

  lemma InstallSources(s: State, l: Step)
    requires SourcesAgree(s) && Ordered(s) && Enabled(s, l) && l.Install?
    ensures SourcesAgree(Apply(s, l))
  {
    SaveReads(s.writer.doc, s.loc, s.active[l.number].values, s.loc);
    SourcesAfterEdit(s, Apply(s, l), l.number, s.active[l.number].values);
  }

  /** Persist `q` has edited the document. */
  lemma SourcesAfterEdit(s: State, s': State, q: nat, values: Values)
    requires SourcesAgree(s) && s.lastInstalled < q
    requires s'.loc == s.loc && s'.origin == s.origin && s'.sources == s.sources
    requires s'.edits == s.edits[q := values] && s'.lastInstalled == q
    requires s'.writer.enqueued == s.writer.enqueued
    requires s'.writer.held.Some? ==> s'.writer.held.value == s'.writer.doc
    requires ReadLocation(s'.writer.doc, s.loc) == AsSaved(values)
    ensures SourcesAgree(s')
  {
    forall n: nat | n <= s.lastInstalled ensures Section(s', n) == Section(s, n) {
    }
  }

  lemma OtherInstallSources(s: State, l: Step)
    requires SourcesAgree(s) && Enabled(s, l) && l.OtherInstall?
    ensures SourcesAgree(Apply(s, l))
  {
    SaveReads(s.writer.doc, l.loc, l.values, s.loc);
  }

  lemma EnqueueSources(s: State, l: Step)
    requires SourcesAgree(s) && Enabled(s, l) && (l.Enqueue? || l.OtherEnqueue?)
    ensures SourcesAgree(Apply(s, l))
  {
    assert Apply(s, l).writer.enqueued == s.writer.enqueued + [s.writer.held.value];
  }

  lemma DrainSources(s: State, l: Step)
    requires SourcesAgree(s) && Enabled(s, l) && l.Drain?
    ensures SourcesAgree(Apply(s, l))
  {
    var w := W.Apply(s.writer, l.step);
    assert w.doc == s.writer.doc && w.held == s.writer.held && w.enqueued == s.writer.enqueued;
  }

  lemma StepSources(s: State, l: Step)
    requires SourcesAgree(s) && Ordered(s) && Enabled(s, l)
    ensures SourcesAgree(Apply(s, l))
  {
    match l
    case Install(_, _) => InstallSources(s, l);
    case OtherInstall(_, _, _) => OtherInstallSources(s, l);
    case Enqueue(_) => EnqueueSources(s, l);
    case OtherEnqueue => EnqueueSources(s, l);
    case Drain(_) => DrainSources(s, l);
    case _ => SameSources(s, l);
  }

  lemma SameSources(s: State, l: Step)
    requires SourcesAgree(s) && Enabled(s, l) && (l.Change? || l.Flip? || l.Begin? || l.Finish?)
    ensures SourcesAgree(Apply(s, l))
  {
  }

  /** A persist's snapshot stays where it is while the histories grow. */
  lemma EnqueuedByStays(s: State, s': State, q: nat, values: Values, i: nat)
    requires EnqueuedBy(s, q, values, i) && s.sources <= s'.sources
    requires q in s'.edits && s'.edits[q] == s.edits[q]
    ensures EnqueuedBy(s', q, values, i)
  {
    assert forall j | 0 <= j <= i :: s'.sources[j] == s.sources[j];
  }

  lemma EditsStay(s: State, l: Step)
    requires SourcesAgree(s) && Ordered(s) && Enabled(s, l)
    ensures s.sources <= Apply(s, l).sources
    ensures forall q | q in s.edits :: q in Apply(s, l).edits && Apply(s, l).edits[q] == s.edits[q]
  {
  }

  lemma InstalledPhase(s: State, l: Step, q: nat)
    requires SourcesAgree(s) && PhasesAgree(s) && Ordered(s) && Enabled(s, l)
    requires q in Apply(s, l).active && Apply(s, l).active[q].Installed?
    ensures var s', p := Apply(s, l), Apply(s, l).active[q];
      && s'.writer.held.Some? && q in s'.edits && s'.edits[q] == p.values
      && forall j | 0 <= j < |s'.sources| :: s'.sources[j] < q
  {
    EditsStay(s, l);
  }

  lemma WaitingPhase(s: State, l: Step, q: nat)
    requires SourcesAgree(s) && PhasesAgree(s) && Ordered(s) && Enabled(s, l)
    requires q in Apply(s, l).active && Apply(s, l).active[q].Waiting?
    ensures EnqueuedBy(Apply(s, l), q, Apply(s, l).active[q].values, Apply(s, l).active[q].index)
  {
    EditsStay(s, l);
    if q in s.active && s.active[q].Waiting? {
      EnqueuedByStays(s, Apply(s, l), q, s.active[q].values, s.active[q].index);
    } else {
      assert l == Enqueue(q) && s.lastInstalled == q;
    }
  }

  lemma FinishedPhases(s: State, l: Step, q: nat)
    requires SourcesAgree(s) && PhasesAgree(s) && Ordered(s) && Numbered(s) && W.Reachable(s.writer) && Enabled(s, l)
    requires q in Apply(s, l).finished && Apply(s, l).finished[q].durable
    ensures var s', d := Apply(s, l), Apply(s, l).finished[q];
      W.Acknowledged(s'.writer, d.index) && EnqueuedBy(s', q, d.values, d.index)
  {
    EditsStay(s, l);
    if WriterStep(s, l).Some? {
      WriterStepKeeps(s.writer, WriterStep(s, l).value);
    }
    if q in s.finished && !(l.Finish? && l.number == q) {
      EnqueuedByStays(s, Apply(s, l), q, s.finished[q].values, s.finished[q].index);
    }
  }

  lemma StepPhases(s: State, l: Step)
    requires SourcesAgree(s) && PhasesAgree(s) && Ordered(s) && Numbered(s) && W.Reachable(s.writer) && Enabled(s, l)
    ensures PhasesAgree(Apply(s, l))
  {
    var s' := Apply(s, l);
    forall q | q in s'.active && s'.active[q].Installed?
      ensures s'.writer.held.Some? && q in s'.edits && s'.edits[q] == s'.active[q].values
      ensures forall j | 0 <= j < |s'.sources| :: s'.sources[j] < q
    {
      InstalledPhase(s, l, q);
    }
    forall q | q in s'.active && s'.active[q].Waiting?
      ensures EnqueuedBy(s', q, s'.active[q].values, s'.active[q].index)
    {
      WaitingPhase(s, l, q);
    }
    forall q | q in s'.finished && s'.finished[q].durable
      ensures W.Acknowledged(s'.writer, s'.finished[q].index)
      ensures EnqueuedBy(s', q, s'.finished[q].values, s'.finished[q].index)
    {
      FinishedPhases(s, l, q);
    }
  }

  lemma StepInv(s: State, l: Step)
    requires Inv(s) && Enabled(s, l)
    ensures Inv(Apply(s, l))
  {
    StepNumbered(s, l);
    StepOrdered(s, l);
    StepFlagged(s, l);
    StepSources(s, l);
    StepPhases(s, l);
    if WriterStep(s, l).Some? {
      WriterStepKeeps(s.writer, WriterStep(s, l).value);
    }
  }

  // ---- whole runs ----

  ghost predicate CanRun(s: State, ls: seq<Step>)
    decreases |ls|
  {
    ls == [] || (Enabled(s, ls[0]) && CanRun(Apply(s, ls[0]), ls[1..]))
  }

  ghost function Run(s: State, ls: seq<Step>): State
    requires CanRun(s, ls)
    decreases |ls|
  {
    if ls == [] then s else Run(Apply(s, ls[0]), ls[1..])
  }

  ghost predicate Reachable(s: State) {
    exists doc, ls :: CanRun(Init(s.loc, doc), ls) && s == Run(Init(s.loc, doc), ls)
  }

  lemma {:induction false} RunInv(s: State, ls: seq<Step>)
    requires Inv(s) && CanRun(s, ls)
    ensures Inv(Run(s, ls)) && Run(s, ls).loc == s.loc
    decreases |ls|
  {
    if ls != [] {
      StepInv(s, ls[0]);
      RunInv(Apply(s, ls[0]), ls[1..]);
    }
  }

  lemma ReachableInv(s: State)
    requires Reachable(s)
    ensures Inv(s)
  {
    var doc, ls :| CanRun(Init(s.loc, doc), ls) && s == Run(Init(s.loc, doc), ls);
    InitInv(s.loc, doc);
    RunInv(Init(s.loc, doc), ls);
  }

  lemma {:induction false} RunSnoc(s: State, ls: seq<Step>, l: Step)
    requires CanRun(s, ls) && Enabled(Run(s, ls), l)
    ensures CanRun(s, ls + [l]) && Run(s, ls + [l]) == Apply(Run(s, ls), l)
    decreases |ls|
  {
    if ls == [] {
      assert CanRun(Apply(s, l), []);
      assert ([] + [l])[1..] == [];
    } else {
      RunSnoc(Apply(s, ls[0]), ls[1..], l);
      assert (ls + [l])[1..] == ls[1..] + [l];
    }
  }

  lemma ReachableStep(s: State, l: Step)
    requires Reachable(s) && Enabled(s, l)
    ensures Reachable(Apply(s, l))
  {
    var doc, ls :| CanRun(Init(s.loc, doc), ls) && s == Run(Init(s.loc, doc), ls);
    RunSnoc(Init(s.loc, doc), ls, l);
    assert Apply(s, l).loc == s.loc;
  }

  lemma InitReachable(loc: Location, doc: Values)
    ensures Reachable(Init(loc, doc))
  {
    assert CanRun(Init(loc, doc), []);
    assert Run(Init(loc, doc), []) == Init(loc, doc);
  }

  // ---- what the store holds ----

  /** The document a reopened store gives: the flushed one, or the one it was opened with. */
  function StoreDoc(s: State): Values {
    if s.writer.disk.Some? && s.writer.disk.value < |s.writer.enqueued| then s.writer.enqueued[s.writer.disk.value]
    else s.origin
  }

  /** What a storage opened on it would load. */
  function Reload(s: State): Values {
    LoadedValues(StoreDoc(s), s.loc)
  }

  /** The persist whose values those are; 0 before the first. */
  function SourceInStore(s: State): nat {
    if s.writer.disk.Some? && s.writer.disk.value < |s.sources| then s.sources[s.writer.disk.value] else 0
  }

  function ValuesOf(s: State, n: nat): Values {
    if n in s.edits then s.edits[n] else LoadedValues(s.origin, s.loc)
  }

  lemma DiskIsEnqueued(s: State)
    requires W.Reachable(s.writer) && SourcesAgree(s)
    ensures s.writer.disk.Some? ==> s.writer.disk.value < |s.writer.enqueued| == |s.sources|
    ensures forall i: nat | W.Acknowledged(s.writer, i) :: W.OnDisk(s.writer.disk, i)
  {
    assert W.CanRun(s.writer, []);
    W.DurablePrefix(s.writer, [], s.writer);
  }

  /** In every reachable state, whatever is under way: the store gives exactly what the
      last persist enqueued no later than the flushed document put there. */
  lemma StoreHoldsItsSource(s: State)
    requires Reachable(s)
    ensures Reload(s) == ValuesOf(s, SourceInStore(s))
  {
    ReachableSources(s);
    DiskIsEnqueued(s);
    SourceReads(s, SourceInStore(s));
  }

  lemma ReachableSources(s: State)
    requires Reachable(s)
    ensures W.Reachable(s.writer) && SourcesAgree(s) && PhasesAgree(s)
  {
    ReachableInv(s);
  }

  lemma SourceReads(s: State, n: nat)
    ensures (match Section(s, n) case None => map[] case Some(values) => values) == ValuesOf(s, n)
  {
  }

  /** A persist that returned nil is what the store gives from then on, or a later one is. */
  lemma AcknowledgedPersistStays(s: State, q: nat)
    requires Reachable(s) && q in s.finished && s.finished[q].durable
    ensures q in s.edits && s.edits[q] == s.finished[q].values
    ensures q <= SourceInStore(s) && SourceInStore(s) in s.edits && Reload(s) == s.edits[SourceInStore(s)]
  {
    ReachableSources(s);
    DiskIsEnqueued(s);
    StoreHoldsItsSource(s);
    var i, d := s.finished[q].index, s.writer.disk.value;
    assert s.sources[i] <= s.sources[d];
    SourceIsAnEdit(s, d);
  }

  /** A snapshot enqueued after some persist holds the values of one. */
  lemma SourceIsAnEdit(s: State, j: nat)
    requires SourcesAgree(s) && j < |s.sources| && s.sources[j] > 0
    ensures s.sources[j] in s.edits
  {
  }

  // ---- the dirty flag ----

  /** With no persist under way, the flag is down exactly when the highest number
      belongs to a persist that succeeded; then the store holds that persist's
      snapshot at this location, whatever the other storages saved since. */
  lemma CleanMeansDurable(s: State)
    requires Reachable(s) && s.active == map[] && s.persistSeq > 0
    ensures !s.dirty <==> s.persistSeq in s.finished && s.finished[s.persistSeq].durable
    ensures !s.dirty ==> Reload(s) == s.finished[s.persistSeq].values
  {
    FlagWhenIdle(s);
    if !s.dirty {
      AcknowledgedPersistStays(s, s.persistSeq);
      SourceIsNoLater(s);
    }
  }

  lemma FlagWhenIdle(s: State)
    requires Reachable(s) && s.active == map[] && s.persistSeq > 0
    ensures !s.dirty <==> s.persistSeq in s.finished && s.finished[s.persistSeq].durable
  {
    ReachableInv(s);
  }

  lemma SourceIsNoLater(s: State)
    requires Reachable(s)
    ensures SourceInStore(s) <= s.lastInstalled <= s.persistSeq
  {
    ReachableInv(s);
  }

  /** The values as the last persist took them, as they were opened before the first. */
  function LastTaken(s: State): Values {
    if s.persistSeq in s.finished then s.finished[s.persistSeq].values else LoadedValues(s.origin, s.loc)
  }

  /** When an unchanged value is already durable: with a clean flag and no persist under
      way the store holds what is to be persisted now if and only if that is what the
      last persist took, or the store was opened with before the first. */
  lemma CleanIsDurableIff(s: State)
    requires Reachable(s) && s.active == map[] && !s.dirty
    ensures Reload(s) == LastTaken(s)
    ensures Reload(s) == PersistedPart(s.schemas, s.values) <==> PersistedPart(s.schemas, s.values) == LastTaken(s)
  {
    if s.persistSeq > 0 {
      CleanMeansDurable(s);
    } else {
      StoreHoldsItsSource(s);
      SourceIsNoLater(s);
      NoPersistNoEdit(s);
    }
  }

  lemma NoPersistNoEdit(s: State)
    requires Reachable(s) && s.persistSeq == 0
    ensures 0 !in s.edits && s.finished == map[]
  {
    ReachableInv(s);
  }

  /** While the newest persist waits, the store holds its snapshot from the moment on at
      which the flushed document is its own or a later one, and not before. */
  lemma InFlightIsDurableIff(s: State)
    requires Reachable(s) && s.persistSeq in s.active && s.active[s.persistSeq].Waiting?
    ensures SourceInStore(s) == s.persistSeq <==> W.OnDisk(s.writer.disk, s.active[s.persistSeq].index)
    ensures SourceInStore(s) == s.persistSeq ==> Reload(s) == s.active[s.persistSeq].values
    ensures SourceInStore(s) != s.persistSeq ==> SourceInStore(s) < s.persistSeq && Reload(s) == ValuesOf(s, SourceInStore(s))
  {
    ReachableSources(s);
    DiskIsEnqueued(s);
    StoreHoldsItsSource(s);
    SourceIsNoLater(s);
  }

  /** Values that come into memory without a persist, such as defaults, leave the flag
      alone: from any clean and idle state a key that was not in the store is still not
      in it, and setting it to what it is would skip the write. */
  lemma DefaultsAreNotDurable(s: State, schemas: seq<Schema>, key: string)
    requires Reachable(s) && s.active == map[] && !s.dirty
    requires key in DefaultsOf(schemas) && Persists(schemas, key) && key !in Reload(s)
    ensures var s' := Apply(s, Change(MergeEntries(DefaultsOf(schemas), s.values), schemas));
      && Reachable(s') && s'.active == map[] && !s'.dirty && s'.persistSeq == s.persistSeq
      && key in PersistedPart(s'.schemas, s'.values) && key !in Reload(s')
  {
    ReachableStep(s, Change(MergeEntries(DefaultsOf(schemas), s.values), schemas));
  }

  /** The reverse: schemas that no longer persist a key leave it in the store, again
      under a clean flag. */
  lemma DroppedKeysStayInTheStore(s: State, schemas: seq<Schema>, key: string)
    requires Reachable(s) && s.active == map[] && !s.dirty
    requires key in Reload(s) && !Persists(schemas, key)
    ensures var s' := Apply(s, Change(MergeEntries(DefaultsOf(schemas), s.values), schemas));
      && Reachable(s') && s'.active == map[] && !s'.dirty && s'.persistSeq == s.persistSeq
      && key !in PersistedPart(s'.schemas, s'.values) && key in Reload(s')
  {
    ReachableStep(s, Change(MergeEntries(DefaultsOf(schemas), s.values), schemas));
  }

  /** Only the persist with the highest number ever lowers the flag, and only on success. */
  lemma OnlyNewestClears(s: State, l: Step)
    requires Reachable(s) && Enabled(s, l) && s.dirty && !Apply(s, l).dirty
    ensures l.Finish? && l.number == s.persistSeq && ResultOf(s, l.number).durable
    ensures forall f | f in s.flips :: f < l.number
  {
    ReachableInv(s);
    NewestIsNoFlip(s, s.persistSeq);
  }

  lemma NewestIsNoFlip(s: State, q: nat)
    requires Numbered(s)
    ensures forall f | f in s.flips :: f <= s.persistSeq && (q in s.active ==> f != q)
  {
  }

  lemma StepKeepsHistory(s: State, l: Step)
    requires Numbered(s) && Enabled(s, l)
    ensures s.flips <= Apply(s, l).flips
    ensures forall q | q in s.finished :: q in Apply(s, l).finished && Apply(s, l).finished[q] == s.finished[q]
  {
  }

  lemma {:induction false} FlipsAndResultsStay(s: State, ls: seq<Step>)
    requires Inv(s) && CanRun(s, ls)
    ensures s.flips <= Run(s, ls).flips
    ensures forall q | q in s.finished :: q in Run(s, ls).finished && Run(s, ls).finished[q] == s.finished[q]
    decreases |ls|
  {
    if ls != [] {
      StepInv(s, ls[0]);
      StepKeepsHistory(s, ls[0]);
      FlipsAndResultsStay(Apply(s, ls[0]), ls[1..]);
    }
  }

  /** A flag raised by a flip stays up, through any interleaving, until a persist
      that took its snapshot after the flip has made it durable. */
  lemma FlipOutlivesStalePersists(s: State, schemas: seq<Schema>, ls: seq<Step>)
    requires Reachable(s) && CanRun(Apply(s, Flip(schemas)), ls)
    ensures var f, s' := s.persistSeq + 1, Run(Apply(s, Flip(schemas)), ls);
      s'.dirty || exists q :: q in s'.finished && f < q && s'.finished[q].durable && q !in s.active && q !in s.finished
  {
    var s1, s' := Apply(s, Flip(schemas)), Run(Apply(s, Flip(schemas)), ls);
    ReachableInv(s);
    StepInv(s, Flip(schemas));
    RunInv(s1, ls);
    FlipsAndResultsStay(s1, ls);
    if !s'.dirty {
      assert s.persistSeq + 1 in s'.flips;
      assert ClearedSince(s', s.persistSeq + 1);
    }
  }
}

/** The methods of `DeviceStorage`, one per locked region: what each does to the
    values, the schemas and the flag, and which step of the protocol it is. */
module DeviceStorageObjects {
  import opened GoValues
  import opened StoreLayout
  import opened StoreEnvelope
  import opened StorageValues
  import opened PersistProtocol
  import opened SchemaEdits
  import DeepEquality

  /** Sets or deletes the key, and compares with what was there. */
  method Put(values: Values, key: string, v: Val) returns (out: Values, same: bool)
    ensures out == if v.Nil? then values - {key} else values[key := v]
    ensures same <==> (key in out <==> key in values) &&
                      (key in values && key in out ==> DeepEquality.Equal(values[key], out[key], false))
  {
    var existed, oldValue := key in values, Get(values, key);
    out := if v.Nil? then values - {key} else values[key := v];
    same := if v.Nil? then !existed else existed && DeepEqualLoose(oldValue, v);
    LooseIsOrderedEqual(oldValue, v);
  }

  /** `SetValue` on the fields it reads and writes. */
  method ValueSet(schemas: seq<Schema>, values: Values, dirty: bool, key: string, value: Val)
    returns (rejected: bool, out: Values, shouldPersist: bool)
    ensures rejected <==> !Acceptable(value)
    ensures rejected || FindSchema(schemas, key).None? ==> out == values && !shouldPersist
    ensures !rejected && FindSchema(schemas, key).Some? ==>
      var schema := FindSchema(schemas, key).value;
      && (!value.Nil? ==> key in out && Canonical(out[key]) && SameLogical(value, out[key]))
      && (value.Nil? && !schema.defaultValue.Nil? ==>
            key in out && Canonical(out[key]) && SameLogical(schema.defaultValue, out[key]))
      && (value.Nil? && schema.defaultValue.Nil? ==> key !in out)
      && out - {key} == values - {key}
      && (shouldPersist <==>
            && schema.store == Some(true) && !schema.fieldType.ButtonField? && !schema.fieldType.SubmitField?
            && (dirty || (key in out) != (key in values)
                || (key in out && !DeepEquality.Equal(values[key], out[key], false))))
  {
    WalksIffAcceptable(value);
    if !Walks(value, 0) {
      return true, values, false;
    }
    var v := Normalize(value);
    NormalizeIsCanonical(value);
    var index := FindSchemaByKey(schemas, key);
    if index.None? {
      return false, values, false;
    }
    var schema := schemas[index.value];
    if v.Nil? && !schema.defaultValue.Nil? {
      v := Normalize(schema.defaultValue);
      NormalizeIsCanonical(schema.defaultValue);
    }
    var same: bool;
    out, same := Put(values, key, v);
    rejected, shouldPersist := false, Storable(schema) && (!same || dirty);
  }

  /** The keys of `config` hold its values in canonical form, a map merged into a map;
      every other key is as before. */
  ghost predicate ConfigTaken(before: Values, config: Values, after: Values) {
    && after.Keys == before.Keys + config.Keys
    && (forall k | k in before && k !in config :: after[k] == before[k])
    && (forall k | k in config && !(k in before && before[k].Map? && config[k].Map?) ::
          Canonical(after[k]) && SameLogical(config[k], after[k]))
  }

  lemma ConfigIsTaken(before: Values, config: Values)
    ensures ConfigTaken(before, config, MergeEntries(before, NormalizeValues(config)))
  {
    var after := MergeEntries(before, NormalizeValues(config));
    forall k | k in config
      ensures !(k in before && before[k].Map? && config[k].Map?) ==> Canonical(after[k]) && SameLogical(config[k], after[k])
    {
      NormalizeIsCanonical(config[k]);
      assert after[k] == if k in before then Merge(before[k], Normalize(config[k])) else Normalize(config[k]);
    }
  }

  /** Whose callbacks a `SetConfig` fires: keys whose schema has one and is no submit
      field, and whose value differs between `before` and `after`. */
  ghost predicate Notifies(schemas: seq<Schema>, before: Values, after: Values, key: string)
    requires key in after
  {
    var schema := FindSchema(schemas, key);
    && schema.Some? && !schema.value.fieldType.SubmitField? && schema.value.hasOnSet
    && !DeepEquality.Equal(Get(before, key), after[key], false)
  }

  method ChangedKeys(schemas: seq<Schema>, config: Values, before: Values, after: Values) returns (changed: set<string>)
    requires config.Keys <= after.Keys
    ensures changed == set k | k in config && Notifies(schemas, before, after, k)
  {
    changed := {};
    var keys := config.Keys;
    while keys != {}
      invariant keys <= config.Keys
      invariant changed == set k | k in config.Keys - keys && Notifies(schemas, before, after, k)
      decreases keys
    {
      var k :| k in keys;
      keys := keys - {k};
      LooseIsOrderedEqual(Get(before, k), after[k]);
      if !DeepEqualLoose(Get(before, k), after[k]) {
        var index := FindSchemaByKey(schemas, k);
        if index.Some? && !schemas[index.value].fieldType.SubmitField? && schemas[index.value].hasOnSet {
          changed := changed + {k};
        }
      }
    }
  }

  class DeviceStorage {
    var schemas: seq<Schema>
    var values: Values
    var dirty: bool
    var persistSeq: nat
    ghost var s: State

    ghost predicate Valid()
      reads this
    {
      Reachable(s) && schemas == s.schemas && values == s.values && dirty == s.dirty && persistSeq == s.persistSeq
    }

    constructor (loc: Location, doc: Values)
      ensures Valid() && s == Init(loc, doc) && schemas == [] && !dirty && persistSeq == 0
      ensures values == if ReadLocation(doc, loc).Some? then ReadLocation(doc, loc).value else map[]
    {
      schemas, values, dirty, persistSeq := [], LoadedValues(doc, loc), false, 0;
      s := Init(loc, doc);
      InitReachable(loc, doc);
    }

    /** `persist` up to the unlock of `mu`. */
    method PersistBegin() returns (snapshot: Values, number: nat)
      requires Valid() && Enabled(s, Begin)
      modifies this
      ensures Valid() && s == Apply(old(s), Begin)
      ensures number == persistSeq == old(persistSeq) + 1
      ensures snapshot == PersistedPart(schemas, values)
      ensures forall k :: k in snapshot <==> k in values && Persists(schemas, k)
      ensures forall k | k in snapshot :: snapshot[k] == values[k]
      ensures number in s.active && s.active[number] == Snapshotted(snapshot)
      ensures schemas == old(schemas) && values == old(values) && dirty == old(dirty)
    {
      ReachableStep(s, Begin);
      snapshot := PersistedValues(schemas, values);
      persistSeq := persistSeq + 1;
      number := persistSeq;
      s := Apply(s, Begin);
    }

    /** `persist` after the wait: a newer snapshot supersedes this one. */
    method PersistEnd(number: nat, failed: bool)
      requires Valid() && Enabled(s, Finish(number)) && failed == !ResultOf(s, number).durable
      modifies this
      ensures Valid() && s == Apply(old(s), Finish(number))
      ensures dirty == if number == persistSeq then failed else old(dirty)
      ensures schemas == old(schemas) && values == old(values) && persistSeq == old(persistSeq)
    {
      ReachableStep(s, Finish(number));
      if number == persistSeq {
        dirty := failed;
      }
      s := Apply(s, Finish(number));
    }

    ghost method Record(l: Step)
      requires Reachable(s) && Enabled(s, l)
      modifies this`s
      ensures Reachable(s) && s == Apply(old(s), l)
    {
      ReachableStep(s, l);
      s := Apply(s, l);
    }

    /** The fields were edited in a way that leaves flag and number alone. */
    ghost method RecordChange()
      requires Reachable(s) && dirty == s.dirty && persistSeq == s.persistSeq
      modifies this`s
      ensures Valid() && s == Apply(old(s), Change(values, schemas))
      ensures s.active == old(s).active && Reload(s) == Reload(old(s))
    {
      ReachableStep(s, Change(values, schemas));
      s := Apply(s, Change(values, schemas));
    }

    method DefineSchemas(schemas: seq<Schema>)
      requires Valid()
      modifies this
      ensures Valid() && s == Apply(old(s), Change(values, schemas))
      ensures this.schemas == schemas == Edited(old(this.schemas), Define(schemas))
      ensures dirty == (old(dirty) || RaisesFlag(old(this.schemas), Define(schemas))) && persistSeq == old(persistSeq)
      ensures values == MergeEntries(DefaultsOf(schemas), old(values))
      ensures forall k | k in DefaultsOf(schemas) :: k in values
    {
      this.schemas := schemas;
      var defaults := GenerateConfigFromSchemas(schemas);
      values := MergeValues(defaults, values);
      RecordChange();
    }

    /** `SetValue` up to the decision to persist. The key then has the value, or for
        nil the schema's default, in canonical form; a hole is left only where there is
        no default. A storable value is left unpersisted only if the flag is down and
        nothing it compares differs. */
    method SetValue(key: string, value: Val) returns (rejected: bool, shouldPersist: bool)
      requires Valid()
      modifies this
      ensures Valid() && s == Apply(old(s), Change(values, schemas))
      ensures schemas == old(schemas) && dirty == old(dirty) && persistSeq == old(persistSeq)
      ensures rejected <==> !Acceptable(value)
      ensures rejected || FindSchema(schemas, key).None? ==> values == old(values) && !shouldPersist
      ensures !rejected && FindSchema(schemas, key).Some? ==>
        var schema := FindSchema(schemas, key).value;
        && (!value.Nil? ==> key in values && Canonical(values[key]) && SameLogical(value, values[key]))
        && (value.Nil? && !schema.defaultValue.Nil? ==>
              key in values && Canonical(values[key]) && SameLogical(schema.defaultValue, values[key]))
        && (value.Nil? && schema.defaultValue.Nil? ==> key !in values)
        && values - {key} == old(values) - {key}
        && (shouldPersist <==>
              && schema.store == Some(true) && !schema.fieldType.ButtonField? && !schema.fieldType.SubmitField?
              && (dirty || (key in values) != (key in old(values))
                  || (key in values && !DeepEquality.Equal(old(values)[key], values[key], false))))
    {
      rejected, values, shouldPersist := ValueSet(schemas, values, dirty, key, value);
      RecordChange();
    }

    /** `SetInternalValue` up to the decision to persist: no schema is needed, and nil
        deletes. */
    method SetInternalValue(key: string, value: Val) returns (rejected: bool, shouldPersist: bool)
      requires Valid()
      modifies this
      ensures Valid() && (s == old(s) || s == Apply(old(s), Change(values, schemas)))
      ensures schemas == old(schemas) && dirty == old(dirty) && persistSeq == old(persistSeq)
      ensures rejected <==> !Acceptable(value)
      ensures rejected ==> values == old(values) && !shouldPersist
      ensures !rejected && !value.Nil? ==> key in values && Canonical(values[key]) && SameLogical(value, values[key])
      ensures !rejected && value.Nil? ==> key !in values
      ensures values - {key} == old(values) - {key}
      ensures !rejected ==>
        (shouldPersist <==> dirty || (key in values) != (key in old(values))
                            || (key in values && !DeepEquality.Equal(old(values)[key], values[key], false)))
    {
      WalksIffAcceptable(value);
      if !Walks(value, 0) {
        return true, false;
      }
      rejected := false;
      var v := Normalize(value);
      NormalizeIsCanonical(value);
      var same: bool;
      values, same := Put(values, key, v);
      shouldPersist := !(same && !dirty);
      RecordChange();
    }

    /** `SetConfig` up to the persist, which always follows: the call merges as a
        whole or not at all, and `changed` are the keys whose callbacks fire: those
        whose schema has one and is no submit field, and whose value differs now. */
    method SetConfig(newConfig: Values) returns (rejected: bool, changed: set<string>)
      requires Valid()
      modifies this
      ensures Valid() && (s == old(s) || s == Apply(old(s), Change(values, schemas)))
      ensures schemas == old(schemas) && dirty == old(dirty) && persistSeq == old(persistSeq)
      ensures rejected <==> exists k :: k in newConfig && !Acceptable(newConfig[k])
      ensures rejected ==> values == old(values) && changed == {}
      ensures !rejected ==> values == MergeEntries(old(values), NormalizeValues(newConfig))
      ensures !rejected ==> ConfigTaken(old(values), newConfig, values)
      ensures !rejected ==>
        forall k :: k in changed <==>
          && k in newConfig && FindSchema(schemas, k).Some?
          && FindSchema(schemas, k).value.hasOnSet && !FindSchema(schemas, k).value.fieldType.SubmitField?
          && !DeepEquality.Equal(Get(old(values), k), Get(values, k), false)
    {
      forall k | k in newConfig ensures Walks(newConfig[k], 0) <==> Acceptable(newConfig[k]) {
        WalksIffAcceptable(newConfig[k]);
      }
      if exists k | k in newConfig :: !Walks(newConfig[k], 0) {
        return true, {};
      }
      rejected := false;
      var config := NormalizeValues(newConfig);
      ConfigIsTaken(values, newConfig);
      var out := MergeValues(values, config);
      changed := ChangedKeys(schemas, config, values, out);
      values := out;
      RecordChange();
    }

    /** The locked region of `ChangeSchema`: a flip of what is persisted raises the
        flag and takes a number of its own. */
    method ChangeSchema(key: string, newSchema: Schema) returns (found: bool)
      requires Valid()
      modifies this
      ensures Valid() && values == old(values)
      ensures found <==> FindSchema(old(schemas), key).Some?
      ensures schemas == Edited(old(schemas), Replace(key, newSchema))
      ensures !found ==> schemas == old(schemas)
      ensures found ==> exists i :: FirstOf(old(schemas), key, i) && schemas == old(schemas)[i := newSchema.(key := key)]
      ensures dirty == (old(dirty) || RaisesFlag(old(schemas), Replace(key, newSchema)))
      ensures persistSeq == old(persistSeq) + if RaisesFlag(old(schemas), Replace(key, newSchema)) then 1 else 0
      ensures s == Apply(old(s), if RaisesFlag(old(schemas), Replace(key, newSchema)) then Flip(schemas)
                                 else Change(values, schemas))
    {
      var flips: bool;
      schemas, found, flips := ReplaceSchema(schemas, key, newSchema);
      if flips {
        dirty := true;
        persistSeq := persistSeq + 1;
      }
      Record(if flips then Flip(schemas) else Change(values, schemas));
    }

    /** `AddSchema` without its `OnGet` callback: the flag stays as it was. */
    method AddSchema(schema: Schema) returns (added: bool, shouldPersist: bool)
      requires Valid()
      modifies this
      ensures Valid() && s == Apply(old(s), Change(values, schemas)) && persistSeq == old(persistSeq)
      ensures added <==> FindSchema(old(schemas), schema.key).None?
      ensures schemas == Edited(old(schemas), Add(schema)) == if added then old(schemas) + [schema] else old(schemas)
      ensures dirty == (old(dirty) || RaisesFlag(old(schemas), Add(schema)))
      ensures values == if added && !schema.defaultValue.Nil? && schema.key !in old(values)
                        then old(values)[schema.key := schema.defaultValue] else old(values)
      ensures shouldPersist <==>
              && added && schema.store == Some(true) && !schema.fieldType.ButtonField? && !schema.fieldType.SubmitField?
              && !DeepEquality.Equal(Get(old(values), schema.key), Get(values, schema.key), false)
    {
      var index := FindSchemaByKey(schemas, schema.key);
      if index.Some? {
        RecordChange();
        return false, false;
      }
      var oldValue := Get(values, schema.key);
      schemas := schemas + [schema];
      if !schema.defaultValue.Nil? && schema.key !in values {
        values := values[schema.key := schema.defaultValue];
      }
      LooseIsOrderedEqual(oldValue, Get(values, schema.key));
      shouldPersist := Storable(schema) && !DeepEqualLoose(oldValue, Get(values, schema.key));
      RecordChange();
      return true, shouldPersist;
    }

    /** The locked region of `RemoveSchema`; a persist follows if a persisted value went. */
    method RemoveSchema(key: string) returns (shouldPersist: bool)
      requires Valid()
      modifies this
      ensures Valid() && s == Apply(old(s), Change(values, schemas)) && persistSeq == old(persistSeq)
      ensures schemas == Edited(old(schemas), Remove(key))
      ensures FindSchema(old(schemas), key).None? ==> schemas == old(schemas)
      ensures FindSchema(old(schemas), key).Some? ==>
        exists i :: FirstOf(old(schemas), key, i) && schemas == old(schemas)[..i] + old(schemas)[i + 1..]
      ensures dirty == (old(dirty) || RaisesFlag(old(schemas), Remove(key)))
      ensures values == if FindSchema(old(schemas), key).Some? then old(values) - {key} else old(values)
      ensures shouldPersist <==>
              FindSchema(old(schemas), key).Some? && key in old(values) && Persists(old(schemas), key)
    {
      var removed: Option<Schema>;
      schemas, removed := RemoveSchemaOf(schemas, key);
      if removed.Some? {
        shouldPersist := Storable(removed.value) && key in values;
        values := values - {key};
      } else {
        shouldPersist := false;
      }
      RecordChange();
    }

    /** `Destroy` up to the persist: the next snapshot is empty, so the location goes. */
    method Destroy()
      requires Valid()
      modifies this
      ensures Valid() && values == map[] && s == Apply(old(s), Change(map[], schemas))
      ensures AsSaved(PersistedPart(schemas, values)) == None
      ensures schemas == old(schemas) && dirty == old(dirty) && persistSeq == old(persistSeq)
    {
      values := map[];
      RecordChange();
    }
  }

  // ---- an unchanged value that is not durable, call by call ----

  function TextField(key: string, value: string, store: bool): Schema {
    Schema(StringField, key, false, Str(value), Some(store), [], false, [], false)
  }

  /** A default was never written: setting the key to what it is skips the write, and
      the store does not have the key. */
  method SetUnwrittenDefault(loc: Location, key: string, value: string)
    returns (d: DeviceStorage, rejected: bool, shouldPersist: bool)
    ensures fresh(d) && d.Valid() && !d.dirty && d.s.active == map[]
    ensures !rejected && !shouldPersist && key in PersistedPart(d.schemas, d.values) && key !in Reload(d.s)
  {
    d := new DeviceStorage(loc, map[]);
    StartsWithDefaults(loc, map[], TextField(key, value, true));
    d.DefineSchemas([TextField(key, value, true)]);
    TextIsAcceptable(value);
    rejected, shouldPersist := d.SetInternalValue(key, Str(value));
  }

  method SetOnEmpty(loc: Location, key: string, value: string) returns (d: DeviceStorage, first: bool)
    ensures fresh(d) && d.Valid() && !d.dirty && d.schemas == [] && d.values == map[key := Str(value)]
    ensures first && d.s.active == map[] && Reload(d.s) == map[]
  {
    d := new DeviceStorage(loc, map[]);
    var rejected;
    TextIsAcceptable(value);
    rejected, first := d.SetInternalValue(key, Str(value));
    OnlyKey(d.values, key);
  }

  lemma OnlyKey(values: Values, key: string)
    requires key in values && values - {key} == map[]
    ensures values == map[key := values[key]]
  {
    forall k | k in values ensures k == key {
      assert k != key ==> k in values - {key};
    }
  }

  lemma TextIsAcceptable(value: string)
    ensures Acceptable(Str(value))
  {
    assert Walks(Str(value), 0);
    WalksIffAcceptable(Str(value));
  }

  /** The first write is still under way: the second call with the same value returns at once. */
  method SetWhileInFlight(loc: Location, key: string, value: string)
    returns (d: DeviceStorage, first: bool, rejected: bool, second: bool)
    ensures fresh(d) && d.Valid() && !d.dirty && d.s.active != map[]
    ensures first && !rejected && !second && key in PersistedPart(d.schemas, d.values) && key !in Reload(d.s)
  {
    d, first := SetOnEmpty(loc, key, value);
    TextIsAcceptable(value);
    var snapshot, number := d.PersistBegin();
    rejected, second := d.SetInternalValue(key, Str(value));
  }

  /** New schemas no longer persist the key: the store keeps it, and setting the key to
      what it is does not write either. */
  method SetDroppedKey(loc: Location, key: string, value: string)
    returns (d: DeviceStorage, rejected: bool, shouldPersist: bool)
    ensures fresh(d) && d.Valid() && !d.dirty && d.s.active == map[]
    ensures !rejected && !shouldPersist && key in Reload(d.s) && key !in PersistedPart(d.schemas, d.values) && key in d.values
  {
    var stored: Values := map[key := Str(value)];
    var doc := Save(map[], loc, stored);
    SaveReads(map[], loc, stored, loc);
    assert key in stored;
    d := new DeviceStorage(loc, doc);
    StartsWithDefaults(loc, doc, TextField(key, value, false));
    MergeOverScalar(key, Str(value), Str(value));
    d.DefineSchemas([TextField(key, value, false)]);
    TextIsAcceptable(value);
    rejected, shouldPersist := d.SetInternalValue(key, Str(value));
  }

  lemma MergeOverScalar(key: string, d: Val, v: Val)
    requires !v.Map?
    ensures MergeEntries(map[key := d], map[key := v]) == map[key := v]
  {
    assert MergeEntries(map[key := d], map[key := v])[key] == Merge(d, v);
  }

  lemma StartsWithDefaults(loc: Location, doc: Values, field: Schema)
    requires field.defaultValue.Str?
    requires field == TextField(field.key, field.defaultValue.s, field.store == Some(true))
    ensures DefaultsOf([field]) == map[field.key := field.defaultValue]
    ensures FindSchema([field], field.key) == Some(field)
    ensures Reload(Init(loc, doc)) == LoadedValues(doc, loc)
  {
    assert [field][..0] == [];
  }
}
