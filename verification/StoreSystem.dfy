/** The whole durable store: a storage's persists, the coalescing writer and the file
    operations of its flushes, up to a crash and the open after it. */
module StoreSystem {
  import opened GoValues
  import opened StoreLayout
  import opened StoreEnvelope
  import P = PersistProtocol
  import W = CoalescingProtocol
  import F = StoreFileProtocol

  /** The drainer `t` is writing snapshot `index`, the newest of its batch, to the file. */
  datatype Writing = Writing(t: nat, handle: nat, index: nat)

  datatype State = State(p: P.State, f: F.State, writing: Option<Writing>)

  datatype Step =
    | Memory(m: P.Step)          // a step of storages, savers and drainer that touches no file
    | FlushStart(t: nat)
    | FileOp(op: F.Step)         // create, fill and sync the temp file, or fail
    | Renamed                    // the rename: from now on the snapshot is the store
    | FlushDone(t: nat, outcome: W.Outcome)

  /** A storage on a store that was just opened. */
  function Start(loc: Location, f: F.State): State
    requires f.pc.Running?
  {
    State(P.Init(loc, f.pc.doc), f, None)
  }

  predicate TouchesNoFile(l: P.Step) {
    l.Drain? ==> !l.step.Write? && !l.step.FlushEnd?
  }

  /** A save enqueues exactly what the encoder takes. */
  predicate Encodes(c: Codec, l: W.Step<Values>) {
    && (l.Install? ==> EncodeEnvelope(c, l.d).Some?)
    && (l.InstallUnencodable? ==> EncodeEnvelope(c, l.d).None?)
  }

  predicate CanFlush(w: W.State<Values>, t: nat) {
    && t in w.drainers && w.drainers[t].Flushing? && !w.drainers[t].wrote
    && w.drainers[t].handle < |w.handles| && w.handles[w.drainers[t].handle].newest < |w.enqueued|
  }

  predicate Enabled(c: Codec, s: State, l: Step) {
    match l
    case Memory(m) =>
      && TouchesNoFile(m) && P.Enabled(s.p, m)
      && (P.WriterStep(s.p, m).Some? ==> Encodes(c, P.WriterStep(s.p, m).value))
    case FlushStart(t) =>
      && s.writing.None? && CanFlush(s.p.writer, t)
      && F.Enabled(c, s.f, F.Flush(Newest(s.p.writer, t)))
    case FileOp(op) =>
      s.writing.Some? && (op.Create? || op.Fill? || op.Sync? || op.Fail?) && F.Enabled(c, s.f, op)
    case Renamed =>
      s.writing.Some? && F.Enabled(c, s.f, F.Rename) && P.Enabled(s.p, P.Drain(W.Write(s.writing.value.t)))
    case FlushDone(t, outcome) => s.writing.None? && P.Enabled(s.p, P.Drain(W.FlushEnd(t, outcome)))
  }

  function Newest(w: W.State<Values>, t: nat): Values
    requires CanFlush(w, t)
  {
    w.enqueued[w.handles[w.drainers[t].handle].newest]
  }

  function Apply(c: Codec, s: State, l: Step): State
    requires Enabled(c, s, l)
  {
    match l
    case Memory(m) => s.(p := P.Apply(s.p, m))
    case FlushStart(t) =>
      var h := s.p.writer.drainers[t].handle;
      s.(f := F.Apply(c, s.f, F.Flush(Newest(s.p.writer, t))), writing := Some(Writing(t, h, s.p.writer.handles[h].newest)))
    case FileOp(op) => s.(f := F.Apply(c, s.f, op), writing := if op.Fail? then None else s.writing)
    case Renamed =>
      State(P.Apply(s.p, P.Drain(W.Write(s.writing.value.t))), F.Apply(c, s.f, F.Rename), None)
    case FlushDone(t, outcome) => s.(p := P.Apply(s.p, P.Drain(W.FlushEnd(t, outcome))))
  }

  // ---- documents keep the layout, and what is enqueued can be encoded ----

  predicate GoodDoc(c: Codec, doc: Values) {
    OnCurrentLayout(doc) && EncodeEnvelope(c, doc).Some?
  }

  ghost predicate GoodDocs(c: Codec, w: W.State<Values>) {
    && OnCurrentLayout(w.doc)
    && (w.held.Some? ==> GoodDoc(c, w.held.value))
    && forall i | 0 <= i < |w.enqueued| :: GoodDoc(c, w.enqueued[i])
  }

  lemma SaveKeepsLayout(doc: Values, loc: Location, values: Values)
    requires OnCurrentLayout(doc)
    ensures OnCurrentLayout(Save(doc, loc, values))
  {
    assert VERSION_KEY[0] != "plugin"[0] && VERSION_KEY[0] != "cameras"[0] && VERSION_KEY[0] != "sensors"[0];
    assert Get(Save(doc, loc, values), VERSION_KEY) == Get(doc, VERSION_KEY);
  }

  lemma NormalizeKeepsLayout(doc: Values)
    requires OnCurrentLayout(doc)
    ensures OnCurrentLayout(NormalizeValues(doc))
  {
  }

  lemma WriterStepGoodDocs(c: Codec, s: P.State, l: P.Step)
    requires GoodDocs(c, s.writer) && P.Enabled(s, l) && P.WriterStep(s, l).Some? && Encodes(c, P.WriterStep(s, l).value)
    ensures GoodDocs(c, P.Apply(s, l).writer)
  {
    if l.Install? {
      SaveKeepsLayout(s.writer.doc, s.loc, s.active[l.number].values);
    } else if l.OtherInstall? {
      SaveKeepsLayout(s.writer.doc, l.loc, l.values);
    }
  }

  lemma StepGoodDocs(c: Codec, s: P.State, l: P.Step)
    requires GoodDocs(c, s.writer) && P.Enabled(s, l)
    requires P.WriterStep(s, l).Some? ==> Encodes(c, P.WriterStep(s, l).value)
    ensures GoodDocs(c, P.Apply(s, l).writer)
  {
    if P.WriterStep(s, l).Some? {
      WriterStepGoodDocs(c, s, l);
    }
  }

  // ---- what memory and file know of each other ----

  /** The main file is the snapshot the writer takes for flushed. */
  ghost predicate MainIsFlushed(c: Codec, w: W.State<Values>, fs: F.Fs) {
    w.disk.Some? ==> w.disk.value < |w.enqueued| && fs.main == EncodeEnvelope(c, w.enqueued[w.disk.value])
  }

  ghost predicate Works(w: W.State<Values>, wr: Writing) {
    && wr.t in w.drainers && w.drainers[wr.t] == W.Flushing(wr.handle, false)
    && wr.handle < |w.handles| && w.handles[wr.handle].newest == wr.index < |w.enqueued|
  }

  ghost predicate FileWrites(c: Codec, pc: F.Pc, doc: Values) {
    match pc
    case Creating(buf, next) => next.Saved? && EncodeEnvelope(c, doc) == Some(buf)
    case Filling(buf, _, next) => next.Saved? && EncodeEnvelope(c, doc) == Some(buf)
    case Renaming(buf, next) => next.Saved? && EncodeEnvelope(c, doc) == Some(buf)
    case _ => false
  }

  ghost predicate FileAgrees(c: Codec, w: W.State<Values>, pc: F.Pc, writing: Option<Writing>) {
    if writing.None? then pc.Running?
    else Works(w, writing.value) && FileWrites(c, pc, w.enqueued[writing.value.index])
  }

  ghost predicate Inv(c: Codec, s: State) {
    && P.Reachable(s.p) && F.Reachable(c, s.f) && GoodDocs(c, s.p.writer)
    && MainIsFlushed(c, s.p.writer, s.f.disk.fs) && FileAgrees(c, s.p.writer, s.f.pc, s.writing)
  }

  lemma StartInv(c: Codec, loc: Location, f: F.State)
    requires PreservesValues(c) && F.Reachable(c, f) && f.pc.Running?
    ensures Inv(c, Start(loc, f))
  {
    F.ReachableInv(c, f);
    P.InitReachable(loc, f.pc.doc);
    OpenedOnCurrentLayout(c, f);
  }

  lemma OpenedOnCurrentLayout(c: Codec, f: F.State)
    requires F.PcInv(c, f) && f.pc.Running?
    ensures OnCurrentLayout(f.pc.doc)
  {
    var doc := F.ReadResult(c, f.launched.fs).value.0;
    UpgradeIsFixedPoint(doc);
  }

  /** What is being flushed stays the same until its flush is over. */
  lemma WriterStepKeepsFlush(w: W.State<Values>, l: W.Step<Values>, writing: Option<Writing>)
    requires W.Reachable(w) && W.Enabled(w, l) && !l.Write? && !l.FlushEnd?
    requires writing.Some? ==> Works(w, writing.value)
    ensures W.Apply(w, l).disk == w.disk && w.enqueued <= W.Apply(w, l).enqueued
    ensures writing.Some? ==> Works(W.Apply(w, l), writing.value)
  {
    W.ReachableInv(w);
    if l.Enqueue? {
      W.EnqueueKeepsHandles(w);
    }
  }

  /** A step that touches no file keeps what the writer and the file agree on. */
  lemma MemoryAgrees(c: Codec, s: P.State, m: P.Step, f: F.State, writing: Option<Writing>)
    requires W.Reachable(s.writer) && P.Enabled(s, m) && TouchesNoFile(m)
    requires MainIsFlushed(c, s.writer, f.disk.fs) && FileAgrees(c, s.writer, f.pc, writing)
    ensures MainIsFlushed(c, P.Apply(s, m).writer, f.disk.fs) && FileAgrees(c, P.Apply(s, m).writer, f.pc, writing)
  {
    if P.WriterStep(s, m).Some? {
      WriterStepKeepsFlush(s.writer, P.WriterStep(s, m).value, writing);
    }
  }

  lemma MemoryInv(c: Codec, s: State, l: Step)
    requires Inv(c, s) && Enabled(c, s, l) && l.Memory?
    ensures Inv(c, Apply(c, s, l))
  {
    P.ReachableStep(s.p, l.m);
    StepGoodDocs(c, s.p, l.m);
    P.ReachableSources(s.p);
    MemoryAgrees(c, s.p, l.m, s.f, s.writing);
  }

  lemma FileInv(c: Codec, s: State, l: Step)
    requires Inv(c, s) && Enabled(c, s, l) && (l.FlushStart? || l.FileOp?)
    ensures Inv(c, Apply(c, s, l))
  {
    if l.FlushStart? {
      F.ReachableStep(c, s.f, F.Flush(Newest(s.p.writer, l.t)));
    } else {
      F.ReachableStep(c, s.f, l.op);
    }
  }

  /** A rename puts the content of the temp file in place. */
  lemma RenameShape(c: Codec, f: F.State)
    requires PreservesValues(c) && F.Reachable(c, f) && F.Enabled(c, f, F.Rename) && f.pc.next.Saved?
    ensures F.Reachable(c, F.Apply(c, f, F.Rename))
    ensures F.Apply(c, f, F.Rename).disk.fs.main == Some(f.pc.buf) && F.Apply(c, f, F.Rename).pc.Running?
  {
    F.ReachableInv(c, f);
    F.ReachableStep(c, f, F.Rename);
  }

  lemma WriteShape(s: P.State, wr: Writing)
    requires P.Reachable(s) && Works(s.writer, wr) && P.Enabled(s, P.Drain(W.Write(wr.t)))
    ensures P.Reachable(P.Apply(s, P.Drain(W.Write(wr.t))))
    ensures var w := P.Apply(s, P.Drain(W.Write(wr.t))).writer;
      w.disk == Some(wr.index) && w.enqueued == s.writer.enqueued && w.doc == s.writer.doc && w.held == s.writer.held
  {
    P.ReachableStep(s, P.Drain(W.Write(wr.t)));
  }

  lemma RenamedInv(c: Codec, s: State)
    requires PreservesValues(c) && Inv(c, s) && Enabled(c, s, Renamed)
    ensures Inv(c, Apply(c, s, Renamed))
  {
    RenameShape(c, s.f);
    WriteShape(s.p, s.writing.value);
  }

  lemma FlushDoneInv(c: Codec, s: State, l: Step)
    requires Inv(c, s) && Enabled(c, s, l) && l.FlushDone?
    ensures Inv(c, Apply(c, s, l))
  {
    P.ReachableStep(s.p, P.Drain(W.FlushEnd(l.t, l.outcome)));
  }

  lemma StepInv(c: Codec, s: State, l: Step)
    requires PreservesValues(c) && Inv(c, s) && Enabled(c, s, l)
    ensures Inv(c, Apply(c, s, l))
  {
    match l
    case Memory(_) => MemoryInv(c, s, l);
    case FlushStart(_) => FileInv(c, s, l);
    case FileOp(_) => FileInv(c, s, l);
    case Renamed => RenamedInv(c, s);
    case FlushDone(_, _) => FlushDoneInv(c, s, l);
  }

  // ---- whole runs ----

  ghost predicate CanRun(c: Codec, s: State, ls: seq<Step>)
    decreases |ls|
  {
    ls == [] || (Enabled(c, s, ls[0]) && CanRun(c, Apply(c, s, ls[0]), ls[1..]))
  }

  ghost function Run(c: Codec, s: State, ls: seq<Step>): State
    requires CanRun(c, s, ls)
    decreases |ls|
  {
    if ls == [] then s else Run(c, Apply(c, s, ls[0]), ls[1..])
  }

  lemma {:induction false} RunInv(c: Codec, s: State, ls: seq<Step>)
    requires PreservesValues(c) && Inv(c, s) && CanRun(c, s, ls)
    ensures Inv(c, Run(c, s, ls))
    decreases |ls|
  {
    if ls != [] {
      StepInv(c, s, ls[0]);
      RunInv(c, Apply(c, s, ls[0]), ls[1..]);
    }
  }

  // ---- after the crash ----

  /** A process that opens a store whose main file reads as `doc`, on the current layout,
      and writes nothing. */
  ghost predicate Reads(c: Codec, f: F.State, doc: Values) {
    && f.disk.fs.main.Some? && DecodeEnvelope(c, f.disk.fs.main.value) == Payload(doc) && OnCurrentLayout(doc)
    && match f.pc
       case Creating(_, _) => false
       case Filling(_, _, _) => false
       case Renaming(_, _) => false
       case ReadingBackup => false
       case BackingUp(d) => d == doc
       case CopyingBackup(d, _, _) => d == doc
       case RenamingBackup(d, _) => d == doc
       case Running(d) => d == doc
       case _ => true
  }

  lemma {:induction false} ReadsOverRun(c: Codec, f: F.State, doc: Values, ls: seq<F.Step>)
    requires Reads(c, f, doc) && F.CanRun(c, f, ls)
    requires forall l | l in ls :: !l.CorruptMain? && !l.Flush?
    ensures Reads(c, F.Run(c, f, ls), doc)
    decreases |ls|
  {
    if ls != [] {
      ReadsOneStep(c, f, doc, ls[0]);
      ReadsOverRun(c, F.Apply(c, f, ls[0]), doc, ls[1..]);
    }
  }

  lemma ReadsOneStep(c: Codec, f: F.State, doc: Values, l: F.Step)
    requires Reads(c, f, doc) && F.Enabled(c, f, l) && !l.CorruptMain? && !l.Flush?
    ensures Reads(c, F.Apply(c, f, l), doc)
  {
  }

  /** What a location reads as after a save of `values`, through the file. */
  function ReadBack(values: Values): Option<Values> {
    if values == map[] then None else Some(NormalizeValues(values))
  }

  /** A persist that returned nil survives the crash of its process at any later moment,
      whatever persist, flush or file operation is cut short by it, and any number of
      crashed and completed opens after it: until the next flush, or a corruption of the
      main file from outside, an open store reads at this location, up to the width of
      numbers, what that persist took, or what one did that edited the document later. */
  lemma AcknowledgedPersistSurvivesCrash(
    c: Codec, loc: Location, f: F.State, ls: seq<Step>, s: State, q: nat, after: seq<F.Step>, f': F.State)
    requires PreservesValues(c) && F.Reachable(c, f) && f.pc.Running?
    requires CanRun(c, Start(loc, f), ls) && s == Run(c, Start(loc, f), ls)
    requires q in s.p.finished && s.p.finished[q].durable
    requires F.Enabled(c, s.f, F.Crash) && F.CanRun(c, F.Apply(c, s.f, F.Crash), after)
    requires forall l | l in after :: !l.CorruptMain? && !l.Flush?
    requires f' == F.Run(c, F.Apply(c, s.f, F.Crash), after) && f'.pc.Running?
    ensures q in s.p.edits && s.p.edits[q] == s.p.finished[q].values
    ensures exists r: nat :: q <= r && r in s.p.edits && ReadLocation(f'.pc.doc, s.p.loc) == ReadBack(s.p.edits[r])
  {
    StartInv(c, loc, f);
    RunInv(c, Start(loc, f), ls);
    P.AcknowledgedPersistStays(s.p, q);
    var doc := FlushedDocument(c, s, q);
    ReadsOverRun(c, F.Apply(c, s.f, F.Crash), NormalizeValues(doc), after);
    NormalizeCommutesWithRead(doc, s.p.loc);
  }

  /** The document in the file once a persist was acknowledged. */
  lemma FlushedDocument(c: Codec, s: State, q: nat) returns (doc: Values)
    requires PreservesValues(c) && Inv(c, s) && F.Enabled(c, s.f, F.Crash)
    requires q in s.p.finished && s.p.finished[q].durable
    ensures Reads(c, F.Apply(c, s.f, F.Crash), NormalizeValues(doc))
    ensures P.SourceInStore(s.p) in s.p.edits
    ensures ReadLocation(doc, s.p.loc) == P.AsSaved(s.p.edits[P.SourceInStore(s.p)])
  {
    doc := SourceDocument(s.p, q);
    FlushedReads(c, s, doc);
  }

  lemma SourceDocument(s: P.State, q: nat) returns (doc: Values)
    requires P.Reachable(s) && q in s.finished && s.finished[q].durable
    ensures s.writer.disk.Some? && s.writer.disk.value < |s.writer.enqueued|
    ensures doc == s.writer.enqueued[s.writer.disk.value]
    ensures P.SourceInStore(s) in s.edits && ReadLocation(doc, s.loc) == P.AsSaved(s.edits[P.SourceInStore(s)])
  {
    P.ReachableSources(s);
    P.DiskIsEnqueued(s);
    P.AcknowledgedPersistStays(s, q);
    doc := s.writer.enqueued[s.writer.disk.value];
  }

  lemma FlushedReads(c: Codec, s: State, doc: Values)
    requires PreservesValues(c) && F.Enabled(c, s.f, F.Crash)
    requires GoodDoc(c, doc) && s.f.disk.fs.main == EncodeEnvelope(c, doc)
    ensures Reads(c, F.Apply(c, s.f, F.Crash), NormalizeValues(doc))
  {
    EnvelopeRoundTrip(c, doc);
    NormalizeKeepsLayout(doc);
  }
}
