/** The store file of go/store_file.go under process crashes: every file operation
    of an open, a write and a backup is one step, and a crash may come before any. */
module StoreFileProtocol {
  import opened GoValues
  import opened StoreLayout
  import opened StoreEnvelope

  /** The store's directory; temp files are named by process id. */
  datatype Fs = Fs(main: Option<Bytes>, bak: Option<Bytes>, tmps: map<nat, Bytes>, bakTmps: map<nat, Bytes>)

  /** What to do once a write is through. */
  datatype Then =
    | Healed(payload: Values)  // readStoreFile: the backup was put back
    | Initialized(doc: Values) // newFilePersistence: the layout was written
    | Saved(doc: Values)       // a flush

  datatype Pc =
    | Down
    | Cleaning
    | ReadingMain
    | ReadingBackup
    | Creating(buf: Bytes, next: Then)
    | Filling(buf: Bytes, n: nat, next: Then)
    | Renaming(buf: Bytes, next: Then)
    | BackingUp(doc: Values)
    | CopyingBackup(doc: Values, src: Bytes, n: nat)
    | RenamingBackup(doc: Values, src: Bytes)
    | Running(doc: Values)

  /** The directory with its history: every content the main file and the backup
      were given by a rename. */
  datatype Disk = Disk(fs: Fs, renamed: seq<Bytes>, backups: seq<Bytes>)

  /** `launched` is the disk the running open started from. */
  datatype State = State(disk: Disk, pc: Pc, pid: nat, launched: Disk)

  datatype Step =
    | Launch(pid: nat)
    | Clean(tmps: set<nat>, bakTmps: set<nat>)  // the orphans that could be removed
    | ReadMain
    | ReadBackup
    | Create
    | Fill(n: nat)
    | Sync
    | Rename
    | OpenBackup
    | CopyBackup(n: nat)
    | CloseBackup
    | RenameBackup
    | Flush(doc: Values)
    | Fail(removed: bool)    // the operation at hand reports an error
    | Crash
    | CorruptMain(garbage: Bytes)
    | CorruptBackup(garbage: Bytes)

  const EMPTY_DISK := Disk(Fs(None, None, map[], map[]), [], [])

  function Init(): State {
    State(EMPTY_DISK, Down, 0, EMPTY_DISK)
  }

  predicate Decodes(c: Codec, buf: Bytes) {
    DecodeEnvelope(c, buf).Payload?
  }

  /** newFilePersistence after the read: upgrade, and write if new or changed. */
  function Loaded(c: Codec, doc: Values, found: bool): Pc {
    var (up, changed) := UpgradeLayout(doc);
    if found && !changed then BackingUp(up)
    else match EncodeEnvelope(c, up)
         case None => Down
         case Some(buf) => Creating(buf, Initialized(up))
  }

  /** Where a successful write returns to. */
  function AfterWrite(c: Codec, t: Then): Pc {
    match t
    case Healed(payload) => Loaded(c, payload, true)
    case Initialized(doc) => BackingUp(doc)
    case Saved(doc) => Running(doc)
  }

  /** Where a failed write returns to: a failed open ends the process. */
  function AfterError(t: Then): Pc {
    match t
    case Saved(doc) => Running(doc)
    case _ => Down
  }

  predicate Enabled(c: Codec, s: State, l: Step) {
    var fs := s.disk.fs;
    match l
    case Launch(_) => s.pc.Down?
    case Clean(_, _) => s.pc.Cleaning?
    case ReadMain => s.pc.ReadingMain?
    case ReadBackup => s.pc.ReadingBackup?
    case Create => s.pc.Creating?
    case Fill(n) => s.pc.Filling? && s.pc.n <= n <= |s.pc.buf|
    case Sync => s.pc.Filling? && s.pc.n == |s.pc.buf|
    case Rename => s.pc.Renaming? && s.pid in fs.tmps
    case OpenBackup => s.pc.BackingUp? && fs.main.Some?
    case CopyBackup(n) => s.pc.CopyingBackup? && s.pc.n <= n <= |s.pc.src|
    case CloseBackup => s.pc.CopyingBackup? && s.pc.n == |s.pc.src|
    case RenameBackup => s.pc.RenamingBackup? && s.pid in fs.bakTmps
    case Flush(doc) => s.pc.Running? && EncodeEnvelope(c, doc).Some?
    case Fail(_) => !s.pc.Down? && !s.pc.Running?
    case Crash => !s.pc.Down?
    case CorruptMain(garbage) => s.pc.Down? && fs.main.Some? && !Decodes(c, garbage)
    case CorruptBackup(garbage) => s.pc.Down? && fs.bak.Some? && !Decodes(c, garbage)
  }

  /** Where the process goes. */
  function NextPc(c: Codec, s: State, l: Step): Pc
    requires Enabled(c, s, l)
  {
    match l
    case Launch(_) => Cleaning
    case Clean(_, _) => ReadingMain
    case ReadMain =>
      (match s.disk.fs.main
       case None => Loaded(c, map[], false)
       case Some(buf) =>
         match DecodeEnvelope(c, buf)
         case Payload(doc) => Loaded(c, doc, true)
         case Corrupt(_) => ReadingBackup)
    case ReadBackup =>
      (match s.disk.fs.bak
       case None => Down
       case Some(buf) =>
         match DecodeEnvelope(c, buf)
         case Payload(doc) => Creating(buf, Healed(doc))
         case Corrupt(_) => Down)
    case Create => Filling(s.pc.buf, 0, s.pc.next)
    case Fill(n) => Filling(s.pc.buf, n, s.pc.next)
    case Sync => Renaming(s.pc.buf, s.pc.next)
    case Rename => AfterWrite(c, s.pc.next)
    case OpenBackup => CopyingBackup(s.pc.doc, s.disk.fs.main.value, 0)
    case CopyBackup(n) => CopyingBackup(s.pc.doc, s.pc.src, n)
    case CloseBackup => RenamingBackup(s.pc.doc, s.pc.src)
    case RenameBackup => Running(s.pc.doc)
    case Flush(doc) => Creating(EncodeEnvelope(c, doc).value, Saved(s.pc.doc))
    case Fail(_) => AfterFailure(s.pc)
    case Crash => Down
    case CorruptMain(_) => Down
    case CorruptBackup(_) => Down
  }

  /** Error paths: an unreadable directory skips the cleanup, a failed read or write
      fails the open, a failed flush is reported, a failed backup is only logged. */
  function AfterFailure(pc: Pc): Pc {
    match pc
    case Cleaning => ReadingMain
    case Creating(_, t) => AfterError(t)
    case Filling(_, _, t) => AfterError(t)
    case Renaming(_, t) => AfterError(t)
    case BackingUp(doc) => Running(doc)
    case CopyingBackup(doc, _, _) => Running(doc)
    case RenamingBackup(doc, _) => Running(doc)
    case _ => Down
  }

  /** What becomes of the files. */
  function NextDisk(s: State, l: Step): Disk
    requires l.Fill? ==> s.pc.Filling? && l.n <= |s.pc.buf|
    requires l.Rename? ==> s.pid in s.disk.fs.tmps
    requires l.CopyBackup? ==> s.pc.CopyingBackup? && l.n <= |s.pc.src|
    requires l.RenameBackup? ==> s.pid in s.disk.fs.bakTmps
  {
    var d, fs, pid := s.disk, s.disk.fs, s.pid;
    match l
    case Clean(tmps, bakTmps) => d.(fs := fs.(tmps := fs.tmps - tmps, bakTmps := fs.bakTmps - bakTmps))
    case Create => d.(fs := fs.(tmps := fs.tmps[pid := []]))
    case Fill(n) => d.(fs := fs.(tmps := fs.tmps[pid := s.pc.buf[..n]]))
    case Rename =>
      d.(fs := fs.(main := Some(fs.tmps[pid]), tmps := fs.tmps - {pid}), renamed := d.renamed + [fs.tmps[pid]])
    case OpenBackup => d.(fs := fs.(bakTmps := fs.bakTmps[pid := []]))
    case CopyBackup(n) => d.(fs := fs.(bakTmps := fs.bakTmps[pid := s.pc.src[..n]]))
    case RenameBackup =>
      d.(fs := fs.(bak := Some(fs.bakTmps[pid]), bakTmps := fs.bakTmps - {pid}), backups := d.backups + [fs.bakTmps[pid]])
    case Fail(removed) => if removed then RemoveTmp(s) else d
    case CorruptMain(garbage) => d.(fs := fs.(main := Some(garbage)))
    case CorruptBackup(garbage) => d.(fs := fs.(bak := Some(garbage)))
    case _ => d
  }

  /** The cleanup after an error, when it works: the temp file of this write is gone. */
  function RemoveTmp(s: State): Disk {
    var d, fs := s.disk, s.disk.fs;
    if s.pc.Creating? || s.pc.Filling? || s.pc.Renaming? then d.(fs := fs.(tmps := fs.tmps - {s.pid}))
    else if s.pc.BackingUp? || s.pc.CopyingBackup? || s.pc.RenamingBackup? then d.(fs := fs.(bakTmps := fs.bakTmps - {s.pid}))
    else d
  }

  function Apply(c: Codec, s: State, l: Step): State
    requires Enabled(c, s, l)
  {
    State(NextDisk(s, l), NextPc(c, s, l),
          if l.Launch? then l.pid else s.pid,
          if l.Launch? then s.disk else s.launched)
  }

  // ---- what an open must answer ----

  /** What `readStoreFile` makes of this directory: the document and whether a store
      was found; None when it has to fail. */
  function ReadResult(c: Codec, fs: Fs): Option<(Values, bool)> {
    match fs.main
    case None => Some((map[], false))
    case Some(buf) =>
      match DecodeEnvelope(c, buf)
      case Payload(doc) => Some((doc, true))
      case Corrupt(_) =>
        match fs.bak
        case None => None
        case Some(bakBuf) =>
          match DecodeEnvelope(c, bakBuf)
          case Payload(doc) => Some((doc, true))
          case Corrupt(_) => None
  }

  /** The document an open of this directory yields. */
  function OpenResult(c: Codec, fs: Fs): Option<Values> {
    match ReadResult(c, fs)
    case None => None
    case Some((doc, _)) => Some(UpgradeLayout(doc).0)
  }

  // ---- the invariant ----

  /** Files that decode are the last ones renamed into place, and a file exists from
      its first rename on. */
  ghost predicate DiskInv(c: Codec, d: Disk) {
    && (d.fs.main.None? <==> d.renamed == [])
    && (MainDecodes(c, d.fs) ==> d.fs.main.value == d.renamed[|d.renamed| - 1])
    && (d.fs.bak.None? <==> d.backups == [])
    && (BackupDecodes(c, d.fs) ==> d.fs.bak.value == d.backups[|d.backups| - 1])
    && (forall i | 0 <= i < |d.renamed| :: Decodes(c, d.renamed[i]))
    && (forall i | 0 <= i < |d.backups| :: Decodes(c, d.backups[i]) && d.backups[i] in d.renamed)
  }

  predicate MainDecodes(c: Codec, fs: Fs) {
    fs.main.Some? && Decodes(c, fs.main.value)
  }

  predicate BackupDecodes(c: Codec, fs: Fs) {
    fs.bak.Some? && Decodes(c, fs.bak.value)
  }

  predicate Opens(c: Codec, launched: Disk, doc: Values) {
    OpenResult(c, launched.fs) == Some(doc)
  }

  predicate ThenInv(c: Codec, launched: Disk, t: Then) {
    match t
    case Healed(payload) => Opens(c, launched, UpgradeLayout(payload).0)
    case Initialized(doc) => Opens(c, launched, doc)
    case Saved(doc) => Opens(c, launched, doc)
  }

  /** What a running open or write has already established. */
  ghost predicate PcInv(c: Codec, s: State) {
    var fs, before := s.disk.fs, s.launched.fs;
    match s.pc
    case Down => true
    case Cleaning => fs.main == before.main && fs.bak == before.bak
    case ReadingMain => fs.main == before.main && fs.bak == before.bak
    case ReadingBackup =>
      fs.main == before.main && fs.bak == before.bak && fs.main.Some? && !Decodes(c, fs.main.value)
    case Creating(buf, t) => Decodes(c, buf) && ThenInv(c, s.launched, t)
    case Filling(buf, n, t) =>
      && Decodes(c, buf) && ThenInv(c, s.launched, t)
      && n <= |buf| && s.pid in fs.tmps && fs.tmps[s.pid] == buf[..n]
    case Renaming(buf, t) =>
      Decodes(c, buf) && ThenInv(c, s.launched, t) && s.pid in fs.tmps && fs.tmps[s.pid] == buf
    case BackingUp(doc) => Opens(c, s.launched, doc) && MainDecodes(c, fs)
    case CopyingBackup(doc, src, n) =>
      && Opens(c, s.launched, doc) && Decodes(c, src) && src in s.disk.renamed
      && n <= |src| && s.pid in fs.bakTmps && fs.bakTmps[s.pid] == src[..n]
    case RenamingBackup(doc, src) =>
      && Opens(c, s.launched, doc) && Decodes(c, src) && src in s.disk.renamed
      && s.pid in fs.bakTmps && fs.bakTmps[s.pid] == src
    case Running(doc) => Opens(c, s.launched, doc)
  }

  ghost predicate Inv(c: Codec, s: State) {
    DiskInv(c, s.disk) && DiskInv(c, s.launched) && PcInv(c, s)
  }

  lemma LoadedInv(c: Codec, doc: Values, found: bool, launched: Disk, fs: Fs)
    requires PreservesValues(c)
    requires Opens(c, launched, UpgradeLayout(doc).0)
    requires found ==> MainDecodes(c, fs)
    ensures match Loaded(c, doc, found)
      case Down => true
      case BackingUp(d) => Opens(c, launched, d) && MainDecodes(c, fs)
      case Creating(buf, t) => Decodes(c, buf) && ThenInv(c, launched, t)
      case _ => false
  {
    var up := UpgradeLayout(doc).0;
    if EncodeEnvelope(c, up).Some? {
      EnvelopeRoundTrip(c, up);
    }
  }

  lemma RenamedInv(c: Codec, d: Disk, d': Disk, content: Bytes)
    requires DiskInv(c, d) && Decodes(c, content)
    requires d'.fs.main == Some(content) && d'.fs.bak == d.fs.bak
    requires d'.renamed == d.renamed + [content] && d'.backups == d.backups
    ensures DiskInv(c, d')
  {
  }

  lemma BackedUpInv(c: Codec, d: Disk, d': Disk, content: Bytes)
    requires DiskInv(c, d) && Decodes(c, content) && content in d.renamed
    requires d'.fs.bak == Some(content) && d'.fs.main == d.fs.main
    requires d'.backups == d.backups + [content] && d'.renamed == d.renamed
    ensures DiskInv(c, d')
  {
  }

  lemma UntouchedInv(c: Codec, d: Disk, d': Disk)
    requires DiskInv(c, d) && d'.renamed == d.renamed && d'.backups == d.backups
    requires d'.fs.main == d.fs.main || (d.fs.main.Some? && d'.fs.main.Some? && !MainDecodes(c, d'.fs))
    requires d'.fs.bak == d.fs.bak || (d.fs.bak.Some? && d'.fs.bak.Some? && !BackupDecodes(c, d'.fs))
    ensures DiskInv(c, d')
  {
  }

  lemma DiskStepInv(c: Codec, s: State, l: Step)
    requires DiskInv(c, s.disk) && PcInv(c, s) && Enabled(c, s, l)
    ensures DiskInv(c, NextDisk(s, l))
  {
    if l.Rename? {
      RenamedInv(c, s.disk, NextDisk(s, l), s.pc.buf);
    } else if l.RenameBackup? {
      BackedUpInv(c, s.disk, NextDisk(s, l), s.pc.src);
    } else {
      UntouchedInv(c, s.disk, NextDisk(s, l));
    }
  }

  lemma PcStepInv(c: Codec, s: State, l: Step)
    requires PreservesValues(c) && Inv(c, s) && Enabled(c, s, l)
    ensures PcInv(c, Apply(c, s, l))
  {
    var s' := Apply(c, s, l);
    match l
    case ReadMain =>
      if s.disk.fs.main.None? {
        LoadedInv(c, map[], false, s.launched, s.disk.fs);
      } else if MainDecodes(c, s.disk.fs) {
        LoadedInv(c, DecodeEnvelope(c, s.disk.fs.main.value).doc, true, s.launched, s.disk.fs);
      }
    case Sync => assert s.pc.buf[..|s.pc.buf|] == s.pc.buf;
    case Rename =>
      if s.pc.next.Healed? {
        LoadedInv(c, s.pc.next.payload, true, s.launched, s'.disk.fs);
      }
    case Flush(doc) => EnvelopeRoundTrip(c, doc);
    case CloseBackup => assert s.pc.src[..|s.pc.src|] == s.pc.src;
    case _ =>
  }

  lemma StepInv(c: Codec, s: State, l: Step)
    requires PreservesValues(c) && Inv(c, s) && Enabled(c, s, l)
    ensures Inv(c, Apply(c, s, l))
  {
    DiskStepInv(c, s, l);
    PcStepInv(c, s, l);
  }

  // ---- whole histories: opens, writes, crashes and corruption in any order ----

  ghost predicate CanRun(c: Codec, s: State, ls: seq<Step>)
    decreases |ls|
  {
    ls == [] || (Enabled(c, s, ls[0]) && CanRun(c, Apply(c, s, ls[0]), ls[1..]))
  }

  ghost function Run(c: Codec, s: State, ls: seq<Step>): State
    requires CanRun(c, s, ls)
    decreases |ls|
  {
    if ls == [] then s else Run(c, Apply(c, s, ls[0]), ls[1..])
  }

  ghost predicate Reachable(c: Codec, s: State) {
    exists ls :: CanRun(c, Init(), ls) && s == Run(c, Init(), ls)
  }

  lemma {:induction false} RunInv(c: Codec, s: State, ls: seq<Step>)
    requires PreservesValues(c) && Inv(c, s) && CanRun(c, s, ls)
    ensures Inv(c, Run(c, s, ls))
    decreases |ls|
  {
    if ls != [] {
      StepInv(c, s, ls[0]);
      RunInv(c, Apply(c, s, ls[0]), ls[1..]);
    }
  }

  lemma {:induction false} RunSnoc(c: Codec, s: State, ls: seq<Step>, l: Step)
    requires CanRun(c, s, ls) && Enabled(c, Run(c, s, ls), l)
    ensures CanRun(c, s, ls + [l]) && Run(c, s, ls + [l]) == Apply(c, Run(c, s, ls), l)
    decreases |ls|
  {
    if ls == [] {
      assert CanRun(c, Apply(c, s, l), []);
      assert ([] + [l])[1..] == [];
    } else {
      RunSnoc(c, Apply(c, s, ls[0]), ls[1..], l);
      assert (ls + [l])[1..] == ls[1..] + [l];
    }
  }

  lemma ReachableStep(c: Codec, s: State, l: Step)
    requires Reachable(c, s) && Enabled(c, s, l)
    ensures Reachable(c, Apply(c, s, l))
  {
    var ls :| CanRun(c, Init(), ls) && s == Run(c, Init(), ls);
    RunSnoc(c, Init(), ls, l);
  }

  lemma ReachableInv(c: Codec, s: State)
    requires PreservesValues(c) && Reachable(c, s)
    ensures Inv(c, s)
  {
    var ls :| CanRun(c, Init(), ls) && s == Run(c, Init(), ls);
    RunInv(c, Init(), ls);
  }

  /** `doc` is what the content `buf` of a store file opens as. */
  ghost predicate OpensAs(c: Codec, buf: Bytes, doc: Values) {
    Decodes(c, buf) && doc == UpgradeLayout(DecodeEnvelope(c, buf).doc).0
  }

  /** An open that gets through yields the content last renamed into place; if that
      was corrupted since, the last backup, itself once the store's content. It yields
      a fresh store only where none was ever written: corruption of both files, at any
      point of any history of crashes, never reads as an empty store. */
  lemma OpenReturnsLastRenamedOrBackup(c: Codec, s: State)
    requires PreservesValues(c) && Reachable(c, s) && s.pc.Running?
    ensures var d := s.launched;
      if d.renamed == [] then
        d.fs.main.None? && s.pc.doc == UpgradeLayout(map[]).0
      else if MainDecodes(c, d.fs) then
        d.fs.main.value == d.renamed[|d.renamed| - 1] && OpensAs(c, d.renamed[|d.renamed| - 1], s.pc.doc)
      else
        && d.backups != []
        && BackupDecodes(c, d.fs)
        && d.backups[|d.backups| - 1] in d.renamed
        && OpensAs(c, d.backups[|d.backups| - 1], s.pc.doc)
  {
    ReachableInv(c, s);
  }

  /** No step but outside corruption turns a backup that decodes into one that does
      not: it may be the only good copy left. */
  lemma GoodBackupIsNeverLost(c: Codec, s: State, l: Step)
    requires PreservesValues(c) && Reachable(c, s) && Enabled(c, s, l) && !l.CorruptBackup?
    requires BackupDecodes(c, s.disk.fs)
    ensures BackupDecodes(c, Apply(c, s, l).disk.fs)
  {
    ReachableInv(c, s);
  }

  lemma MainStays(c: Codec, s: State, l: Step)
    requires Inv(c, s) && Enabled(c, s, l) && !l.CorruptMain? && MainDecodes(c, s.disk.fs)
    ensures MainDecodes(c, Apply(c, s, l).disk.fs) && s.disk.renamed <= Apply(c, s, l).disk.renamed
  {
  }

  lemma {:induction false} MainStaysOverRun(c: Codec, s: State, ls: seq<Step>)
    requires PreservesValues(c) && Inv(c, s) && CanRun(c, s, ls)
    requires MainDecodes(c, s.disk.fs)
    requires forall l | l in ls :: !l.CorruptMain?
    ensures MainDecodes(c, Run(c, s, ls).disk.fs) && s.disk.renamed <= Run(c, s, ls).disk.renamed
    decreases |ls|
  {
    if ls != [] {
      StepInv(c, s, ls[0]);
      MainStays(c, s, ls[0]);
      MainStaysOverRun(c, Apply(c, s, ls[0]), ls[1..]);
    }
  }

  /** Without outside corruption of the main file, whatever is cut short by crashes,
      it always holds the content last renamed into place, and an open answers with it. */
  lemma CrashKeepsLastRenamed(c: Codec, s: State, ls: seq<Step>, s': State)
    requires PreservesValues(c) && Reachable(c, s) && CanRun(c, s, ls) && s' == Run(c, s, ls)
    requires MainDecodes(c, s.disk.fs)
    requires forall l | l in ls :: !l.CorruptMain?
    ensures s.disk.renamed <= s'.disk.renamed && s'.disk.renamed != []
    ensures s'.disk.fs.main == Some(s'.disk.renamed[|s'.disk.renamed| - 1])
    ensures OpenResult(c, s'.disk.fs).Some?
    ensures OpensAs(c, s'.disk.renamed[|s'.disk.renamed| - 1], OpenResult(c, s'.disk.fs).value)
  {
    ReachableInv(c, s);
    RunInv(c, s, ls);
    MainStaysOverRun(c, s, ls);
  }

  /** A flush that returned nil survives any crash that follows: until the next
      rename or corruption, every open reads the flushed document. */
  lemma AcknowledgedFlushSurvives(c: Codec, s: State, doc: Values, ls: seq<Step>)
    requires PreservesValues(c) && Reachable(c, s)
    requires s.pc.Renaming? && EncodeEnvelope(c, doc) == Some(s.pc.buf) && Enabled(c, s, Rename)
    requires CanRun(c, Apply(c, s, Rename), ls)
    requires forall l | l in ls :: !l.CorruptMain? && !l.Rename?
    ensures OpenResult(c, Run(c, Apply(c, s, Rename), ls).disk.fs) == Some(UpgradeLayout(NormalizeValues(doc)).0)
  {
    ReachableInv(c, s);
    StepInv(c, s, Rename);
    EnvelopeRoundTrip(c, doc);
    var s1 := Apply(c, s, Rename);
    assert s1.disk.renamed[|s1.disk.renamed| - 1] == s.pc.buf;
    ReachableStep(c, s, Rename);
    CrashKeepsLastRenamed(c, s1, ls, Run(c, s1, ls));
    NoRenameNoChange(c, s1, ls);
  }

  lemma {:induction false} NoRenameNoChange(c: Codec, s: State, ls: seq<Step>)
    requires CanRun(c, s, ls)
    requires forall l | l in ls :: !l.Rename?
    ensures Run(c, s, ls).disk.renamed == s.disk.renamed
    decreases |ls|
  {
    if ls != [] {
      NoRenameNoChange(c, Apply(c, s, ls[0]), ls[1..]);
    }
  }
}

/** The functions of go/store_file.go and newFilePersistence, performing the file
    operations one after the other; any of them may report an error. */
module StoreFileFunctions {
  import opened GoValues
  import opened StoreLayout
  import opened StoreEnvelope
  import opened StoreFileProtocol

  class StoreFile {
    const c: Codec
    var s: State

    ghost predicate Valid()
      reads this
    {
      PreservesValues(c) && Reachable(c, s)
    }

    constructor (c: Codec)
      requires PreservesValues(c)
      ensures Valid() && this.c == c && s == Init()
    {
      this.c := c;
      s := Init();
      assert CanRun(c, Init(), []);
      assert Run(c, Init(), []) == Init();
    }

    /** Performs the operation `l`, or reports the error it met. */
    method Try(l: Step, faulty: bool) returns (ok: bool)
      requires Valid() && Enabled(c, s, l) && Enabled(c, s, Fail(true)) && !l.Launch?
      modifies this
      ensures Valid() && (!faulty ==> ok)
      ensures s.pid == old(s.pid) && s.launched == old(s.launched)
      ensures ok ==> s.pc == NextPc(c, old(s), l) && s.disk == NextDisk(old(s), l)
      ensures !ok ==> s.pc == AfterFailure(old(s.pc))
      ensures !ok ==> s.disk.fs.main == old(s.disk.fs.main) && s.disk.fs.bak == old(s.disk.fs.bak)
    {
      var fails, removed: bool := *, *;
      ok := !(faulty && fails);
      var step := if ok then l else Fail(removed);
      ReachableStep(c, s, step);
      s := Apply(c, s, step);
    }

    /** `writeStoreBytes`: on success the file holds `buf`, on an error it is as before. */
    method WriteStoreBytes(faulty: bool) returns (ok: bool)
      requires Valid() && s.pc.Creating?
      modifies this
      ensures Valid() && (!faulty ==> ok)
      ensures s.pc == if ok then AfterWrite(c, old(s.pc.next)) else AfterError(old(s.pc.next))
      ensures s.disk.fs.main == if ok then Some(old(s.pc.buf)) else old(s.disk.fs.main)
      ensures s.disk.fs.bak == old(s.disk.fs.bak) && s.launched == old(s.launched)
    {
      ok := Try(Create, faulty);
      if !ok { return; }
      ok := FillTemp(faulty);
      if !ok { return; }
      ok := Try(Rename, faulty);
    }

    /** Write and sync; a write that fails half-way has stored a prefix. */
    method FillTemp(faulty: bool) returns (ok: bool)
      requires Valid() && s.pc.Filling? && s.pc.n == 0
      modifies this
      ensures Valid() && (!faulty ==> ok)
      ensures s.pc == if ok then Renaming(old(s.pc.buf), old(s.pc.next)) else AfterError(old(s.pc.next))
      ensures ok ==> s.pid in s.disk.fs.tmps && s.disk.fs.tmps[s.pid] == old(s.pc.buf)
      ensures s.disk.fs.main == old(s.disk.fs.main) && s.disk.fs.bak == old(s.disk.fs.bak)
      ensures s.launched == old(s.launched)
    {
      var size: int := |s.pc.buf|;
      var short: int := *;
      if faulty && 0 <= short < size {
        ok := Try(Fill(short), faulty);
        if !ok { return; }
      }
      ok := Try(Fill(size), faulty);
      if !ok { return; }
      assert s.pc.buf[..size] == s.pc.buf;
      ok := Try(Sync, faulty);
    }

    /** `backupStoreFile`: errors are logged only; the main file is never touched, and
        the backup is replaced by a whole copy or stays. */
    method BackupStoreFile(faulty: bool)
      requires Valid() && s.pc.BackingUp? && s.disk.fs.main.Some?
      modifies this
      ensures Valid() && s.pc == Running(old(s.pc.doc))
      ensures s.disk.fs.main == old(s.disk.fs.main) && s.launched == old(s.launched)
      ensures s.disk.fs.bak == old(s.disk.fs.main) || (faulty && s.disk.fs.bak == old(s.disk.fs.bak))
    {
      var ok := Try(OpenBackup, faulty);
      if !ok { return; }
      ok := CopyToTemp(faulty);
      if !ok { return; }
      ok := Try(RenameBackup, faulty);
    }

    method CopyToTemp(faulty: bool) returns (ok: bool)
      requires Valid() && s.pc.CopyingBackup? && s.pc.n == 0
      modifies this
      ensures Valid() && (!faulty ==> ok)
      ensures s.pc == if ok then RenamingBackup(old(s.pc.doc), old(s.pc.src)) else Running(old(s.pc.doc))
      ensures ok ==> s.pid in s.disk.fs.bakTmps && s.disk.fs.bakTmps[s.pid] == old(s.pc.src)
      ensures s.disk.fs.main == old(s.disk.fs.main) && s.disk.fs.bak == old(s.disk.fs.bak)
      ensures s.launched == old(s.launched)
    {
      var size: int := |s.pc.src|;
      ok := Try(CopyBackup(size), faulty);
      if !ok { return; }
      assert s.pc.src[..size] == s.pc.src;
      ok := Try(CloseBackup, faulty);
    }

    /** `readStoreFile`: the main file, or the backup put back in its place. */
    method ReadStoreFile(faulty: bool) returns (ok: bool)
      requires Valid() && s.pc.ReadingMain?
      modifies this
      ensures Valid() && s.launched == old(s.launched)
      ensures !ok ==> s.pc.Down?
      ensures !faulty ==> ok == ReadResult(c, old(s.disk.fs)).Some?
      ensures ok ==>
        var r := ReadResult(c, old(s.disk.fs));
        && r.Some?
        && s.pc == Loaded(c, r.value.0, r.value.1)
        && (r.value.1 ==> s.disk.fs.main.Some? && DecodeEnvelope(c, s.disk.fs.main.value) == Payload(r.value.0))
    {
      ok := Try(ReadMain, faulty);
      if ok && !s.pc.ReadingBackup? { return; }
      if !ok { return; }
      ok := Try(ReadBackup, faulty);
      if !s.pc.Creating? { return false; }
      ok := WriteStoreBytes(faulty);
    }

    /** A fresh or upgraded store is written at once; then it opens as `up`. */
    method Initialize(doc: Values, found: bool, faulty: bool) returns (ok: bool)
      requires Valid() && s.pc == Loaded(c, doc, found)
      requires found ==> s.disk.fs.main.Some? && DecodeEnvelope(c, s.disk.fs.main.value) == Payload(doc)
      modifies this
      ensures Valid() && s.launched == old(s.launched)
      ensures ok == s.pc.BackingUp? && !ok == s.pc.Down?
      ensures ok ==> s.pc.doc == UpgradeLayout(doc).0 && MainDecodes(c, s.disk.fs)
      ensures ok ==> OpenResult(c, s.disk.fs) == Some(NormalizeValues(UpgradeLayout(doc).0))
      ensures !faulty && EncodeEnvelope(c, UpgradeLayout(doc).0).Some? ==> ok
    {
      if s.pc.Creating? {
        UpgradeSurvivesRoundTrip(c, doc);
        ok := WriteStoreBytes(faulty);
      } else {
        ok := s.pc.BackingUp?;
        if ok {
          DecodedIsCanonical(c, s.disk.fs.main.value);
        }
      }
    }

    /** `newFilePersistence`. It may fail on a file error, but never answers anything
        but the open of what it found; afterwards the backup is a copy of the main
        file, and reopening both gives the same document. */
    method Open(pid: nat, faulty: bool) returns (doc: Option<Values>)
      requires Valid() && s.pc.Down?
      modifies this
      ensures Valid()
      ensures s.pc == if doc.Some? then Running(doc.value) else Down
      ensures doc.Some? ==>
        && doc == OpenResult(c, old(s.disk.fs))
        && OpenResult(c, s.disk.fs) == Some(NormalizeValues(doc.value))
        && (faulty || s.disk.fs.bak == s.disk.fs.main)
      ensures
        && !faulty
        && OpenResult(c, old(s.disk.fs)).Some?
        && EncodeEnvelope(c, OpenResult(c, old(s.disk.fs)).value).Some?
        ==> doc.Some?
    {
      Launch(pid);
      var found := ReadResult(c, s.disk.fs);
      var ok := ReadStoreFile(faulty);
      if !ok { return None; }
      ok := Initialize(found.value.0, found.value.1, faulty);
      if !ok { return None; }
      doc := Some(s.pc.doc);
      BackupStoreFile(faulty);
    }

    /** The process starts and removes what temp files it can. */
    method Launch(pid: nat)
      requires Valid() && s.pc.Down?
      modifies this
      ensures Valid() && s.pc.ReadingMain? && s.pid == pid && s.launched == old(s.disk)
      ensures s.disk.fs.main == old(s.disk.fs.main) && s.disk.fs.bak == old(s.disk.fs.bak)
    {
      ReachableStep(c, s, Step.Launch(pid));
      s := Apply(c, s, Step.Launch(pid));
      var tmps, bakTmps: set<nat> := *, *;
      var _ := Try(Clean(tmps, bakTmps), true);
    }
  }
}
