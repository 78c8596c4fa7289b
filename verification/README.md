# Verified model of the camera.ui Go SDK's state-keeping core

The SDK lets plugins keep configuration, publish sensors and consume the sensors of
other plugins. This project models the four parts of it in which state is kept and
handed on, and proves what they are there for:

- **The durable config store.** All storages of a plugin share one document. A save
  edits one location under a lock and enqueues the whole document in a coalescing
  writer; one drainer flushes, and every caller whose save went into a flush waits for
  its outcome. Above it, `DeviceStorage` decides with a dirty flag and a sequence number
  when a value has to be written again. Below it lies a file written through a temporary
  sibling, with a backup and self-healing, in an envelope with a checksum.
- **Equality and the sensor property store.** `isEqual` compares numbers by value and,
  on request, lists as multisets; `writeState` decides with it what to store, send to
  the host and announce. Face and object sensors derive names from what is stored.
- **The consumer's view of foreign sensors**, kept by registry events, and the cached
  copy of each such sensor, resynced after the link was down.
- **Reactive operators**: subjects, stateful operators, reference-counted sharing, and
  the pipeline behind `CameraDevice.OnPropertyChange`.

## How it is built

| file | models | form |
|---|---|---|
| `Values.dfy` | Go's `any` with integer widths and float64 rounding | values |
| `FloatRounding.dfy` | conversion of integers to float64 | functions |
| `Equality.dfy` | `isEqual` | loops proved against a permutation-based relation |
| `StoreLayout.dfy` | the document and its locations | functions, refinement of a flat map |
| `StoreHeap.dfy` | the same operations, deep copies and snapshots | objects on the heap |
| `StoreEnvelope.dfy` | number normalization, file envelope | functions, round trips |
| `StoreNormalize.dfy` | the same normalization as it works in place | objects on the heap, shared or not |
| `FilePersistence.dfy` | the file-backed store's load and save | a class over the heap document and the writer |
| `StoreFile.dfy` | file operations with crashes and corruption | state machine, and methods that perform its steps |
| `CoalescingWriter.dfy` | savers, drainer and waiters interleaved | state machine, and the two Go objects |
| `StorageValues.dfy` | merging, defaults, restart, validation | loops and functions |
| `LateWrites.dfy` | the remote store when a put arrives after it was given up | state machine |
| `SchemaEdits.dfy` | the four edits of a storage's schemas | functions, and their loops |
| `DeviceStorage.dfy` | persist and the dirty flag over the writer | state machine, and the class |
| `StoreSystem.dfy` | persists, writer and file operations together, up to a crash and the next open | state machine |
| `Sensor.dfy` | property store, host replica, lifecycle hooks | state machines, and the class |
| `DerivedNames.dfy` | face identities, object labels | loops, runs of reports, classes |
| `ConsumerView.dfy` | the consumed view, its proxies and its event handlers | state machines, and the class |
| `SensorProxy.dfy` | the cached sensor and its resync | state machine, and the class |
| `Observable.dfy` | subjects, operators, `Share` | list functions, state machine, and classes |
| `SharedStreams.dfy` | `Share` over Filter, MergeMap and Pairwise of a behavior subject | state machine, and the objects it is put together from |
| `PropertyChanges.dfy` | `CameraDevice.OnPropertyChange` on it | functions |

Concurrent code is a state machine with one step for each region that holds a lock;
a property of all interleavings is a lemma over every sequence of enabled steps. The
methods of a class say which step they are and what they do to the fields. Go's map
iteration order is left open: loops over a map take any key that is left.

Assumptions, each an ingredient of the statements and nowhere proved: the msgpack
library gives back every value it encoded up to the width of numbers
(`StoreEnvelope.PreservesValues`); the CRC is an arbitrary function; property coercion
is an arbitrary function of property name and value; a remote `put` that reports
success has been applied by then (one that was given up may arrive later, see
`LateWrites`), and so has any flush that returns nil (`CoalescingWriterObjects.Answer`);
one process at a time uses a store file; registry events are handled one after the
other, after `init` and before `close`, and the registry answers a query about a sensor
with that sensor.

Where the code and its comments differ, the model follows the code, and a lemma says
exactly when the comment holds:

- The comment at go/storage.go:442 calls an unchanged value already durable. With a clean flag and no
  persist under way that is so if and only if what is to be persisted now is what the
  last persist took, or what the store was opened with (`PersistProtocol.CleanIsDurableIff`); while
  the newest persist waits, from the moment on at which its snapshot is flushed
  (`PersistProtocol.InFlightIsDurableIff`). It fails for a default that was never written
  (`DeviceStorageObjects.SetUnwrittenDefault`) and while the first write is under way
  (`DeviceStorageObjects.SetWhileInFlight`).
- The comment at go/storage.go:46-47 says that a schema change which flips a key's storable-ness forces the
  next write. `ChangeSchema` does that. `AddSchema`, `RemoveSchema` and `DefineSchemas` flip keys
  without raising the flag; `SchemaEdits.FlipForcesTheWriteIff` says for which edits, and
  `DeviceStorageObjects.SetDroppedKey` is a `DefineSchemas` after which the store keeps a key that is no longer
  storable and the next unchanged set is skipped.
- The comment at go/sensor_base.go:144-145 pairs the lifecycle hooks one to one. In number they are paired
  at every moment, those still due included; but each runs in its own goroutine, and
  while they have run in turn the next one is bound to as well if and only if no more
  than one is due (`SensorLifecycle.HooksStayInTurnIff`).
- The comment at go/observable.go:331-332 has a value dropped when it equals the previous one. The code
  compares with the one emitted last; with a comparison function that is the same on every
  input if and only if equal values are interchangeable (`ObservableOperators.DistinctDropsRepeatsIff`).
- The comment at go/sensor_proxy.go:83-84 says that a resync replaces the view wholesale. The code visits
  the properties the refreshed state has; that replaces the view if and only if every
  cached property is among them (`ProxyProtocol.ResyncReplacesAllIff`, with an input in
  `ProxyProtocol.CachedOnlyPropertyStays`).
- A remote put that was given up after its timeout is reported as failed
  (go/config_persistence.go:251-260), yet may arrive later. The store never goes back if and only if each
  such put finds nothing newer in it (`LateWrites.StoreNeverGoesBackIff`).

## Model

| member | source | states |
|---|---|---|
| `DeepEquality.IsEqual` | go/utils.go:153-211 | true exactly for values equal up to number width and, with `ignoreOrder`, up to a permutation of every list at every level |
| `DeepEquality.EqualAsMultisets` | go/utils.go:181-195 | the first-free-match loop over `used` succeeds if and only if some one-to-one pairing of equal elements exists |
| `DeepEquality.FirstFree` | go/utils.go:184-190 | the inner loop finds the first unused equal element, or shows that there is none |
| `DeepEquality.EqualInOrder` | go/utils.go:173-180 | the ordered list comparison |
| `DeepEquality.EqualEntries` | go/utils.go:197-207 | the map comparison, which looks at one side's keys only, is equality of both key sets and all entries |
| `DeepEquality.GreedyExchange` | go/utils.go:182-190 | taking the first free equal element never loses a pairing: any full pairing that extends the choices so far can be exchanged into one that extends the new choice |
| `DeepEquality.StuckMeansNoMatching` | go/utils.go:191-193 | with no free equal element left no pairing extends the choices so far |
| `DeepEquality.EqualSymmetric` | go/utils.go:153-211 | the relation is symmetric, at every depth |
| `DeepEquality.EqualTransitive` | go/utils.go:153-211 | the relation is transitive, at every depth |
| `DeepEquality.EqualReflexive` | go/utils.go:153-211 | a value equals itself if and only if it holds no NaN |
| `DeepEquality.OrderedImpliesUnordered` | go/utils.go:151-152 | equal with order implies equal without |
| `FloatRounding.ConvertsToNearest` | go/utils.go:213-241 | an integer compares as the float64 nearest to it: no integer of at most 53 bits times a power of two is nearer, and of two as near it is the one even in its last place |
| `CoalescingProtocol.DurablePrefix` | go/config_persistence.go:52-90 | in every interleaving the store holds an enqueued snapshot, never an older one than before, and every save that returned nil stays covered by it |
| `CoalescingProtocol.CoalescingPartition` | go/config_persistence.go:54-90 | enqueues split into contiguous batches, one handle each, and a closed handle carries the outcome of the single flush of its batch's newest snapshot |
| `CoalescingProtocol.SingleDrainer` | go/config_persistence.go:63-86 | one drainer exactly while `inFlight`, a pending flush always has one, and without one nobody waits |
| `CoalescingProtocol.DrainEnds` | go/config_persistence.go:74-90 | with no further enqueue the drain takes at most eight steps and two flush completions, is never stuck, and ends with every handle closed |
| `CoalescingProtocol.BurstCostsTwoFlushes` | go/config_persistence.go:37-38 | from any reachable state on, a burst of saves during which no flush completes costs at most two more flushes |
| `CoalescingProtocol.StepInv` | go/config_persistence.go:54-90 | every step of saver or drainer keeps batches, single drainer, progress, log order and disk coverage |
| `CoalescingProtocol.StepLater` | go/config_persistence.go:54-90 | no step takes back history: the disk never goes back, a resolved handle stays resolved the same way |
| `CoalescingProtocol.DrainStepWorks` | go/config_persistence.go:75-90 | each drainer step lowers an explicit measure and never raises the number of flushes still possible |
| `CoalescingWriterObjects.CoalescingWriter.Enqueue` | go/config_persistence.go:54-68 | folds the snapshot into the pending handle or a new one, starts a drainer exactly if none is alive |
| `CoalescingWriterObjects.CoalescingWriter.TakePending` | go/config_persistence.go:77-85 | takes the pending batch, or ends the drainer |
| `CoalescingWriterObjects.CoalescingWriter.RunFlush` | go/config_persistence.go:87-100 | the handle's error is nil if and only if the flush of its own snapshot returned nil, the error it returned, or the recovered panic; the outcome is Durable exactly for nil; and the store has the snapshot exactly if the flush got it there; whatever is saved meanwhile |
| `CoalescingWriterObjects.CoalescingWriter.Recovered` | go/config_persistence.go:92-100 | nil stays nil, an error stays that error, a panic becomes an error that names it |
| `CoalescingWriterObjects.CoalescingWriter.CloseDone` | go/config_persistence.go:87-88 | closes the handle after its outcome was written |
| `CoalescingWriterObjects.CoalescingWriter.RunOnce` | go/config_persistence.go:76-89 | one round, with any saves before, between and during its regions: it enqueues exactly those and closes one handle with the answer of its own flush, or exits with nobody waiting |
| `CoalescingWriterObjects.CoalescingWriter.RunDrainer` | go/config_persistence.go:75-90 | for any finite schedule of saves that arrive meanwhile the loop ends with no flush pending, and every handle is closed with the answer of the flush of its own snapshot |
| `CoalescingWriterObjects.CoalescingWriter.Arrive` | go/config_persistence.go:54-68 | saves that arrive while the drainer works are enqueued in order, and leave what it works on alone |
| `LateWrites.StoreNeverGoesBackIff` | go/config_persistence.go:251-260 | over every run with puts arriving after they were given up, the store never goes back if and only if each of them finds nothing newer in it |
| `LateWrites.DurableWhileInTime` | go/config_persistence.go:251-260 | then every acknowledged save stays covered by what the store holds |
| `LateWrites.AcknowledgedStayCoveredIff` | go/config_persistence.go:251-260 | acknowledged saves are covered at every moment of a run if and only if no put arrives after a newer save was acknowledged, and none overwrites a newer one that is acknowledged next |
| `LateWrites.CoversIff` | go/config_persistence.go:251-260 | the same for one step |
| `LateWrites.NextWriteCovers` | go/config_persistence.go:251-260 | the next put that gets through covers every acknowledged save again, whatever arrived late before |
| `LateWrites.LatePutUncovers` | go/config_persistence.go:251-260 | a run in which the late put of the first save undoes the acknowledged second one |
| `StoreLayout.SaveReads` | go/store_layout.go:26-69 | a load after a save gives the saved values, none if they were empty, and every other location is untouched |
| `StoreLayout.SaveRefinesFlat` | go/store_layout.go:43-84 | one save of the nested document is one update of a flat map from locations to values |
| `StoreLayout.RunRefinesFlat` | go/config_persistence.go:157-180 | so is every run of saves |
| `StoreLayout.SaveKeepsTidy` | go/store_layout.go:80-84 | a save leaves no empty container behind |
| `StoreLayout.ContainersArePruned` | go/store_layout.go:54-84 | after any run of saves a container exists exactly while some location lives in it |
| `StoreLayout.LocationsInTheDocument` | go/store_layout.go:26-41 | the plugin's values are under "plugin", a camera's under its id in "cameras", a sensor's under its id in "sensors" |
| `StoreLayout.SaveTouchesItsEntryOnly` | go/store_layout.go:43-84 | a save touches no other key of the document and no other entry of its container |
| `StoreLayout.UpgradeIs` | go/store_layout.go:86-99 | off the current layout the sensors go and version 2 is put under "__v", all else stays; on it nothing changes |
| `StoreLayout.UpgradeIsFixedPoint` | go/store_layout.go:86-99 | a second upgrade changes nothing, plugin and camera values survive, sensor values go exactly when the document is rewritten |
| `StoreHeap.DeepCopy` | go/config_persistence.go:292-313 | an equal value that shares no object with the original |
| `StoreHeap.WriteLocation` | go/store_layout.go:43-52 | the in-place write is the write of the document's value, and touches the document and its containers only |
| `StoreHeap.DeleteLocation` | go/store_layout.go:54-69 | the in-place delete is the delete of the document's value |
| `StoreHeap.EnsureChildMap` | go/store_layout.go:71-78 | the child map that is there, or a new empty one in its place |
| `StoreHeap.PruneIfEmpty` | go/store_layout.go:80-84 | removes the container exactly when it is empty |
| `StoreHeap.EditDocument` | go/config_persistence.go:159-166 | the edit of a save: what goes in is a copy, so the caller keeps no reference into the document |
| `StoreHeap.LoadCopy` | go/config_persistence.go:145-155 | a load hands out a fresh copy of the location's values, or nothing |
| `StoreHeap.CloneLevels` | go/config_persistence.go:262-290 | the map and, for the given number of levels below it, the maps it holds are new objects; every other entry is the very object or scalar of the original |
| `StoreHeap.SnapshotStoreDoc` | go/config_persistence.go:262-290 | a snapshot equals the document and reaches no container that a save edits in place; `cameras` is new one level deep and `sensors` three, all the rest is shared |
| `StoreHeap.RemotePersistence.Load` | go/config_persistence.go:224-234 | a load reads the cache and shares nothing with it |
| `StoreHeap.RemotePersistence.Save` | go/config_persistence.go:236-249 | the cache takes the edit, the new snapshot equals it, and every earlier snapshot still equals the cache of its own time |
| `StoreHeap.StillValid` | go/config_persistence.go:262-263 | edits of the live document's containers leave every enqueued snapshot as it was |
| `FilePersistenceObjects.FilePersistence.Save` | go/config_persistence.go:157-180 | the document takes the edit; if it encodes, exactly that encoding is enqueued and reads back as the normalized document, otherwise nothing is enqueued |
| `FilePersistenceObjects.FilePersistence.Load` | go/config_persistence.go:145-155 | a fresh copy of the location's values, or nothing |
| `StoreEnvelope.NormalizeIsCanonical` | go/store_file.go:71-118 | results hold int64, uint64 above its range, and float64 only, and mean the same |
| `StoreEnvelope.NormalizeIdempotent` | go/store_file.go:73-118 | normalizing twice is normalizing once |
| `StoreEnvelope.NormalizeErasesWidth` | go/store_file.go:71-125 | two values have the same normal form if and only if they differ in number width only |
| `StoreNormalize.NormalizeStoreValue` | go/store_file.go:71-118 | in place: the same map or slice object then stands for the normal form of what it stood for, whatever it shares, and every object it reaches keeps its shape |
| `StoreNormalize.NormalizeAt` | go/store_file.go:75-79 | rewriting one map entry leaves the entries already rewritten in normal form, even where they share objects with it |
| `StoreNormalize.NormalizeItem` | go/store_file.go:90-94 | the same for one slice element |
| `StoreNormalize.NormalFormKept` | go/store_file.go:73-94 | rewriting any of the objects a value reaches changes neither its normal form nor its being in normal form |
| `StoreEnvelope.EnvelopeRoundTrip` | go/store_file.go:40-69 | decode after encode gives the normalized document, whatever widths the decoder picks |
| `StoreEnvelope.EnvelopeBytes` | go/store_file.go:40-50 | byte by byte: the magic CUI1, the payload as the library encodes it, and the payload's checksum with its lowest byte first |
| `StoreEnvelope.EncodesIff` | go/store_file.go:40-44 | a document is written exactly if the library encodes it |
| `StoreEnvelope.DecodesIffWellFormed` | go/store_file.go:52-69 | a buffer opens if and only if it starts with these four bytes, ends in the payload's checksum with its lowest byte first, and the payload decodes to a map; then as that map in canonical form |
| `StoreEnvelope.Uint32RoundTrip` | go/store_file.go:48-57 | the checksum reads back as written, its lowest byte first |
| `StoreEnvelope.UpgradeSurvivesRoundTrip` | go/config_persistence.go:128-134 | a document that was upgraded and written is not upgraded again when it is reopened |
| `StoreEnvelope.NormalizeCommutesWithRead` | go/config_persistence.go:145-155 | a reopened document holds at every location the normalized values that were saved there |
| `StoreFileProtocol.OpenReturnsLastRenamedOrBackup` | go/store_file.go:188-224 | after any history of opens, writes, crashes and corruption an open yields the content last renamed into place, or the last backup, and a fresh store only where none was ever written |
| `StoreFileProtocol.GoodBackupIsNeverLost` | go/store_file.go:212-213 | no step of the code turns a backup that decodes into one that does not |
| `StoreFileProtocol.CrashKeepsLastRenamed` | go/store_file.go:141-177 | without outside corruption the main file holds the content last renamed into place, whatever was cut short |
| `StoreFileProtocol.AcknowledgedFlushSurvives` | go/store_file.go:141-177 | a flush that returned nil is what every later open reads, until the next rename or corruption |
| `StoreSystem.AcknowledgedPersistSurvivesCrash` | go/storage.go:477-498 | a persist that returned nil survives a crash at any later moment: every open after it reads at that location, up to number width, what that persist took or one that edited the document later, until the next flush or a corruption of the main file |
| `StoreSystem.StepInv` | go/config_persistence.go:113-180 | every step of storages, writer and file keeps: the main file is the encoding of the snapshot the writer takes for flushed, what is being written is the batch in flight, and every document is on the current layout |
| `StoreSystem.ReadsOverRun` | go/config_persistence.go:113-143 | an open of a store whose main file decodes on the current layout writes nothing and answers that document, however often it crashes |
| `StoreFileProtocol.StepInv` | go/store_file.go:141-257 | every file operation keeps: what decodes is what was last renamed, and a backup was once the store's content |
| `StoreFileFunctions.StoreFile.WriteStoreBytes` | go/store_file.go:141-177 | on success the main file holds the bytes, on any error it is as before |
| `StoreFileFunctions.StoreFile.BackupStoreFile` | go/store_file.go:226-257 | the backup becomes a whole copy of the main file or stays as it was |
| `StoreFileFunctions.StoreFile.ReadStoreFile` | go/store_file.go:188-224 | the main file, or the backup put back in its place, or an error; without file errors it fails exactly if neither decodes |
| `StoreFileFunctions.StoreFile.Initialize` | go/config_persistence.go:128-134 | a fresh or upgraded document is on disk before the open goes on |
| `StoreFileFunctions.StoreFile.Open` | go/config_persistence.go:113-143 | answers only what the directory opens as, succeeds if no file operation fails and something decodes, and leaves a directory that reopens the same way |
| `StorageValues.MergeValues` | go/storage.go:599-614 | the loop computes the recursive merge |
| `StorageValues.MergeValue` | go/storage.go:616-623 | two maps merge, anything else is replaced |
| `StorageValues.MergeLaw` | go/storage.go:599-614 | for every path: the stored value where the stored side decides it, the merge of two maps where both have one, the default otherwise |
| `StorageValues.MergeAbsorbs` | go/storage.go:289-296 | defining the same schemas again changes nothing |
| `StorageValues.MergeRestoresIffCovers` | go/storage.go:599-614 | merging over a default gives a value back unchanged exactly when it has all keys of the default at every level |
| `StorageValues.NormalizeMerge` | go/storage.go:599-614 | merging commutes with the normalization of the load path |
| `StorageValues.GenerateConfigFromSchemas` | go/storage.go:551-561 | the loop computes the defaults, the last field of a key winning |
| `StorageValues.DefaultsKeys` | go/storage.go:551-597 | a key has a default exactly when some field that is no button declares it |
| `StorageValues.DefinedValue` | go/storage.go:551-597 | what defining the schemas gives for a key not stored: the last field of the key that is no button decides, its own default if it has one, else the empty value of its type; a stored value that is no map stays |
| `StorageValues.FindSchemaByKey` | go/storage.go:506-513 | the first field of the key, or none |
| `StorageValues.PersistedValues` | go/storage.go:466-475 | keeps exactly the keys without a schema or with a storable one |
| `StorageValues.PersistsIff` | go/storage.go:466-475 | a key is persisted if and only if the first field of the key, if there is any, is marked for the store and is no button |
| `StorageValues.RestartRestores` | go/storage.go:289-296 | persist, restart and the same schemas again: a persisted key comes back exactly when its value covers the default, scalars always, and any other key comes back as its default or not at all |
| `StorageValues.RestartIsStable` | go/storage.go:289-296 | a second restart changes nothing but number widths |
| `StorageValues.WalksIffAcceptable` | go/storage.go:625-719 | validation accepts a value if and only if every path into it is at most 64 steps long and leads to nil, a boolean, a string, a list, a map, or a finite number that is no integer beyond 2^53 - 1 |
| `StorageValues.StorableNumbersCompareExactly` | go/storage.go:697-719 | two numbers that pass validation compare equal exactly when they are the same number |
| `StorageValues.UnsafeIntegersCollide` | go/storage.go:707-712 | beyond the accepted range two different integers compare equal |
| `StorageValues.StorableSurvivesNormalization` | go/storage.go:625-695 | a value that passes validation holds no NaN and equals what a restart reads |
| `StorageValues.LooseIsOrderedEqual` | go/storage.go:721-770 | the store's comparison is `isEqual` in its order-sensitive mode |
| `PersistProtocol.CleanMeansDurable` | go/storage.go:477-498 | with no persist under way the flag is down exactly when the highest number belongs to a persist that succeeded, and then the store holds its snapshot at this location, whatever other storages saved since |
| `PersistProtocol.StoreHoldsItsSource` | go/storage.go:477-498 | in every reachable state, whatever is under way, the store gives exactly what the last persist enqueued no later than the flushed document put there |
| `PersistProtocol.AcknowledgedPersistStays` | go/storage.go:477-498 | a persist that returned nil is what the store gives from then on, or a later one is |
| `PersistProtocol.CleanIsDurableIff` | go/storage.go:439-445 | with a clean flag and no persist under way the store holds what is to be persisted now if and only if that is what the last persist took, or what the store was opened with before the first |
| `PersistProtocol.InFlightIsDurableIff` | go/storage.go:439-445 | while the newest persist waits the store holds its snapshot exactly from the moment on at which a document no older is flushed |
| `PersistProtocol.DefaultsAreNotDurable` | go/storage.go:289-296 | from every clean and idle state, schemas whose defaults bring a new key leave it out of the store under a clean flag |
| `PersistProtocol.DroppedKeysStayInTheStore` | go/storage.go:289-296 | and schemas that no longer persist a key leave it in the store under a clean flag |
| `DeviceStorageObjects.SetUnwrittenDefault` | go/storage.go:416-448 | after `DefineSchemas`, setting a default to what it is skips the write although the store does not have it |
| `DeviceStorageObjects.SetWhileInFlight` | go/storage.go:416-448 | while the first write is under way a second set of the same value returns although the store does not have it |
| `DeviceStorageObjects.SetDroppedKey` | go/storage.go:289-296 | after a `DefineSchemas` that makes a key not storable the store keeps it, and the next unchanged set is skipped |
| `SchemaEdits.FlipForcesTheWriteIff` | go/storage.go:46-47 | for each of the four schema edits, exactly when a flip of what is persisted raises the flag: `ChangeSchema` always, the others exactly if they flip nothing, in terms of the fields at hand |
| `SchemaEdits.OtherKeysUntouched` | go/storage.go:300-393 | an edit of one key leaves what is persisted of every other key alone |
| `SchemaEdits.ReplaceSchema` | go/storage.go:333-346 | the locked loop replaces the first field of the key, and tells exactly whether some key's persistence flips |
| `SchemaEdits.RemoveSchemaOf` | go/storage.go:372-385 | the locked loop removes the first field of the key |
| `PersistProtocol.OnlyNewestClears` | go/storage.go:491-495 | only a successful persist with the highest number lowers the flag |
| `PersistProtocol.FlipOutlivesStalePersists` | go/storage.go:338-344 | a flag raised by a schema flip stays up until a persist whose snapshot was taken later has succeeded |
| `PersistProtocol.StepInv` | go/storage.go:477-498 | every step of persists, flips, other storages and the drainer keeps numbering, edit order, flag and agreement with the writer |
| `DeviceStorageObjects.DeviceStorage.PersistBegin` | go/storage.go:480-485 | takes the next number and a snapshot of exactly the values of the persisted keys |
| `DeviceStorageObjects.DeviceStorage.PersistEnd` | go/storage.go:489-497 | sets the flag to the outcome if the number is still the highest, and leaves it otherwise |
| `DeviceStorageObjects.DeviceStorage.DefineSchemas` | go/storage.go:289-296 | merges the values over the defaults, after which every default key is present, and leaves the flag alone whatever flips |
| `DeviceStorageObjects.DeviceStorage.SetValue` | go/storage.go:115-158 | rejects what may not be stored; otherwise the key has the given value in canonical form, for nil the schema's default, and is gone only if there is none; every other key stays; a persist follows exactly if the key is stored and the flag is up or something changed |
| `DeviceStorageObjects.DeviceStorage.SetInternalValue` | go/storage.go:416-448 | the same without a schema: the key has the given value in canonical form, nil deletes, every other key stays |
| `DeviceStorageObjects.DeviceStorage.SetConfig` | go/storage.go:238-276 | takes over every key or none: each has its new value in canonical form, merged where both are maps, all others stay; callbacks fire for exactly the keys whose values differ and whose schema has one and is no submit field |
| `DeviceStorageObjects.DeviceStorage.ChangeSchema` | go/storage.go:333-355 | replaces the first field of the key in its place, and raises the flag with a number of its own exactly if some key's persistence flips |
| `DeviceStorageObjects.DeviceStorage.AddSchema` | go/storage.go:300-328 | refuses a known key; otherwise appends the schema and puts its default where there is no value; a persist follows exactly if the field is stored and the value differs; the flag stays as it is |
| `DeviceStorageObjects.DeviceStorage.RemoveSchema` | go/storage.go:372-393 | removes the schema and the value; a persist follows exactly if a persisted value went; the flag stays as it is |
| `DeviceStorageObjects.DeviceStorage.Destroy` | go/storage.go:458-463 | the next snapshot is empty, which deletes the location |
| `Announcements.ReplayEnumeration` | go/sensor_base.go:471-478 | announcing a delta key by key, in any order, tells an observer exactly the delta |
| `SensorProtocol.HostMirrorAgrees` | go/sensor_base.go:438-479 | after every operation of every run the host's replica agrees with the properties, announcements match delta keys and accepted host writes one to one, and an observer can rebuild the properties from them |
| `SensorProtocol.WriteReadsBack` | go/sensor_base.go:448-459 | exactly the keys whose new value is not nil and differs from the stored one, a list in another order counting as equal, hold the new value; all others are as before |
| `SensorProtocol.PermutedRewriteIsSilent` | go/sensor_base.go:453-456 | writing a state that equals the one just written, lists perhaps in another order, takes over nothing |
| `SensorProtocol.RewriteIsSilent` | go/sensor_base.go:453-456 | writing the same state again sends nothing exactly when what the first write took over holds no NaN |
| `SensorObjects.BaseSensor.WriteState` | go/sensor_base.go:438-479 | stores, announces once each and sends as one delta exactly the entries that are not nil and differ from what is stored, a list in another order counting as equal; without any, properties, deltas and announcements stay as they are |
| `SensorObjects.BaseSensor.TakeOver` | go/sensor_base.go:448-459 | the locked loop, for every iteration order, computes that delta |
| `SensorObjects.DeltaIs` | go/sensor_base.go:449-455 | the delta, entry by entry; it is empty exactly if every entry is nil or equal up to the order of lists |
| `SensorObjects.BaseSensor.SetPropertyWithTimestamp` | go/sensor_base.go:540-573 | takes over and announces once a host write that differs, the order of lists included, ignores one that does not, and never sends it back |
| `SensorObjects.BaseSensor.SetActive` | go/sensor_base.go:504-514 | one hook and one connectivity signal for each flip, none otherwise |
| `SensorObjects.BaseSensor.DeactivateQuiet` | go/sensor_base.go:590-599 | one stop hook if it was active, no connectivity signal |
| `SensorLifecycle.HooksArePaired` | go/sensor_base.go:686-730 | in every interleaving, hooks still due included, starts and stops match in number, with one more start exactly while active, and no flip loses its hook |
| `SensorLifecycle.HooksStayInTurnIff` | go/sensor_base.go:698-729 | as long as the hooks have run in turn, every hook that can start next keeps them so if and only if no more than one is due |
| `SensorLifecycle.PromptHooksAlternate` | go/sensor_base.go:698-711 | so over a whole run in which each hook starts before the next flip they run strictly in turn |
| `SensorLifecycle.HooksMayOvertake` | go/sensor_base.go:721-729 | otherwise a stop can run before its start |
| `DerivedNames.MergeIsSortedUnion` | go/sensor_base.go:667-675 | the strictly sorted union of both lists |
| `DerivedNames.StrictListIsUnique` | go/sensor_base.go:667-668 | a set of names has one strictly sorted list |
| `DerivedNames.NormalizeReportedDetections` | go/sensor_base.go:640-665 | nothing if nothing is detected; every reported detection in its place, as reported but for a missing box, which is the whole frame; the fallback for an empty report |
| `DerivedNames.FaceStep` | go/sensor_face.go:88-108 | one report adds its names to the stored ones or clears them, although a permuted list is not stored again |
| `DerivedNames.IdentitiesAreTheNamesInPhase` | go/sensor_face.go:88-108 | after every run of reports `identities` is the one strictly sorted list of the non-empty identities reported since the last report without a face |
| `DerivedNames.FaceHoldsTheLastReport` | go/sensor_face.go:88-108 | after every run `detected` and `detections` are those of the last report: each detection as reported but for a missing box, in some order, or the fallback |
| `DerivedNames.RepeatedFacesAreSilent` | go/sensor_face.go:88-108 | after every run, reporting the last detections again in whatever order takes over nothing |
| `DerivedNames.BeforeIsLexicographic` | go/sensor_base.go:667-675 | the order of the names: the first difference decides, and a proper prefix comes first |
| `DerivedNames.DedupIsTheLabelSet` | go/sensor_object.go:129-143 | the non-empty labels, each once |
| `DerivedNames.CollectLabels` | go/sensor_object.go:129-143 | the loop with its `seen` set computes that list |
| `DerivedNames.DedupKeepsTheOrder` | go/sensor_object.go:129-143 | in the order in which the labels first appear |
| `DerivedNames.LabelsAreTheReportedLabels` | go/sensor_object.go:97-105 | after every run of reports `detected` and `detections` are those of the last report, each detection as reported but for a missing box, in some order, or the fallback; and `labels` has exactly the non-empty reported labels, each once |
| `DerivedNames.RepeatedObjectsAreSilent` | go/sensor_object.go:97-105 | after every run, reporting the last detections again in whatever order takes over nothing |
| `DerivedNames.FaceSensor.ReportDetections` | go/sensor_face.go:88-108 | the report's effect on the property store; where that takes over nothing, nothing is stored, sent or announced |
| `DerivedNames.ObjectSensor.ReportDetections` | go/sensor_object.go:97-105 | the report's effect on the property store; where that takes over nothing, nothing is stored, sent or announced |
| `ConsumerProtocol.ViewIsWhatThePluginKnows` | go/manager_sensor.go:665-803 | from the start to the close, configured plus added minus released is exactly the consumed view, and no sensor of the plugin itself is in it |
| `ConsumerProtocol.AddedAndReleasedAlternate` | go/manager_sensor.go:645-703 | per sensor, additions and releases strictly alternate |
| `ConsumerProtocol.AdmittedIff` | go/manager_sensor.go:581-592 | while running, an event brings a sensor into the view if and only if it offers it as a foreign, exposed sensor of a consumed type that is not one of the plugin's own; it is held as offered, and the plugin hears of it in that call |
| `ConsumerProtocol.ReleasedIff` | go/manager_sensor.go:645-663 | it leaves the view if and only if it is deleted, no longer exposed, or the manager closes; of all but the close the plugin hears |
| `ConsumerProtocol.ConsumedDataStays` | go/manager_sensor.go:667-695 | a sensor that stays consumed keeps the data it was admitted with; an assignment moves its cameras, an announcement does not |
| `ConsumerProtocol.CamerasFollowTheEvents` | go/manager_sensor.go:677-691 | after every run each own and each tracked sensor has the cameras the events since its binding tell: those of its last announcement, moved by every assignment since |
| `ConsumerProtocol.ProxyCalls` | go/manager_sensor.go:691-760 | a re-announcement of a held sensor passes its state to the one proxy, a connectivity event its flag, a resync its answer; exactly one call each, and none without a proxy or an answer |
| `ConsumerProtocol.ProxyLifetimes` | go/manager_sensor.go:594-663 | admission opens one new proxy, release cleans up that sensor's |
| `ConsumerProtocol.ProxiesLiveAsLongAsTheirSensors` | go/manager_sensor.go:594-663 | over every run there is one live proxy for each consumed sensor and no other, so none after the close; each proxy opened is cleaned up exactly once; and every call goes to a live proxy, except that a resync under way may come after the cleanup |
| `ConsumerProtocol.ResyncMayComeLate` | go/manager_sensor.go:621-643 | and it may: a run in which a proxy is refreshed after its cleanup |
| `ProxyPool.CleanedUpOnce` | go/manager_sensor.go:594-663 | a proxy was cleaned up exactly once if it was opened and is not live, and never otherwise |
| `ConsumerProtocol.AddAllShape` | go/manager_sensor.go:237-252 | the start admits exactly the consumable sensors of the registry's list |
| `ConsumerProtocol.FirstEntryIsAdmitted` | go/manager_sensor.go:594-604 | of several entries with one id the first consumable one |
| `ConsumerProtocol.AssignmentsFoldToASet` | go/manager_sensor.go:828-842 | after any assignment events a camera is listed exactly if the described set has it, and a touched one at most once |
| `ConsumerProtocol.ReassignKeepsOrder` | go/manager_sensor.go:829-838 | an assignment event takes the camera out, keeps the others in their order, and puts the camera last if it is assigned |
| `ConsumerObjects.SensorManager.StartUp` | go/manager_sensor.go:221-270 | the start fills the view and configures the plugin with it |
| `ConsumerObjects.SensorManager.OnSensorAdded` | go/manager_sensor.go:667-706 | hands assignments to the plugin's own sensors, admits a new consumable sensor, and has one already held take over the announced state |
| `ConsumerObjects.SensorManager.OnSensorDeleted` | go/manager_sensor.go:724-740 | drops an own sensor and releases a consumed one |
| `ConsumerObjects.SensorManager.OnConnectedChanged` | go/manager_sensor.go:742-760 | tells the held proxy |
| `ConsumerObjects.SensorManager.BeginResync` | go/manager_sensor.go:621-627 | looks the proxy up, or finds the sensor gone |
| `ConsumerObjects.SensorManager.EndResync` | go/manager_sensor.go:629-642 | refreshes the proxy looked up before, unless the fetch failed |
| `ConsumerObjects.SensorManager.OnExposedChanged` | go/manager_sensor.go:762-803 | releases on unexposure, admits what the registry answers on exposure |
| `ConsumerObjects.SensorManager.OnAssignmentChanged` | go/manager_sensor.go:805-842 | moves the camera in the list of every role the sensor has |
| `ConsumerObjects.SensorManager.NextCameras` | go/manager_sensor.go:829-838 | the loop removes the camera and appends it if it is assigned |
| `ConsumerObjects.SensorManager.CloseDown` | go/manager_sensor.go:527-556 | empties the view without a call to the plugin and cleans up every proxy, in whatever order the map yields |
| `ProxyProtocol.CacheAgrees` | go/sensor_proxy.go:83-100 | whenever the link is up and each reconnect, and each sensor registered anew, was followed by its resync, every named host property agrees with the cached copy, and an observer can rebuild the copy from what was announced |
| `ProxyProtocol.ResyncReplacesAllIff` | go/sensor_proxy.go:83-100 | after a resync the copy has refreshed properties only if and only if it had no other before; a property that is only cached stays as it is; and the copy agrees with the refreshed state throughout if and only if each such property is nil |
| `ProxyProtocol.CachedOnlyPropertyStays` | go/sensor_proxy.go:97-99 | such runs: a sensor registered anew with fewer properties while the link was down keeps the others in the copy |
| `ProxyProtocol.OnlyMissedPropertiesAreStale` | go/manager_sensor.go:606-643 | without the resync only properties changed meanwhile can be stale |
| `ProxyProtocol.FailedResyncStaysStale` | go/manager_sensor.go:629-632 | and they can be: a failed fetch leaves the copy stale while the link is up |
| `ProxyProtocol.ResyncAnnouncesOnlyDifferences` | go/sensor_proxy.go:83-100 | a resync announces what differs, and repeated it announces nothing, exactly when that holds no NaN |
| `ProxyObjects.SensorProxy.OnPropertyEvent` | go/sensor_proxy.go:151-157 | the coerced value is taken over and announced with the event's time unless it equals the copy's; an event without a property name is ignored |
| `ProxyObjects.SensorProxy.ApplyRefreshedState` | go/sensor_proxy.go:85-100 | takes over and announces, each once, exactly the properties that differ after coercion; capabilities only if they differ as multisets; the display name unless it is empty |
| `ProxyObjects.SensorProxy.SetConnected` | go/sensor_proxy.go:138-147 | listeners hear of changes only |
| `ProxyObjects.SensorProxy.OnCapabilitiesEvent` | go/sensor_proxy.go:158-164 | a list is taken over with everything but strings dropped |
| `ProxyObjects.StringsInAre` | go/sensor_proxy.go:225-237 | what is taken over of a list are exactly its strings, in their order |
| `ProxyObjects.StringsSurviveTheWire` | go/sensor_proxy.go:225-237 | a list of strings comes through unchanged |
| `ObservableOperators.Pairwise.OnValue` | go/observable.go:363-377 | on every input sequence the outputs are the pairs of neighbours |
| `ObservableOperators.DistinctUntilChanged.OnValue` | go/observable.go:331-361 | the outputs drop each value equal to the one emitted last |
| `ObservableOperators.DistinctDropsRepeatsIff` | go/observable.go:331-361 | that is dropping each value equal to its predecessor, on every input, if and only if values that count as equal are equal to the same values |
| `ObservableOperators.DistinctHasNoRepeats` | go/observable.go:331-361 | no two neighbours of the output are equal, whatever the comparison is |
| `ObservableOperators.ToleranceIsNotDropRepeats` | go/observable.go:347-349 | a tolerance is no such comparison: an input on which the two differ |
| `ObservableOperators.MergeMap.OnValue` | go/observable.go:379-392 | the outputs are the concatenated projections, each with its index |
| `ObservableOperators.Filter.OnValue` | go/observable.go:298-314 | the outputs are the inputs that satisfy the predicate |
| `Subjects.Subject.Next` | go/observable.go:99-116 | each subscriber hears each value accepted since it joined, once, in order |
| `Subjects.Subject.Subscribe` | go/observable.go:140-157 | a subscriber hears what follows; a completed subject takes none |
| `Subjects.Subject.Complete` | go/observable.go:118-138 | drops all subscribers and ignores later values |
| `Subjects.BehaviorSubject.Subscribe` | go/observable.go:237-249 | the current value first, then all that follow, without gap or repetition |
| `Subjects.BehaviorSubject.Next` | go/observable.go:214-220 | remembers and dispatches the value |
| `Subjects.ReplaySubject.Next` | go/observable.go:269-282 | the buffer is the last `bufferSize` values |
| `Subjects.ReplaySubject.Subscribe` | go/observable.go:284-296 | replayed and live values join without a gap |
| `ShareProtocol.ShareCountsAndDelivers` | go/observable.go:394-440 | over every run the count is the number of undisposed subscribers, the upstream is live exactly while it is positive, and each subscriber got exactly the values between its subscribe and its dispose, none emitted while connecting |
| `ShareProtocol.OneUpstreamAtATime` | go/observable.go:411-421 | a new upstream subscription is made only when nobody is left |
| `ShareProtocol.DisposedOnceForAll` | go/observable.go:35-47 | over every run that follows, a disposed subscriber hears nothing more and is counted down once, repeated disposal included |
| `ShareObjects.Share.Subscribe` | go/observable.go:409-424 | connects the first subscriber, counts each |
| `ShareObjects.Share.Detach` | go/observable.go:426-427 | the callback leaves; a repeated dispose asks for no release |
| `ShareObjects.Share.Release` | go/observable.go:428-437 | the last release disposes of the source |
| `ShareObjects.Share.Emit` | go/observable.go:418-420 | every member gets the value |
| `StreamProtocol.EverySubscriberHearsItsSpan` | go/observable.go:394-440 | the same for any source states, projection and filter |
| `StreamProtocol.ConnectionsFollowTheCount` | go/observable.go:409-437 | the first subscriber connects fresh operators at the current state and nothing heard while connecting reaches it, the last release drops them, and nothing in between replaces them |
| `StreamProtocol.SpansAreFixed` | go/observable.go:409-440 | what a subscriber hears begins at the state current at its subscribe, ends at the one current at its first dispose, and stays so |
| `StreamProtocol.StepInv` | go/observable.go:394-440 | every step keeps count, connection and what each subscriber has heard |
| `StreamObjects.ComposedIsChain` | go/camera_device.go:572-595 | Pairwise, MergeMap and Filter together compute, for each two consecutive states, the kept projections |
| `StreamProtocol.ChainAt` | go/camera_device.go:572-595 | each two neighbouring states have their part of what is heard, between the parts of the pairs before and after |
| `StreamObjects.OutputsAreTheChain` | go/camera_device.go:572-595 | so the operator objects of one connection have let through exactly the chain of what they were fed |
| `StreamObjects.SharedStream.Next` | go/camera_device.go:572-597 | a state goes through the subject, the connected operators and the shared subject to every member |
| `StreamObjects.SharedStream.Subscribe` | go/observable.go:409-424 | the first subscriber connects new operators to the subject, whose current value only primes them |
| `StreamObjects.SharedStream.Detach` | go/observable.go:426-427 | the callback leaves, and its span ends |
| `StreamObjects.SharedStream.Release` | go/observable.go:428-437 | the last release takes the operators off the subject |
| `PropertyChanges.ChangedPropsAreTheDifferingLeaves` | go/camera_device.go:1011-1035 | the changed properties are exactly the tracked leaves whose values differ, in declaration order through embedded structs |
| `PropertyChanges.NoChangeNoEvent` | go/camera_device.go:1011-1035 | no property is reported exactly when the tracked parts are the same |
| `PropertyChanges.ChangesOfOnePair` | go/camera_device.go:574-595 | an event for a tag exactly if it is selected and a tracked leaf of that tag differs |
| `PropertyChanges.ChangesOfOnePairInOrder` | go/camera_device.go:574-595 | the events of a pair are exactly one for each tracked leaf that differs and is selected, in declaration order, under its json name, with the older camera first |
| `PropertyChanges.LeavesAre` | go/camera_device.go:1014-1027 | tracked are all plain fields, those of embedded structs included, but ID and those whose json tag is empty or "-" |
| `PropertyChanges.BeforeCommaIs` | go/camera_device.go:1027-1029 | the name is what comes before the first comma of the tag |
| `PropertyChanges.SelectedChangesAreTheStep` | go/camera_device.go:574-595 | the projection and the filter of `OnPropertyChange` together give the selected changes of a pair, whatever its number |
| `PropertyChanges.OnPropertyChange` | go/camera_device.go:566-598 | the observable of a call: `Share` over Filter, MergeMap and Pairwise of the camera subject |
| `PropertyChanges.SubscribersHearTheSelectedChanges` | go/camera_device.go:566-598 | over every run of camera states, subscriptions and disposals, every subscriber, disposed ones included, has heard exactly the selected changes between the consecutive cameras from the one current when it joined to the one current when it left; the count is the number not disposed, and the operators are connected exactly while it is positive |

## Left out

- CoalescingWriterObjects.CoalescingWriter.RunDrainer: saves arrive whole between two regions of the loop, and finitely many of them; that a drainer's region may also fall between the edit and the enqueue of a save is part of `CoalescingProtocol`.
- A deleted main store file: the code opens a fresh store then, so the crash claims are about a present file, readable or corrupt.
- Power loss: the backup is not synced, so only a crash of the process is modelled.
- The msgpack wire format, RPC clients and subjects, process start and stop, logging: plumbing around the state modelled here.
- `json.Number`, `[]byte` and reflective typed slices in store values.
- NaN inside structs: struct values are leaves with plain equality.
- Maps with keys of any type, which `normalizeStoreValue` copies into string-keyed ones: every map here has string keys.
- The `OnGet`, `OnSet` and `OnClick` callbacks of schemas, and what they write back.
- Value maps of storages as shared heap objects: `DeviceStorage.Values` is a value here, so a caller mutating a map it got from `GetValue` is not captured.
- A write between the registration's copy of the properties and the moment the update function is set: the replica is taken to start equal.
- Property updates of one sensor racing each other between the locked region of `writeState` and the sending of its delta: runs are sequential.
- Registry events that race `init`, and a resync that races a live event.
- Binding of adopted sensors and the plugin's discovery callbacks: only their effect on the maps of own sensors is modelled.
- Proxies as objects inside the consumer's view: the view numbers its proxies and records the calls to them, `ProxyObjects.SensorProxy` models what a call does to one.
- A callback that is still being called while it is disposed, and callbacks that subscribe or dispose from within: emissions are atomic.
- Other subscribers of the camera subject: the subject behind a shared stream has that stream only.
- `FirstValueFrom`, `Map`, completion notification, sensors with a single value, coercion tables, contract validation and URL builders: they would only add easy members.
