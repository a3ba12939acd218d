# Vestige: a verified model

Vestige keeps deduplicated snapshots of directories in an object store. Files are cut into content-defined chunks,
chunks are stored under the SHA-256 of their content and never replaced, and a snapshot comes into being when its
manifest object is created. These Dafny files model that repository and prove what it promises.

| files | what they model |
|---|---|
| `Words`, `Chunker`, `ChunkProperties` | the buzhash splitter over its ring buffer, the declarative specification it refines, and the shape and locality of the chunks |
| `Model`, `Published` | manifests, sealing, the chunk codec, object keys, and what the objects of a store mean to an open repository |
| `Nesting` | how `ReadManifest`, `LatestSnapshot` and `Snapshots` call each other, and when they return |
| `Keys` | configurations, wrapped keys, and handles that race to initialize, open and rotate |
| `Protocol`, `Invariants`, `Locks`, `Durability` | any number of commands over any number of repositories, interleaved at every store operation and crashing anywhere |
| `Pool`, `ChunkPipeline`, `Traces`, `BackupManifest`, `BackupCounts`, `Sums` | the goroutines of a backup: bounded channels, workers, collectors, how their operations are steps of the protocol, the manifest they justify, and what they count |
| `LocalLock` | the write lock over a store that deletes conditionally in two steps |
| `Retention`, `Timestamps` | the retention scan, and the order of snapshot IDs |
| `Store`, `Repository`, `Collection`, `Check`, `Verify`, `Replicate`, `Prune` | one command at a time, as the methods of the repository: put, read, publish, list, restore a file, rotate, collect, delete, check, verify, replicate, prune |
| `Tree`, `Restore`, `RestoreSnapshot`, `Damage` | a destination with files, links and directories, the restore of an entry and of a whole snapshot, and what can be restored from a damaged store |

The commands appear twice on purpose. The `Protocol` module takes every store operation as one step and proves what
survives all interleavings. The class `Repository` and the methods around it follow the code of one command
statement by statement, with a store whose operations may fail at any point, and a failing write may or may not have
taken effect; their contracts say exactly what is left behind.

Assumptions, all stated where they are used:

- `NoCollision`: SHA-256 (section 6.2 of FIPS 180-4) has no collision among the contents that occur.
- Sealing is ideal. An envelope opens only with the key and the associated data it was sealed with, as AES-GCM
  (section 7 of NIST SP 800-38D) is meant to behave; a key derived by PBKDF2 (section 5.2 of RFC 8018) is a function
  of passphrase, salt and iteration count, and different inputs give different keys.
- `Lossless`: gzip and zstd decode what they encoded. The five-byte zstd envelope is concrete.
- The store's conditional writes are atomic, as `If-Match` and `If-None-Match` are (sections 13.1.1 and 13.1.2 of
  RFC 9110), and versions are unique per write.
- `Respects`, for durability only: a stale recovery does not take the lock from a writer that is still at work.

What the proofs brought to light:

- `Check` keeps one object per base name, and a collection deletes every object. The two agree on the number of
  orphans exactly when no orphan has a malformed name and no two share one (`Check.OrphanCountsAgree`); a concrete
  store where they differ is `Check.DuplicateOrphansDiffer`.
- `ReadManifest` takes the ID latest for a selector, and `Snapshots` hands it every ID it finds in a listing. A
  manifest stored under that name makes `Snapshots`, `LatestSnapshot` and `ReadManifest` call each other without end
  (`Nesting.OnlyLatestRecurses`). They return for every order of the listing if and only if no such key is listed
  (`Nesting.ReturnsExactlyWithoutLatest`); in a fixed order an unreadable manifest that comes first also ends the
  call, with its error (`Nesting.OverflowExactly`). The methods have a bounded stack, the constant `depth`; running
  out of it is the error `Overflow`, which ends the process: a collection, a deletion or a replication then leaves its
  lock behind. No command of the program stores such a manifest (`Durability.SnapshotsAlwaysReturn`).
- That `RestoreFile` never writes anything but a prefix of the original, whatever is damaged, holds if and only if the
  repository is encrypted (`Damage.PrefixExactlyWhenEncrypted`).
- When a rename is refused, `replaceFile` removes the destination before it tries again. What stood there is lost
  exactly when the removal succeeds and the second rename is refused (`Restore.ReplaceFile`); a restore can lose in
  this way the one path at which it stops (`RestoreSnapshot.RestoreWithOptions`). A link that takes the place of a
  file always removes it first (`Restore.RestoreLink`).
- A manifest is sorted by path as a string, but the walk of a backup goes by components. An alias that the walk visits
  after its file may sort before it, and then the snapshot cannot be restored into an empty destination
  (`RestoreSnapshot.AliasSortsFirst`); hard links are restored there exactly if their targets are smaller strings
  (`RestoreSnapshot.FreshExactly`, `RestoreSnapshot.SortedTargets`). Over an old copy the restore can succeed, and the
  alias keeps the old content (`RestoreSnapshot.AliasIsStale`).
- The local store deletes conditionally in two steps, so that a stale recovery can remove a lock that another one has
  just taken (`LocalLock.RecoveryRemovesAnother`). Among three or more commands the lock excludes in every run if and
  only if a conditional delete is one step, as it is on S3, or no two commands may recover
  (`LocalLock.ExclusiveExactly`).
- The file pool cannot deadlock after an early error return because its result channel has a slot for every job, which
  is enough (`Pool.WellFormed` asks for it); the chunk pool needs no such room, since its collector never stops early.

`dafny verify dfyconfig.toml` verifies the project.

## Model

| member | source | states |
|---|---|---|
| Words.RotXor | internal/chunker/chunker.go:66-71 | Rotation distributes over xor, for all words and amounts |
| Words.RotAdd | internal/chunker/chunker.go:66-71 | Rotating by m and then by n is rotating by m + n |
| Words.RotPeriodic | internal/chunker/chunker.go:71 | Rotating by `Window%64` is rotating by `Window`, also for windows of 64 bytes and more |
| Words.MaskDivides | internal/chunker/chunker.go:46-73 | A word has no bit of a k-bit mask exactly when 2^k divides its value |
| Words.OfNatLow | internal/chunker/chunker.go:46 | Converting a number to a 64-bit word and reading its value back loses nothing that fits |
| Words.PowerOfTwoTest | internal/chunker/chunker.go:28-30 | For every positive 63-bit t, `t&(t-1) == 0` exactly when t is a power of two |
| Words.MaskIsModulus | internal/chunker/chunker.go:46-73 | For a power of two t, `w & (t-1) == 0` exactly when t divides w |
| Chunker.AcceptedMeaning | internal/chunker/chunker.go:24-32 | `Validate` accepts exactly the configurations with positive, ordered sizes and a power-of-two target |
| Chunker.DirectSnoc | internal/chunker/chunker.go:63-66 | While the window fills, rotate-and-xor turns the fingerprint of the window into that of the window with one byte more |
| Chunker.DirectSlide | internal/chunker/chunker.go:67-72 | On a full window the rolling update equals the fingerprint computed afresh without the oldest byte and with the new one, for every window size |
| Chunker.CutNowIsCutAt | internal/chunker/chunker.go:73 | The masked test on the rolling fingerprint and the counters decides the declarative cut: maximum reached, or minimum and window reached and the target divides the fingerprint of the last window |
| Chunker.Splitter.constructor | internal/chunker/chunker.go:40-46 | The splitter starts with nothing consumed and nothing emitted, in buffers of its own |
| Chunker.Splitter.Extend | internal/chunker/chunker.go:63-66 | Keeps ring buffer and fingerprint equal to the last bytes consumed while the window fills |
| Chunker.Splitter.Slide | internal/chunker/chunker.go:67-71 | Keeps ring buffer and fingerprint equal to the last `Window` bytes consumed, whatever cuts lie among them |
| Chunker.Splitter.Roll | internal/chunker/chunker.go:63-72 | One byte more consumed, the window still right |
| Chunker.Splitter.Append | internal/chunker/chunker.go:62 | The buffer holds what was consumed since the last cut |
| Chunker.Splitter.Feed | internal/chunker/chunker.go:61-73 | After a byte, a cut is reported exactly where the specification has one |
| Chunker.Splitter.Next | internal/chunker/chunker.go:61-73 | Nothing emitted so far is touched by a byte; what is not cut leaves room for one byte more |
| Chunker.Splitter.Flush | internal/chunker/chunker.go:48-57 | Hands the buffer over and goes on with a fresh one |
| Chunker.Splitter.Emit | internal/chunker/chunker.go:48-57 | The emitted slice holds the current chunk, shares no array with any other, and is never written again; a refused chunk is not counted as emitted |
| Chunker.Splitter.Take | internal/chunker/chunker.go:61-77 | One byte keeps the emitted chunks those that the specification puts first |
| Chunker.Splitter.TakeAll | internal/chunker/chunker.go:60-78 | So does one read, however long |
| Chunker.Splitter.Run | internal/chunker/chunker.go:59-85 | The outer loop ends with all chunks at the end of the input, with those closed by a cut where the reader failed, and with a proper beginning where the callback refused |
| Chunker.Splitter.Finish | internal/chunker/chunker.go:79-81 | At the end of the input the rest is emitted, and then the chunks are all of them |
| Chunker.Split | internal/chunker/chunker.go:36-86 | For every accepted configuration, input, slicing by the reader and refusal by the callback: the emitted chunks are the specified ones, or a proper beginning of them where the callback failed, or those closed by a cut where the reader failed; the emitted buffers are fresh, distinct and unchanged at the end |
| ChunkProperties.PiecesShape | internal/chunker/chunker.go:48-81 | Chunks concatenate to the input, none is empty or longer than MaxSize, all but the last have MinSize bytes |
| ChunkProperties.ChunkCount | internal/chunker/chunker.go:48-81 | n bytes give between ceil(n/MaxSize) and ceil(n/MinSize) chunks, none exactly when n = 0 |
| ChunkProperties.ChunksUnique | internal/chunker/chunker.go:59-85 | A sequence is the chunks of the data exactly when it cuts the data at every cut and nowhere else |
| ChunkProperties.SharedCut | internal/chunker/chunker.go:73 | Whether a common suffix is cut at an offset does not depend on what went before, once MinSize after the last boundary covers the window |
| ChunkProperties.Resynchronize | internal/chunker/chunker.go:59-78 | Two streams with a common suffix and a boundary at the same offset k of it, k + MinSize >= Window, have identical chunks from there on |
| ChunkProperties.PrefixPieces | internal/chunker/chunker.go:59-78 | Cutting the input at one of its boundaries leaves the chunks before it as they were |
| ChunkProperties.SplitDistributes | internal/chunker/chunker.go:59-78 | With MinSize >= Window, the chunks of a+b are those of a and then those of b whenever the length of a is a boundary of a+b, although the window is never reset |
| Model.CodecRoundTrip | internal/repository/repository.go:510-561 | Decoding undoes encoding under all three compression policies; a zstd chunk is at most five bytes longer than its plaintext |
| Model.StoredChunkReads | internal/repository/repository.go:422-508 | What `PutChunk` stores for some data is read back as that data, sealed or not, under every policy |
| Model.ReadHashes | internal/repository/repository.go:503-506 | Whatever is stored, bytes that are returned for an ID hash to that ID |
| Keys.OpeningIsExact | internal/repository/repository.go:270-310 | A configuration opens with exactly one passphrase and then yields exactly its data key, with and without a wrapped key |
| Keys.StepKeepsKey | internal/repository/repository.go:147-357 | One store operation of any racing initialization, open or rotation leaves the data key of the repository unchanged |
| Keys.RunKeepsKey | internal/repository/repository.go:147-357 | So does every run; from the first stored configuration on there is one data key |
| Keys.AllHandlesShareTheKey | internal/repository/repository.go:147-202 | Any two handles that are open at any times of a run hold the same data key and the same compression policy |
| Keys.OnlyTheLatestPassphraseOpens | internal/repository/repository.go:314-357 | The passphrase of the latest successful rotation opens the repository and yields the key of every open handle; no other passphrase opens an encrypted one |
| Keys.RotationRewraps | internal/repository/repository.go:338-343 | A rotation changes the key wrapper and nothing else, also for a legacy configuration without a wrapped key, and the old passphrase no longer opens |
| Invariants.OpeningYieldsTheKey | internal/repository/repository.go:270-310 | Opening a repository in any reachable state yields its own data key and policy |
| Invariants.BackupIsCopyOk | internal/repository/repository.go:569-749 | The manifest of a backup describes files whose pieces concatenate to their content and were all handed to `PutChunk`; `BackupManifest.PoolsJustifyTheManifest` derives its hypothesis from the pools |
| Invariants.StepKeepsBase | internal/repository/repository.go:422-849 | Every step of every command keeps: chunk objects hold a content that hashes to their name, manifests describe what was backed up, lock versions are not shared |
| Invariants.RunKeepsBase | internal/repository/repository.go:422-849 | The same over every run, with crashes anywhere and without any assumption on stale locks |
| Locks.AtMostOneHoldsTheLock | internal/repository/lock.go:28-69 | In every state of every run of any number of commands, at most one claims the version stored under write.lock |
| Locks.OnlyEvictionTakesTheLock | internal/repository/lock.go:59-99 | No step of another command takes the lock from its holder except a stale recovery that removes exactly that version; the release of a superseded holder never does |
| Locks.HolderKeepsTheLock | internal/repository/lock.go:91-99 | A holder's own steps end its claim only by releasing or crashing |
| Locks.ClaimsAreCreated | internal/repository/lock.go:34-38 | Whoever claims a version created that very lock object |
| Locks.LostOnlyByEviction | internal/repository/lock.go:28-99 | A command that claims a version holds the lock, or a stale recovery removed that version earlier in the run |
| Locks.OneRecovererWins | internal/repository/lock.go:59-66 | Of all recoverers of one stale lock at most one removes it; the eviction of every later one changes nothing |
| Locks.RetiredForever | internal/repository/lock.go:61-66 | A removed lock version never comes back |
| Locks.VersionsAreNeverShared | internal/repository/lock.go:34-38 | A lock version belongs to one command for the whole run |
| LocalLock.StepKeepsInv | internal/repository/lock.go:28-99 | With one-step deletes, or with one command that may recover, each step keeps that whoever believes to hold the lock holds it |
| LocalLock.RecoveryRemovesAnother | internal/repository/store.go:114-131 | With two-step deletes and two commands that may recover from a third that crashed, there is a run in which both hold the lock, although only the lock of the crashed command was found stale |
| LocalLock.ExclusiveExactly | internal/repository/lock.go:59-66 | Among three or more commands the lock excludes in every run in which only locks of crashed commands are found stale, if and only if conditional deletes are one step or no two commands may recover |
| Durability.MostStepsAreCalm | internal/repository/repository.go:422-460 | Steps other than sweeping, unpublishing and publishing only add chunks or touch the lock and the configuration; in particular stray chunk stores of a failed backup do |
| Durability.BystanderStaysSafe | internal/repository/repository.go:569-749 | What one command has established about its repository survives every step of every other command |
| Durability.SweepKeepsComplete | internal/repository/gc.go:48-60 | Each deletion of a sweep, made from marks taken earlier and interleaved with anything, removes no chunk a published manifest refers to |
| Durability.UnpublishKeepsComplete | internal/repository/lifecycle.go:54-58 | Unpublishing leaves every other snapshot complete |
| Durability.PublishKeepsComplete | internal/repository/repository.go:829-849 | A manifest is published only once all its chunks are stored |
| Durability.StepKeepsSafe | internal/repository/repository.go:569-849 | Every step that evicts no live writer keeps the whole invariant |
| Durability.RunKeepsSafe | internal/repository/repository.go:569-849 | The invariant holds in every state of every run of backups, deletions, collections, replications and rotations over any number of repositories, with a crash possible between any two store operations |
| Durability.StoredContentReads | internal/repository/repository.go:486-508 | A stored chunk of a content that occurred reads back as that content |
| Durability.SafeStateRestores | internal/repository/repository.go:948-987 | Every regular file of every published snapshot reads back as the bytes that were backed up |
| Durability.PublishedChunksAreDurable | internal/repository/repository.go:569-749 | In every reachable state every chunk a published manifest refers to is stored, decodes to bytes that hash to its ID, and has the recorded size |
| Durability.PublicationIsVisible | internal/repository/repository.go:842-848 | A successful publication makes exactly that manifest readable |
| Durability.PublicationStays | internal/repository/repository.go:829-849 | No step changes a manifest that stays published |
| Durability.OnlyDeletionRemoves | internal/repository/lifecycle.go:54-58 | A manifest stays in the store through every step but its own deletion: sweeps, rotations, replications, crashes and deletions of other snapshots |
| Durability.StillPublished | internal/repository/lifecycle.go:22-58 | A snapshot that no step of a run deletes keeps its manifest through it, with stale recoveries anywhere |
| Durability.BackupsRestore | internal/repository/repository.go:569-987 | End to end: after a backup has published, whatever follows except a step that deletes this very snapshot, its manifest reads unchanged, all chunks of every regular file can be read, and what `RestoreFile` writes of it on success is exactly the original bytes |
| Durability.SnapshotsAlwaysReturn | internal/repository/repository.go:851-914 | In every reachable state nothing is listed under the name latest, and `Snapshots` returns every manifest whatever the order of the listing |
| Pool.StepKeepsInv | internal/repository/repository.go:687-827 | At every moment each job is in exactly one place: queued, with a worker, among the results or collected |
| Pool.NoDeadlock | internal/repository/repository.go:687-827 | In every reachable state that is not final some goroutine can take a step, also after the collector stopped early |
| Pool.StepDecreases | internal/repository/repository.go:687-827 | Every step brings the end nearer |
| Pool.EveryRunTerminates | internal/repository/repository.go:687-827 | No run is longer than a bound fixed at the start, and a run that cannot go on has brought every goroutine to its end |
| Pool.FinalCollectsAll | internal/repository/repository.go:775-793 | At the end each job has been collected exactly once |
| Pool.CompletedIsPresent | internal/repository/repository.go:799-802 | An outcome once produced is never lost |
| Pool.StepTallies | internal/repository/repository.go:784-790 | Only completing a job adds to a sum over the outcomes |
| ChunkPipeline.ChunkPoolWellFormed | internal/repository/repository.go:766-813 | The chunk pool is an instance of that pool whatever the store does, with channels of twice the number of workers |
| ChunkPipeline.PipelineIsSequential | internal/repository/repository.go:766-827 | For every interleaving, `storeFileChunks` returns the sequential list of IDs and sizes in input order, or an error when some chunk could not be stored |
| ChunkPipeline.FailureIsReported | internal/repository/repository.go:778-825 | A chunk that could not be stored, whenever it happens, ends in an error and no references |
| ChunkPipeline.PipelineTerminates | internal/repository/repository.go:766-827 | The chunk pipeline never deadlocks and ends within 7 steps a chunk and one a worker |
| ChunkPipeline.FilePoolWellFormed | internal/repository/repository.go:687-729 | The file pool, whose workers read a file through a run of its chunk pipeline or fail, is an instance too; its result channel has a slot for every job |
| ChunkPipeline.FileWorkersDrain | internal/repository/repository.go:687-734 | After an early error return all file workers still drain the queue and exit |
| ChunkPipeline.ReadsIsRight | internal/repository/repository.go:704-705 | The entry of a file whose pipeline came to its end with references describes the file: the references are the sequential ones |
| ChunkPipeline.FilesInOrder | internal/repository/repository.go:730-743 | Without an error the collected entries are exactly one per file, each describing its file and read through a pipeline that took place |
| Traces.AdvanceIsAnOperation | internal/repository/repository.go:422-484 | Every store operation of a `PutChunk` in the protocol is an operation of a pipeline worker, which reports a stored chunk exactly when the task ends stored |
| Traces.OperationIsNext | internal/repository/repository.go:422-484 | The converse: an operation of a worker moves the task as it moves the worker |
| Traces.EveryStepGoesOn | internal/repository/repository.go:422-460 | No step of any command takes back a task that a session has recorded as stored |
| Traces.RunKeepsMirror | internal/repository/repository.go:766-827 | Along a run of the protocol in which a pipeline takes its steps, the session knows at every moment the phase of each worker and every chunk that was stored |
| Traces.TracedIsStored | internal/repository/repository.go:766-827 | When such a pipeline has ended without a failure, the session has recorded a stored task for every chunk |
| BackupManifest.ReadIsStored | internal/repository/repository.go:704-705 | All chunks of a file that a worker has read are stored by the session |
| BackupManifest.EntriesDescribeFiles | internal/repository/repository.go:730-737 | The collected entries, put at their indices, describe the files, whatever the interleaving of the workers |
| BackupManifest.PoolsJustifyTheManifest | internal/repository/repository.go:687-749 | When the file pool, whose pipelines run in the session, has ended without a failure, the sorted manifest of fixed and collected entries is one that the protocol lets the session publish: it describes the files, and every chunk it refers to is stored |
| BackupCounts.TurnChangesStore | internal/repository/repository.go:422-460 | A step of any worker changes the store only by completing a creation, by one object of the size it reports |
| BackupCounts.RunKeepsBalance | internal/repository/repository.go:730-742 | As long as nothing failed, the counts so far are the growth of the store so far |
| BackupCounts.CountsMatchTheStore | internal/repository/repository.go:730-742 | For every interleaving of all workers of a successful backup that alone writes chunks, ChunksCreated is the number of new chunk keys, BytesWritten the growth of the physical bytes, and created plus reused the number of chunks |
| Sums.NewChunkAdds | internal/repository/repository.go:450-459 | A new chunk object adds one key and its own size to `Stats` |
| Sums.RemovedChunksSubtract | internal/repository/gc.go:51-60 | Removing chunk objects takes exactly their sizes away |
| Retention.NewestFirstSorts | internal/repository/retention.go:25 | Any sort by descending ID gives the reverse of the ascending list |
| Retention.ScanDecides | internal/repository/retention.go:37-53 | The greedy test takes a snapshot exactly when it is the first of its bucket and fewer buckets than the count come before it |
| Retention.TakeBucket | internal/repository/retention.go:37-53 | One bucket of the scan keeps its set and its counter those of the specification |
| Retention.RetentionCandidates | internal/repository/retention.go:17-62 | The candidates are exactly the snapshots the policy does not protect, newest first; negative counts and unreadable times are errors; its weeks are the ISO weeks (`Timestamps.WeeksAreIsoWeeks`) |
| Retention.LargerCountsKeepMore | internal/repository/retention.go:29-54 | Raising any count never selects more snapshots |
| Retention.FewAreKept | internal/repository/retention.go:29-54 | At most KeepLast + KeepDaily + KeepWeekly snapshots are kept |
| Retention.PruningIsStable | cmd/vestige/prune.go:41-45 | After deleting any part of the candidates, in any order, the same policy protects exactly what it protected before |
| Retention.NothingLeftToPrune | cmd/vestige/prune.go:41-45 | After deleting all candidates the same policy selects nothing |
| Retention.PruningResumes | cmd/vestige/prune.go:41-45 | Once some candidates are gone, the policy selects exactly the others of the list that is left |
| Prune.PruneSnapshots | cmd/vestige/prune.go:25-45 | The command deletes candidates only and on success all of them; wherever it stops, the policy selects in the store that is left exactly the candidates that are still there, so that running it again goes on and after a success selects nothing; exactly when it succeeds on a store that answers |
| Retention.LeadersAreNewest | internal/repository/retention.go:37-53 | When IDs follow time, a bucket is represented by its newest snapshot and only the latest buckets are |
| Retention.ProtectedMeansNewest | internal/repository/retention.go:29-54 | With time-ordered IDs the kept set is the newest KeepLast and the newest of each of the latest KeepDaily days and KeepWeekly weeks, and nothing else |
| Store.ObjectStore.Get | internal/repository/remote_test.go:46-53 | An object and its version, or that there is none |
| Store.ObjectStore.PutIfAbsent | internal/repository/remote_test.go:55-61 | Creates an object only where there is none; on an error it may have taken effect or not, and nothing else changes |
| Store.ObjectStore.ReplaceIfVersion | internal/repository/remote_test.go:63-74 | Replaces exactly the version named |
| Store.ObjectStore.DeleteIfVersion | internal/repository/remote_test.go:76-87 | Removes exactly the version named |
| Store.ObjectStore.Delete | internal/repository/remote_test.go:89-95 | Removes one object, or reports that there is none |
| Store.ObjectStore.List | internal/repository/remote_test.go:97-106 | Every object under a prefix exactly once, with its size |
| Store.AcquireWriteLock | internal/repository/lock.go:28-69 | Succeeds only where there was no lock, or a stale one and a positive lease, and always there if the store does not fail; touches nothing but the lock |
| Store.ReleaseLock | internal/repository/lock.go:91-99 | Removes the lock if it is still this one, and never another |
| Repository.Repository.PutChunk | internal/repository/repository.go:422-460 | Adds at most the one object for the data, also when another worker stores the same data in between, which is then rehashed and not counted; a success means that the chunk reads back, and reports creation and stored bytes as the store grew; on a store that answers it fails exactly where an existing object is damaged |
| Repository.Repository.VerifyChunk | internal/repository/repository.go:462-484 | True only if the stored object decodes to bytes that hash to the ID |
| Repository.Repository.FetchChunk | internal/repository/repository.go:486-508 | Returns only bytes that hash to the ID, with the errors of missing and of damaged objects told apart |
| Repository.Repository.FetchManifest | internal/repository/repository.go:851-879 | Returns only a valid manifest that was sealed for this ID, or the latest one for the selector "latest"; says not found only where there is none; overflows the stack only for "latest" where that name is listed |
| Repository.Repository.ReadWithin | internal/repository/repository.go:851-879 | With room for n nested listings, `ReadManifest` returns what the recursion of that depth does |
| Repository.Repository.LatestWithin | internal/repository/repository.go:904-914 | So does `LatestSnapshot` |
| Repository.Repository.SnapshotsWithin | internal/repository/repository.go:881-900 | So does `Snapshots`, which uses up one listing |
| Repository.Repository.CollectWithin | internal/repository/repository.go:886-899 | Its loop over a listing reads the keys of three parts and stops at the first error |
| Nesting.OverflowExactly | internal/repository/repository.go:851-914 | The mutual recursion of `ReadManifest`, `LatestSnapshot` and `Snapshots` runs out of any stack exactly when the name latest is listed and every listing comes to it before a manifest that cannot be read |
| Nesting.ReturnsExactlyWithoutLatest | internal/repository/repository.go:851-914 | Some depth is enough for every order of the listing if and only if nothing is listed under the name latest |
| Nesting.RecursesForEver | internal/repository/repository.go:851-914 | Where that name is listed and all else can be read, no depth is enough in any order |
| Nesting.OnlyLatestRecurses | internal/repository/repository.go:881-900 | The store whose one manifest has that name: no depth is enough, whatever the object holds |
| Nesting.AnswersExactly | internal/repository/repository.go:881-900 | With room for one call `Snapshots` answers exactly when every listed ID can be read, and then with all manifests |
| Nesting.LatestExactly | internal/repository/repository.go:904-914 | `LatestSnapshot` answers exactly when that is so and there is a snapshot |
| Repository.Repository.PublishManifest | internal/repository/repository.go:829-849 | Creates the manifest object of a valid manifest and never replaces one |
| Published.InsertSorts | internal/repository/repository.go:899 | Sorting keeps the manifests and puts them in ascending order of ID |
| Repository.Repository.Snapshots | internal/repository/repository.go:881-900 | Every published manifest exactly once, by ascending ID, or an error as soon as one cannot be read; never returns where the name latest is listed and all else can be read, and answers whenever every listed ID can be read |
| Published.SnapshotCount | internal/repository/repository.go:881-900 | The list is as long as there are published snapshots |
| Repository.Repository.LatestSnapshot | internal/repository/repository.go:904-914 | The published manifest with the greatest ID; on a store that answers, exactly where there is one and all can be read; the same endless recursion |
| Published.LatestIsUnique | internal/repository/repository.go:904-914 | There is only one latest snapshot |
| Published.SameSelected | internal/repository/repository.go:851-914 | What a selector stands for depends on the manifests only |
| Repository.ListingIsSum | internal/repository/repository.go:1244-1251 | Adding up a listing in any order gives the sum over its keys |
| Repository.Repository.Stats | internal/repository/repository.go:1231-1253 | Chunks and bytes are those of the objects under chunks/, snapshots and logical bytes those of the published manifests; exactly when it succeeds, a listed name latest being one that cannot be read |
| Repository.Repository.RestoreFile | internal/repository/repository.go:948-987 | On success the output is the concatenation of verified chunks of the recorded sizes; on any failure it is a beginning of that; where store and output do not fail it succeeds exactly when the snapshot has that regular file and all its chunks verify |
| Repository.Repository.WriteEntry | internal/repository/repository.go:962-983 | The same for the loop over the chunks of one entry |
| Repository.Repository.RotatePassphrase | internal/repository/repository.go:314-357 | Under the lock only the configuration changes; on success the stored one opens with the new passphrase and yields the same key; the handle's key never changes |
| Collection.MarkingIsLive | internal/repository/gc.go:35-42 | The marks are exactly the IDs that some published manifest refers to |
| Collection.SweepIsOrphans | internal/repository/gc.go:48-53 | The sweep of a listing is exactly the orphans |
| Collection.Sweep | internal/repository/gc.go:48-60 | The loop deletes a growing part of the orphans, counts and adds them up, and stops at the first failure |
| Collection.GarbageCollect | internal/repository/gc.go:20-62 | A completed collection removes exactly the orphans and reports exact figures; a dry run reports the same and removes nothing; a failed one has removed orphans only, and none if some manifest is unreadable, which alone makes it fail on a store that answers; the lock is released there unless the mark phase recurses for ever, and then it stays |
| Collection.SweepingKeepsMarks | internal/repository/gc.go:31-60 | Removing any of the orphans changes no mark, no manifest and no other orphan |
| Collection.SweepingIsSafe | internal/repository/gc.go:48-60 | Wherever a sweep stops, every referenced chunk reads as before |
| Collection.CollectionIsExact | internal/repository/gc.go:31-60 | Afterwards the chunk objects are exactly those referred to, the physical bytes have dropped by ReclaimedBytes, and a second collection finds none |
| Collection.Summarize | internal/repository/lifecycle.go:38-50 | The reported files, logical bytes and distinct chunks are those of the regular files |
| Collection.DeleteSnapshot | internal/repository/lifecycle.go:22-58 | Unpublishes the selected snapshot, resolving "latest" first, and changes nothing else; a dry run changes nothing; the lock stays behind where resolving "latest" recurses for ever, and is released wherever that name is not listed or not asked for |
| Collection.DeletionIsLocal | internal/repository/lifecycle.go:54-58 | Every other snapshot and every chunk read as before |
| Check.ScanManifests | internal/repository/check.go:39-62 | Each unreadable manifest is reported once, and the marks are those of the readable ones; on a store that answers it fails to return exactly if the nested calls that read the name latest do |
| Check.FileKeys | internal/repository/check.go:63-76 | Each malformed chunk key is reported once; the others are filed by base name |
| Check.CheckLive | internal/repository/check.go:77-86 | Each referenced chunk that is missing or damaged is reported once |
| Check.CheckOrphans | internal/repository/check.go:87-92 | Each stored ID that nothing refers to is reported and counted once |
| Check.Check | internal/repository/check.go:37-99 | On a store that answers, the issues are exactly the problems there are, each reported once, with exact counts; a clean report is right about any store; it fails to return exactly if the name latest is listed and every nested listing comes to it before a manifest that cannot be read |
| Check.HealthyMeans | internal/repository/check.go:31 | There is nothing to report exactly when every manifest can be read, every chunk they refer to verifies, and a collection would remove nothing |
| Check.OrphanCountsAgree | internal/repository/check.go:87-91 | The scan counts as many orphans as a collection deletes exactly when no orphan has a malformed name and no two share a base name |
| Check.CanonicalIsDistinct | internal/repository/check.go:68-76 | Chunk objects stored where `PutChunk` stores them meet that condition |
| Check.ReportedOrphansAreCollected | internal/repository/gc.go:51-60 | The reported orphans are exactly the objects a collection deletes if and only if that condition holds |
| Check.DuplicateOrphansDiffer | internal/repository/check.go:74 | Two copies of one chunk in different directories: one orphan reported, two deleted |
| Verify.StateFile.Save | internal/repository/repository.go:1381-1406 | The checkpoint file is replaced as a whole or not at all |
| Verify.CollectIds | internal/repository/verify.go:37-54 | The IDs to verify are those the selected manifests refer to; on a store that answers, exactly when they can be collected, which a listed name latest prevents for a verification of everything |
| Verify.HashAll | internal/repository/verify.go:60-75 | Every ID that is not skipped is hashed, and checkpointed before the next one; it fails exactly at a chunk that does not verify |
| Verify.HashOne | internal/repository/verify.go:64-74 | One chunk is hashed, and the checkpoint then holds it or was not changed |
| Verify.VerifyWithOptions | internal/repository/verify.go:35-82 | On success ResumedChunks + VerifiedChunks = Chunks, every referenced chunk was skipped by the checkpoint or hashed by this run, and the checkpoint is gone; a checkpoint of another repository or selector is refused; exactly when a run succeeds on stores that answer |
| Verify.CheckpointsAreEarned | internal/repository/verify.go:60-75 | Over any sequence of interrupted runs, between which the store may change, every checkpointed ID was hashed successfully by some earlier run |
| Verify.SuccessMeansAllWereHashed | internal/repository/verify.go:60-81 | When a run succeeds, every chunk it was asked about was hashed successfully by it or by an earlier run |
| Verify.ProgressAddsUp | internal/repository/verify.go:69-74 | n runs that each checkpoint one chunk more leave a checkpoint of at least n of the wanted chunks |
| Verify.EnoughRuns | internal/repository/verify.go:60-75 | For a fixed set of n chunks, n such runs leave nothing to hash for the next one |
| Verify.CleanCheckMeansVerified | internal/repository/check.go:31 | A check is clean exactly when a verification of everything would succeed, with the same chunk count, and a collection would find no orphan |
| Replicate.CopyChunk | internal/repository/replicate.go:46-62 | Copies one chunk or fails, and leaves every other chunk and manifest of the target as it was |
| Replicate.CopyRefs | internal/repository/replicate.go:39-62 | Copies each distinct reference once; created and reused add up to their number, created is the number of new chunk keys |
| Replicate.CopySnapshot | internal/repository/replicate.go:29-67 | A snapshot that the target has must be equal; one that it has not is published only with all its chunks |
| Replicate.CopyAll | internal/repository/replicate.go:45-67 | The loop over the source's snapshots succeeds exactly when each of them is replicable, stores failing aside |
| Replicate.ReplicateTo | internal/repository/replicate.go:22-86 | On success every source snapshot is in the target with the same manifest, what is new is complete, and all four counters are exact; on any failure nothing incomplete has been published and nothing stored has changed; a target that has everything is not written to; exactly when it succeeds on stores that answer; the lock is released there unless the source lists the name latest |
| Replicate.ReplicateTwice | internal/repository/replicate.go:45-51 | An immediate second run skips every snapshot, copies none, and succeeds if the first did |
| Replicate.ReplicaReadsTheSame | internal/repository/replicate.go:56-64 | A file whose chunks are in the replica reads there as it does in the source, whatever the two keys and policies |
| Restore.WriteChunks | internal/repository/repository.go:1108-1146 | A file is written with verified chunks of the recorded sizes only, completely or up to a point |
| Tree.ParentIsBelow | internal/repository/repository.go:1083 | Making the parent directory of a path makes exactly the directories above it |
| Tree.Tree.MkdirAll | internal/repository/repository.go:1083 | On a file system that refuses nothing else, the directories are made exactly if no file stands at one of them |
| Restore.ReplaceFile | internal/repository/repository.go:1171-1182 | Succeeds exactly when the first rename does, or the removal and then the second rename, where no rename replaces a directory and only an empty one is removed; what stood there is lost exactly when the removal succeeds and no rename does; no other path changes |
| Restore.RestoreRegular | internal/repository/repository.go:1083-1158 | One regular file with its parent directories: when overwriting, a path keeps its old content until its complete and verified new content takes its place, or exactly the answers lose it; no other path changes |
| Restore.RestoreLink | internal/repository/repository.go:1055-1082 | One symbolic or hard link: what stands at its path is removed first when overwriting, and lost if the link is then refused or a hard link has no target; exactly when each happens |
| Restore.RestoreEntry | internal/repository/repository.go:1033-1158 | The same for an entry of any kind |
| RestoreSnapshot.WorksExactly | internal/repository/repository.go:1033-1158 | After the entries before have been restored, the next one can be restored exactly if its condition and those before hold, conditions on the manifest and on the destination as it was at the start |
| RestoreSnapshot.RestoreWithOptions | internal/repository/repository.go:989-1169 | On success every selected file, link and directory is in place with its complete verified content and nothing else changed; after a failure each path has its old content, or if selected its complete new one (without overwriting, a beginning of a file where nothing was), or is the one at which the restore stopped and lost it; where no path leads through a symbolic link, on a store and a file system that answer, exactly when it succeeds, parent directories included, and exactly which path is lost |
| RestoreSnapshot.LostExactly | internal/repository/repository.go:1033-1182 | Of the paths that were there before, one is gone exactly if the restore gets to its entry, can read it, and the answers for it lose it |
| RestoreSnapshot.FreshExactly | internal/repository/repository.go:989-1169 | Into an empty destination that grants everything a snapshot can be restored exactly if its chunks can be read, no file lies where another entry needs a directory, and every hard link comes after its target |
| RestoreSnapshot.SortedTargets | internal/repository/repository.go:744 | In a manifest sorted by path, that is exactly if the target is the smaller string |
| RestoreSnapshot.AliasSortsFirst | internal/repository/repository.go:670-676 | The walk visits a/x before a-b and records the latter as an alias of the former; the alias sorts first, and this valid, sorted manifest cannot be restored into an empty destination |
| RestoreSnapshot.AliasIsStale | internal/repository/repository.go:1067-1082 | Over an old copy it can; a hard link has what its target has if that was restored earlier, and else keeps what its target held before the restore |
| Damage.DamagedReadsAreGenuine | internal/repository/repository.go:486-508 | Whatever lies in a damaged store, chunks that can be read under the original references are the original pieces |
| Damage.SealedManifestsAreGenuine | internal/repository/repository.go:863-867 | In an encrypted repository a manifest is read as the published one or not at all |
| Damage.RestoredBytesArePrefix | internal/repository/repository.go:948-987 | Under arbitrary damage to chunks, what `RestoreFile` has written of a file of a genuine manifest is a prefix of its bytes, and all of them on success |
| Damage.ForgedClearManifestIsRestored | internal/repository/repository.go:858-878 | Without encryption, for every snapshot and every regular file in it there is a damaged store from which the restore succeeds with bytes that are no prefix of the original |
| Damage.PrefixExactlyWhenEncrypted | internal/repository/repository.go:863-867 | `RestoreFile` writes nothing but a prefix of the original, and on success all of it, under every damage that ideal sealing allows, if and only if the repository is encrypted |
| Timestamps.IdsAreChronological | internal/repository/repository.go:606-607 | The order of snapshot IDs as strings is the order of time to the nanosecond, and equal IDs are equal times, for all four-digit years with their leap days |
| Timestamps.EveryInstantHasAnId | internal/repository/repository.go:606-607 | Every instant of these years has such an ID |
| Timestamps.DaysAreDates | internal/repository/retention.go:38 | Two times fall on one day of the retention policy exactly when they have the same calendar date |
| Timestamps.WeeksAreIsoWeeks | internal/repository/retention.go:46-47 | Two times fall in one week of the retention policy exactly when they have the same ISO year and week, also where the week lies across two years |
| Timestamps.StampedIsTimeOrdered | internal/repository/repository.go:606-607 | Snapshots named after their creation times are in order of time when they are in order of ID |
| Timestamps.StampedProtection | internal/repository/retention.go:29-54 | For such snapshots the kept set is the newest KeepLast and the newest of each of the latest days and weeks, with no assumption on the order of times |
| Timestamps.LatestIsMostRecent | internal/repository/repository.go:902-914 | After any sequence of publications and deletions, the snapshot `LatestSnapshot` returns was created later than every other published one |

## Left out

- S3 client, URLs, pagination and error texts: only the contract of the conditional writes is kept.
- Real SHA-256, AES-GCM, PBKDF2, gzip, zstd and JSON: replaced by the abstractions above. Bytes that were never sealed with a key, or are read without one, do not decode to anything. The table of the hash is any table of at least 256 words.
- Salt lengths and base64 fields of the configuration: only whether the algorithms are the supported ones is kept.
- The directory walk, include and exclude patterns: a backup starts from a list of entries and contents, and the include patterns are any predicate on paths.
- Permissions and times of files and directories: an operation that they refuse is a failure of the file system like any other.
- Paths of a restore that lead through a symbolic link: in the model a link at a directory's place is in the way; the exact conditions of `RestoreSnapshot.RestoreWithOptions` are stated where there is none (`RestoreSnapshot.Straight`).
- Cleaning the destination of a restore, and a destination that is itself a file.
- Wrap-around of 64-bit size sums: sizes are mathematical integers.
- Labels and tags of a manifest: carried along as one opaque field, without the check of their characters.
- Staging directories and `recoverStaging`: they hold nothing a reader looks at.
- Temporary files of the local store, and its `ReplaceIfVersion` as a read and a separate write, which only a rotation uses, under the lock. `Protocol` deletes conditionally in one step; what two steps mean for the lock is in `LocalLock`.
- Order of the reported issues, and the order in which chunks are verified: any order is allowed.
- The recovery kit, the drill, the benchmark harness and the rest of the command line.
- Source files that change while they are read: a file worker may fail for any reason, which covers it.
- Protocol.Apply: staleness is a free choice instead of a clock; a session that has published may go on and publish again, which allows more runs than the program has.
- Store.AcquireWriteLock: one command at a time; what racing commands do to the lock is in `Locks`.
