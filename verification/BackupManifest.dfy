/** From the pools of a backup to the manifest it publishes: once the file pool has
    come to its end without a failure, the manifest describes the files, and every
    chunk it refers to has been stored. */
module BackupManifest {
  import opened Chunker
  import opened ChunkProperties
  import opened Model
  import opened Pool
  import opened ChunkPipeline
  import opened Traces
  import P = Protocol
  import Durability
  import Invariants

  type FileRun = seq<State<(), FileOutcome, ()>>
  type FileSteps = seq<Step<(), FileOutcome, ()>>

  /** The pipelines that took place in this history. */
  ghost function TookPlace(x: History, h: Handle): Took {
    (f: FileJob, ss: ChunkRun, steps: ChunkSteps) => IsTraced(x, h, f.chunks, ss, steps)
  }

  ghost predicate IsTraced(x: History, h: Handle, chunks: seq<Bytes>, ss: ChunkRun, steps: ChunkSteps) {
    exists e, tr :: Pool.IsRun(ChunkPool(h, e, chunks, 1), ss, steps) && Traced(x, h, chunks, e, ss, steps, tr)
  }

  /** All chunks of a file that a worker has read are stored. */
  lemma ReadIsStored(x: History, h: Handle, f: FileJob, entry: FileEntry, d: Bytes)
    requires Reads(h, f, TookPlace(x, h), entry) && d in f.chunks
    ensures Lives(x, x.n, h) && d in P.DoneData(SessionAt(x, x.n))
  {
    hide Initial, Enabled, Apply, Final, Happens, Waits, FileRefs, ChunkPool, IsHistory;
    var e: Surroundings, ss: ChunkRun, steps: ChunkSteps, refs :|
      TookPlace(x, h)(f, ss, steps) && Returns(h, e, f, ss, steps, refs)
      && entry == FileEntry(f.path, File, f.size, refs, "");
    assert IsTraced(x, h, f.chunks, ss, steps);
    var e', tr :| Pool.IsRun(ChunkPool(h, e', f.chunks, 1), ss, steps) && Traced(x, h, f.chunks, e', ss, steps, tr);
    NoneFailed(|f.chunks|, ss[|steps|].collected);
    TracedIsStored(x, h, f.chunks, e', 1, ss, steps, tr, d);
    RecordedUntilTheEnd(x, h, tr.at[|steps|], P.Task(d, P.Stored));
    IsDone(x, h, d);
  }

  lemma NoneFailed(n: nat, collected: seq<Item<Outcome>>)
    requires FileRefs(n, false, collected).Some?
    ensures !AnyFailed(collected)
  {}

  lemma IsDone(x: History, h: Handle, d: Bytes)
    requires Lives(x, x.n, h) && P.Task(d, P.Stored) in SessionAt(x, x.n).tasks
    ensures d in P.DoneData(SessionAt(x, x.n))
  {}

  /** `fileEntries`: each collected entry at its index. */
  ghost predicate AreCollected(entries: seq<FileEntry>, collected: seq<Item<FileOutcome>>) {
    forall i :: 0 <= i < |entries| ==> Item(i, Entry(entries[i])) in collected
  }

  /** The entries describe their files, whatever the interleaving of the workers. */
  lemma EntriesDescribeFiles(h: Handle, files: seq<FileJob>, entries: seq<FileEntry>, fileWorkers: nat, took: Took,
      ss: FileRun, steps: FileSteps, i: nat)
    requires fileWorkers >= 1 && Pool.IsRun(FilePool(h, files, fileWorkers, took), ss, steps) && Final(ss[|steps|])
    requires forall r :: r in ss[|steps|].collected ==> !r.outcome.FileFailed?
    requires |entries| == |files| && AreCollected(entries, ss[|steps|].collected) && i < |files|
    ensures entries[i] == EntryOf(h, files[i]) && Reads(h, files[i], took, entries[i])
  {
    hide Enabled, Apply, FilePool, Reads;
    FilesInOrder(h, files, fileWorkers, took, ss, steps, i);
    assert Item(i, Entry(entries[i])) in ss[|steps|].collected;
  }

  lemma {:induction false} RefsSize(p: Primitives, pieces: seq<Bytes>)
    ensures TotalSize(Refs(p, pieces)) == |Concat(pieces)|
  {
    if pieces != [] {
      var front, last := pieces[..|pieces| - 1], pieces[|pieces| - 1];
      RefsSize(p, front);
      assert Refs(p, pieces)[..|pieces| - 1] == Refs(p, front);
      assert pieces == front + [last];
      ConcatAppend(front, [last]);
      assert Concat([last]) == last;
    }
  }

  /** What `Split` and the walk provide for a file: its content and its chunks. */
  ghost predicate IsSource(env: P.Env, origin: P.Origin, f: FileJob) {
    f.path in origin && origin[f.path].pieces == f.chunks && P.IsSplit(env, origin[f.path])
  }

  lemma FileEntryIsRight(x: History, h: Handle, origin: P.Origin, m: Manifest, f: FileJob)
    requires h.prims == x.env.prims && ValidManifest(m) && EntryOf(h, f) in m.files && Lives(x, x.n, h)
    requires IsSource(x.env, origin, f) && Reads(h, f, TookPlace(x, h), EntryOf(h, f))
    ensures var e := EntryOf(h, f);
            && e.chunks == Refs(x.env.prims, origin[e.path].pieces)
            && e.size == |origin[e.path].content|
            && forall d :: d in origin[e.path].pieces ==> d in P.DoneData(SessionAt(x, x.n))
  {
    hide Reads, P.IsSplit, P.DoneData, P.IsRun;
    assert ValidEntry(EntryOf(h, f));
    RefsSize(x.env.prims, f.chunks);
    Invariants.SplitConcat(x.env, origin[f.path]);
    forall d | d in f.chunks
      ensures Lives(x, x.n, h) && d in P.DoneData(SessionAt(x, x.n))
    {
      ReadIsStored(x, h, f, EntryOf(h, f), d);
    }
  }

  lemma LivesWithHandle(x: History, h: Handle)
    requires Lives(x, x.n, h)
    ensures h.prims == x.env.prims
  {
    hide Invariants.Base;
    Invariants.RunKeepsBase(x.env, x.ws, x.steps, x.n);
    Durability.HandleIs(x.env, x.ws[x.n], x.sid);
  }

  /** The bridge from the goroutines of a backup to the protocol: when the file pool,
      whose workers read files through pipelines of this session, has come to its
      end without a failure, the manifest made of the fixed entries and the
      collected ones, sorted in any way and found valid, is one that
      `BackupWithOptions` may publish. */
  lemma PoolsJustifyTheManifest(x: History, h: Handle, m: Manifest, origin: P.Origin, fixed: seq<FileEntry>,
      files: seq<FileJob>, entries: seq<FileEntry>, fileWorkers: nat, ss: FileRun, steps: FileSteps)
    requires Lives(x, x.n, h) && fileWorkers >= 1
    requires Pool.IsRun(FilePool(h, files, fileWorkers, TookPlace(x, h)), ss, steps) && Final(ss[|steps|])
    requires forall r :: r in ss[|steps|].collected ==> !r.outcome.FileFailed?
    requires |entries| == |files| && AreCollected(entries, ss[|steps|].collected)
    requires forall i :: 0 <= i < |files| ==> IsSource(x.env, origin, files[i])
    requires forall e :: e in fixed ==> !e.kind.File? && e.chunks == []
    requires ValidManifest(m) && PlainId(m.id) && multiset(m.files) == multiset(fixed + entries)
    ensures P.IsBackup(x.env, SessionAt(x, x.n), m, origin)
  {
    hide FilePool, Enabled, Apply, Final, ValidManifest, PlainId, P.DoneData, P.IsSplit, AreCollected, Reads,
      P.IsRun, TookPlace;
    LivesWithHandle(x, h);
    forall e | e in m.files
      ensures Lives(x, x.n, h) && P.IsRightEntry(x.env, SessionAt(x, x.n), origin, e)
    {
      assert e in multiset(fixed + entries);
      assert e in fixed || e in entries;
      if e !in fixed {
        var i :| 0 <= i < |entries| && entries[i] == e;
        EntriesDescribeFiles(h, files, entries, fileWorkers, TookPlace(x, h), ss, steps, i);
        FileEntryIsRight(x, h, origin, m, files[i]);
      }
    }
    IsBackupOf(x, h, m, origin);
  }

  lemma IsBackupOf(x: History, h: Handle, m: Manifest, origin: P.Origin)
    requires Lives(x, x.n, h) && ValidManifest(m) && PlainId(m.id)
    requires forall e :: e in m.files ==> P.IsRightEntry(x.env, SessionAt(x, x.n), origin, e)
    ensures P.IsBackup(x.env, SessionAt(x, x.n), m, origin)
  {
    hide Lives, P.DoneData, P.IsSplit, ValidManifest, PlainId;
  }
}
