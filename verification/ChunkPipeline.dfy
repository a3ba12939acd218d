/** The chunk pipeline of one file, and all pipelines of one backup at once: the
    result is the sequential one, and the counts match the store. */
module ChunkPipeline {
  import opened Chunker
  import opened Model
  import opened Sums
  import opened Pool
  import P = Protocol

  /** What a worker reports for one chunk. */
  datatype Outcome = Put(ref: ChunkRef, created: bool, bytes: nat) | Unstored

  function RefOf(h: Handle, d: Bytes): ChunkRef {
    ChunkRef(h.prims.hash(d), |d|)
  }

  function KeyOf(h: Handle, d: Bytes): ObjKey {
    ChunkKeyOf(h.prims.hash(d))
  }

  /** How the rest of the world behaves: alone, nobody else touches the store;
      reliable, no store operation fails. */
  datatype Surroundings = Surroundings(alone: bool, reliable: bool)

  /** One store operation of `PutChunk` that does not end it. */
  ghost predicate Act(h: Handle, d: Bytes, p: P.Phase, objects: Objects, p': P.Phase) {
    match p
    case Fetch => p' == if KeyOf(h, d) in objects then P.Recheck else P.Store
    case Store => KeyOf(h, d) in objects && p' == P.Recheck
    case _ => false
  }

  /** The store operation that ends it. A failing create may still have stored
      the object. */
  ghost predicate End(h: Handle, e: Surroundings, d: Bytes, p: P.Phase, objects: Objects, o: Outcome,
      objects': Objects) {
    || (!e.reliable && o == Unstored && objects' == objects)
    || (p.Store? && Creates(h, e, d, objects, o, objects'))
    || (&& p.Recheck? && objects' == objects
        && o == if ReadChunk(h, objects, h.prims.hash(d)).Ok? then Put(RefOf(h, d), false, 0) else Unstored)
    || ((p.Stored? || p.Failed?) && o == Unstored && objects' == objects)
  }

  ghost predicate Creates(h: Handle, e: Surroundings, d: Bytes, objects: Objects, o: Outcome, objects': Objects) {
    exists nonce, version :: CreatesWith(h, e, d, objects, o, objects', nonce, version)
  }

  ghost predicate CreatesWith(h: Handle, e: Surroundings, d: Bytes, objects: Objects, o: Outcome, objects': Objects,
      nonce: nat, version: nat) {
    && KeyOf(h, d) !in objects
    && objects' == objects[KeyOf(h, d) := Object(StoredChunk(h, nonce, d), version)]
    && (o == Put(RefOf(h, d), true, Size(StoredChunk(h, nonce, d))) || (!e.reliable && o == Unstored))
  }

  /** The world may have changed the store before the operation. */
  ghost predicate Drifts(e: Surroundings, before: Objects, now: Objects) {
    e.alone ==> now == before
  }

  ghost predicate ActInWorld(h: Handle, e: Surroundings, d: Bytes, p: P.Phase, s: Objects, p': P.Phase, s': Objects) {
    Drifts(e, s, s') && Act(h, d, p, s', p')
  }

  ghost predicate EndInWorld(h: Handle, e: Surroundings, d: Bytes, p: P.Phase, s: Objects, o: Outcome, s': Objects) {
    exists now :: Drifts(e, s, now) && End(h, e, d, p, now, o, s')
  }

  function RankOf(p: P.Phase): nat {
    match p
    case Fetch => 2
    case Store => 1
    case _ => 0
  }

  predicate IsGood(h: Handle, d: Bytes, o: Outcome) {
    o.Put? ==> o.ref == RefOf(h, d)
  }

  /** `storeFileChunks` for the chunks of one file: channels of twice the number
      of workers, a collector that reads to the end. */
  ghost function ChunkPool(h: Handle, e: Surroundings, chunks: seq<Bytes>,
      workers: nat): System<Bytes, P.Phase, Outcome, Objects> {
    System(chunks, workers, 2 * workers, 2 * workers, false, P.Fetch,
           (d, p, s, p', s') => ActInWorld(h, e, d, p, s, p', s'),
           (d, p, s, o, s') => EndInWorld(h, e, d, p, s, o, s'),
           p => RankOf(p),
           (d, o) => IsGood(h, d, o),
           (o: Outcome) => o.Unstored?)
  }

  /** The pool never waits for a failure to get on: it is well formed even when
      every store operation succeeds. */
  lemma ChunkPoolWellFormed(h: Handle, e: Surroundings, chunks: seq<Bytes>, workers: nat)
    requires workers >= 1
    ensures WellFormed(ChunkPool(h, e, chunks, workers))
  {
    hide ReadChunk, StoredChunk, ValidChunkId, ChunkKeyOf;
    var sys := ChunkPool(h, e, chunks, workers);
    forall d, p, s
      ensures CanGoOn(sys, d, p, s)
    {
      PutChunkGoesOn(h, e, chunks, workers, d, p, s);
    }
    forall d, p, s, o, s' | sys.finish(d, p, s, o, s')
      ensures sys.good(d, o)
    {
      var now :| Drifts(e, s, now) && End(h, e, d, p, now, o, s');
    }
  }

  lemma PutChunkGoesOn(h: Handle, e: Surroundings, chunks: seq<Bytes>, workers: nat, d: Bytes, p: P.Phase, s: Objects)
    ensures CanGoOn(ChunkPool(h, e, chunks, workers), d, p, s)
  {
    hide ReadChunk, StoredChunk, ValidChunkId, ChunkKeyOf;
    var sys := ChunkPool(h, e, chunks, workers);
    assert Drifts(e, s, s);
    if p.Fetch? || (p.Store? && KeyOf(h, d) in s) {
      var p' := if KeyOf(h, d) in s then P.Recheck else P.Store;
      assert sys.step(d, p, s, p', s);
    } else if p.Store? {
      var s' := s[KeyOf(h, d) := Object(StoredChunk(h, 0, d), 0)];
      var o := Put(RefOf(h, d), true, Size(StoredChunk(h, 0, d)));
      assert CreatesWith(h, e, d, s, o, s', 0, 0);
      assert End(h, e, d, p, s, o, s');
      assert sys.finish(d, p, s, o, s');
    } else {
      var o := if p.Recheck? && ReadChunk(h, s, h.prims.hash(d)).Ok? then Put(RefOf(h, d), false, 0) else Unstored;
      assert End(h, e, d, p, s, o, s);
      assert sys.finish(d, p, s, o, s);
    }
  }

  /* ---- what storeFileChunks returns ---- */

  /** The collector's map from sequence number to reference. */
  function RefMap(collected: seq<Item<Outcome>>): map<nat, ChunkRef> {
    if collected == [] then map[] else
      var before, last := RefMap(collected[..|collected| - 1]), collected[|collected| - 1];
      if last.outcome.Put? then before[last.job := last.outcome.ref] else before
  }

  predicate AnyFailed(collected: seq<Item<Outcome>>) {
    exists r :: r in collected && r.outcome.Unstored?
  }

  /** The result once the pool has come to its end: the references in sequence
      order, or an error. */
  function FileRefs(n: nat, splitFailed: bool, collected: seq<Item<Outcome>>): Option<seq<ChunkRef>> {
    if splitFailed || AnyFailed(collected) then None
    else
      var refs := RefMap(collected);
      Some(seq(n, i => if i in refs then refs[i] else ChunkRef("", 0)))
  }

  function JobSet(collected: seq<Item<Outcome>>): set<nat> {
    set r | r in collected :: r.job
  }

  lemma {:induction false} RefMapHas(h: Handle, chunks: seq<Bytes>, collected: seq<Item<Outcome>>)
    requires !AnyFailed(collected)
    requires forall r :: r in collected ==> r.job < |chunks| && IsGood(h, chunks[r.job], r.outcome)
    ensures RefMap(collected).Keys == JobSet(collected)
    ensures forall j :: j in RefMap(collected) ==> j < |chunks| && RefMap(collected)[j] == RefOf(h, chunks[j])
  {
    if collected != [] {
      var front, last := collected[..|collected| - 1], collected[|collected| - 1];
      assert collected == front + [last];
      RefMapHas(h, chunks, front);
    }
  }

  /** Whatever the interleaving, `storeFileChunks` returns the references of the
      chunks in input order, or an error when some chunk could not be stored. */
  lemma PipelineIsSequential(h: Handle, e: Surroundings, chunks: seq<Bytes>, workers: nat,
                             ss: seq<State<P.Phase, Outcome, Objects>>, steps: seq<Step<P.Phase, Outcome, Objects>>)
    requires workers >= 1
    requires Pool.IsRun(ChunkPool(h, e, chunks, workers), ss, steps) && Final(ss[|steps|])
    ensures var end := ss[|steps|];
            && FileRefs(|chunks|, false, end.collected)
               == (if AnyFailed(end.collected) then None else Some(Model.Refs(h.prims, chunks)))
            && |end.collected| == |chunks|
  {
    hide WellFormed, Inv, Enabled, Apply;
    var sys, end := ChunkPool(h, e, chunks, workers), ss[|steps|];
    ChunkPoolWellFormed(h, e, chunks, workers);
    RunKeepsInv(sys, ss, steps, |steps|);
    FinalCollectsAll(sys, end);
    CollectedOnce(chunks, end.collected);
    if !AnyFailed(end.collected) {
      forall r | r in end.collected
        ensures r.job < |chunks| && IsGood(h, chunks[r.job], r.outcome)
      {
        assert GoodOutcome(sys, r.job, r.outcome);
      }
      RefMapHas(h, chunks, end.collected);
      assert FileRefs(|chunks|, false, end.collected).value == Model.Refs(h.prims, chunks);
    }
  }

  lemma CollectedOnce(chunks: seq<Bytes>, collected: seq<Item<Outcome>>)
    requires multiset(JobsOf(collected)) == multiset(Range(|chunks|))
    ensures |collected| == |chunks|
    ensures forall i: nat :: i in JobSet(collected) <==> i < |chunks|
  {
    assert |multiset(JobsOf(collected))| == |collected|;
    assert |multiset(Range(|chunks|))| == |chunks|;
    forall i: nat
      ensures i in JobSet(collected) <==> i < |chunks|
    {
      assert i in Range(|chunks|) <==> i in multiset(Range(|chunks|));
      assert i in JobsOf(collected) <==> i in multiset(JobsOf(collected));
      if i in JobsOf(collected) {
        var k :| 0 <= k < |collected| && JobsOf(collected)[k] == i;
        assert collected[k] in collected;
      }
      if r :| r in collected && r.job == i {
        var k :| 0 <= k < |collected| && collected[k] == r;
        assert JobsOf(collected)[k] == i;
      }
      if i < |chunks| {
        assert Range(|chunks|)[i] == i;
      }
    }
  }

  /** A chunk that could not be stored, whenever it happens, ends in an error and
      no references. */
  lemma FailureIsReported(h: Handle, e: Surroundings, chunks: seq<Bytes>, workers: nat,
                          ss: seq<State<P.Phase, Outcome, Objects>>, steps: seq<Step<P.Phase, Outcome, Objects>>,
                          i: nat)
    requires workers >= 1 && i < |steps|
    requires Pool.IsRun(ChunkPool(h, e, chunks, workers), ss, steps) && Final(ss[|steps|])
    requires steps[i].Complete? && steps[i].outcome.Unstored?
    ensures FileRefs(|chunks|, false, ss[|steps|].collected) == None
  {
    hide WellFormed, Apply, Places, Range, EndInWorld, ActInWorld;
    var sys, end := ChunkPool(h, e, chunks, workers), ss[|steps|];
    ChunkPoolWellFormed(h, e, chunks, workers);
    RunKeepsInv(sys, ss, steps, |steps|);
    assert Enabled(sys, ss[i], steps[i]);
    CompletedIsPresent(sys, ss, steps, i, |steps|);
    assert Item(ss[i].workers[steps[i].w].job, steps[i].outcome) in end.collected;
  }

  /** The pipeline of a file cannot deadlock and every run of it ends, with any
      number of workers at least one. */
  lemma PipelineTerminates(h: Handle, e: Surroundings, chunks: seq<Bytes>, workers: nat,
                           ss: seq<State<P.Phase, Outcome, Objects>>, steps: seq<Step<P.Phase, Outcome, Objects>>)
    requires workers >= 1 && Pool.IsRun(ChunkPool(h, e, chunks, workers), ss, steps)
    ensures |steps| <= 7 * |chunks| + workers + 3
    ensures (forall step :: !Enabled(ChunkPool(h, e, chunks, workers), ss[|steps|], step)) ==> Final(ss[|steps|])
  {
    hide WellFormed, Inv, Enabled, Apply;
    var sys := ChunkPool(h, e, chunks, workers);
    ChunkPoolWellFormed(h, e, chunks, workers);
    EveryRunTerminates(sys, ss, steps);
    IdleLeft(sys, ss[0].workers);
  }

  lemma {:induction false} IdleLeft<D, Ph, O, S>(sys: System<D, Ph, O, S>, workers: seq<Worker<Ph, O>>)
    requires forall w :: 0 <= w < |workers| ==> workers[w].Idle?
    ensures WorkersLeft(sys, workers) == |workers|
  {
    if workers != [] {
      IdleLeft(sys, workers[1..]);
    }
  }

  /* ---- the files of one backup ---- */

  /** One regular file the walk found, with the chunks it is split into. */
  datatype FileJob = FileJob(path: string, size: int, chunks: seq<Bytes>)

  datatype FileOutcome = Entry(entry: FileEntry) | FileFailed

  function EntryOf(h: Handle, f: FileJob): FileEntry {
    FileEntry(f.path, File, f.size, Model.Refs(h.prims, f.chunks), "")
  }

  type ChunkRun = seq<State<P.Phase, Outcome, Objects>>
  type ChunkSteps = seq<Step<P.Phase, Outcome, Objects>>

  /** Which runs of chunk pipelines took place. */
  type Took = (FileJob, ChunkRun, ChunkSteps) -> bool

  /** The pipeline of a file, with one chunk worker, has come to its end and
      `storeFileChunks` returned these references. */
  ghost predicate Returns(h: Handle, e: Surroundings, f: FileJob, ss: ChunkRun, steps: ChunkSteps,
      refs: seq<ChunkRef>) {
    && Pool.IsRun(ChunkPool(h, e, f.chunks, 1), ss, steps) && Final(ss[|steps|])
    && FileRefs(|f.chunks|, false, ss[|steps|].collected) == Some(refs)
  }

  /** A file worker has read the file: a pipeline that took place returned the
      references of the entry. */
  ghost predicate Reads(h: Handle, f: FileJob, took: Took, entry: FileEntry) {
    exists e, ss, steps, refs ::
      took(f, ss, steps) && Returns(h, e, f, ss, steps, refs) && entry == FileEntry(f.path, File, f.size, refs, "")
  }

  /** What a file worker has read describes the file, because its pipeline is
      sequential. */
  lemma ReadsIsRight(h: Handle, f: FileJob, took: Took, entry: FileEntry)
    requires Reads(h, f, took, entry)
    ensures entry == EntryOf(h, f)
  {
    hide Final, FileRefs;
    var e, ss, steps, refs :| took(f, ss, steps) && Returns(h, e, f, ss, steps, refs)
                              && entry == FileEntry(f.path, File, f.size, refs, "");
    PipelineIsSequential(h, e, f.chunks, 1, ss, steps);
  }

  /** The file pool of `BackupWithOptions`: one result slot per job, and a
      collector that returns at the first error. A worker reads a file through its
      chunk pipeline, which is one step here, and may fail for any other reason. */
  ghost function FilePool(h: Handle, files: seq<FileJob>, fileWorkers: nat,
      took: Took): System<FileJob, (), FileOutcome, ()> {
    System(files, fileWorkers, 2 * fileWorkers, |files|, true, (),
           (d: FileJob, p: (), s: (), p': (), s': ()) => false,
           (d: FileJob, p: (), s: (), o: FileOutcome, s': ()) => o == FileFailed || Reads(h, d, took, o.entry),
           (p: ()) => 0,
           (d: FileJob, o: FileOutcome) => o.Entry? ==> o.entry == EntryOf(h, d) && Reads(h, d, took, o.entry),
           (o: FileOutcome) => o.FileFailed?)
  }

  lemma FilePoolWellFormed(h: Handle, files: seq<FileJob>, fileWorkers: nat, took: Took)
    requires fileWorkers >= 1
    ensures WellFormed(FilePool(h, files, fileWorkers, took))
  {
    hide Reads;
    var sys := FilePool(h, files, fileWorkers, took);
    forall d, p, s
      ensures CanGoOn(sys, d, p, s)
    {
      assert sys.finish(d, p, s, FileFailed, ());
    }
    forall d, p, s, o, s' | sys.finish(d, p, s, o, s')
      ensures sys.good(d, o)
    {
      if o.Entry? {
        ReadsIsRight(h, d, took, o.entry);
      }
    }
  }

  /** After an early error return, and in any case, every file worker drains the
      queue and exits: no run is infinite and none gets stuck. */
  lemma FileWorkersDrain(h: Handle, files: seq<FileJob>, fileWorkers: nat, took: Took,
                         ss: seq<State<(), FileOutcome, ()>>, steps: seq<Step<(), FileOutcome, ()>>)
    requires fileWorkers >= 1 && Pool.IsRun(FilePool(h, files, fileWorkers, took), ss, steps)
    ensures |steps| <= 5 * |files| + fileWorkers + 3
    ensures (forall step :: !Enabled(FilePool(h, files, fileWorkers, took), ss[|steps|], step)) ==>
              AllExited(ss[|steps|].workers) && ss[|steps|].work == [] && ss[|steps|].sent == |files|
  {
    hide WellFormed, Enabled, Apply, Places, Range, Reads;
    var sys := FilePool(h, files, fileWorkers, took);
    FilePoolWellFormed(h, files, fileWorkers, took);
    EveryRunTerminates(sys, ss, steps);
    IdleLeft(sys, ss[0].workers);
    RunKeepsInv(sys, ss, steps, |steps|);
    if Final(ss[|steps|]) {
      assert ss[|steps|].workers[0].Exited?;
    }
  }

  /** Without an error the entries collected are exactly one per file, each
      describing its file: `fileEntries` does not depend on the interleaving. */
  lemma FilesInOrder(h: Handle, files: seq<FileJob>, fileWorkers: nat, took: Took,
                     ss: seq<State<(), FileOutcome, ()>>, steps: seq<Step<(), FileOutcome, ()>>, i: nat)
    requires fileWorkers >= 1 && Pool.IsRun(FilePool(h, files, fileWorkers, took), ss, steps) && Final(ss[|steps|])
    requires forall r :: r in ss[|steps|].collected ==> !r.outcome.FileFailed?
    requires i < |files|
    ensures |ss[|steps|].collected| == |files|
    ensures Item(i, Entry(EntryOf(h, files[i]))) in ss[|steps|].collected
    ensures Reads(h, files[i], took, EntryOf(h, files[i]))
    ensures forall r :: r in ss[|steps|].collected && r.job == i ==> r.outcome == Entry(EntryOf(h, files[i]))
  {
    hide WellFormed, Enabled, Apply, Inv, Reads;
    var sys, end := FilePool(h, files, fileWorkers, took), ss[|steps|];
    FilePoolWellFormed(h, files, fileWorkers, took);
    RunKeepsInv(sys, ss, steps, |steps|);
    FinalCollectsAll(sys, end);
    forall r | r in end.collected && r.job == i
      ensures r.outcome == Entry(EntryOf(h, files[i]))
    {
      assert GoodOutcome(sys, r.job, r.outcome);
    }
    assert |multiset(JobsOf(end.collected))| == |end.collected| && |multiset(Range(|files|))| == |files|;
    assert Range(|files|)[i] == i;
    assert i in multiset(Range(|files|));
    assert i in JobsOf(end.collected);
    var k :| 0 <= k < |end.collected| && JobsOf(end.collected)[k] == i;
    assert end.collected[k] in end.collected;
  }
}
