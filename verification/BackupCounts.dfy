/** The counts of a backup: all chunk pipelines of all its files, interleaved
    over one store. */
module BackupCounts {
  import opened Chunker
  import opened Model
  import opened Sums
  import opened Pool
  import opened ChunkPipeline
  import P = Protocol

  type FileState = State<P.Phase, Outcome, Objects>
  type FileStep = Step<P.Phase, Outcome, Objects>

  /** The store and the pipeline of every file; the pipelines see one store. */
  datatype Backup = Backup(objects: Objects, files: seq<FileState>)

  /** The policy, the chunks of every file, and the workers of every pipeline.
      Nobody else writes chunks; store operations may fail. */
  datatype Setting = Setting(h: Handle, reliable: bool, chunks: seq<seq<Bytes>>, workers: seq<nat>)

  ghost predicate Ready(x: Setting) {
    |x.chunks| == |x.workers| && forall f :: 0 <= f < |x.workers| ==> x.workers[f] >= 1
  }

  ghost function PoolOf(x: Setting, f: nat): System<Bytes, P.Phase, Outcome, Objects>
    requires f < |x.chunks| == |x.workers|
  {
    ChunkPool(x.h, Surroundings(true, x.reliable), x.chunks[f], x.workers[f])
  }

  /** The pipeline of file f with the store as it is now. */
  function Current(b: Backup, f: nat): FileState
    requires f < |b.files|
  {
    b.files[f].(shared := b.objects)
  }

  ghost predicate MayStep(x: Setting, b: Backup, f: nat, step: FileStep) {
    Ready(x) && |b.files| == |x.chunks| && f < |b.files| && Enabled(PoolOf(x, f), Current(b, f), step)
  }

  ghost function After(x: Setting, b: Backup, f: nat, step: FileStep): Backup
    requires MayStep(x, b, f, step)
  {
    var s := Apply(PoolOf(x, f), Current(b, f), step);
    Backup(s.shared, b.files[f := s])
  }

  ghost predicate Starts(x: Setting, b: Backup) {
    Ready(x) && |b.files| == |x.chunks| && forall f :: 0 <= f < |b.files| ==> Initial(PoolOf(x, f), b.files[f])
  }

  ghost predicate IsBackupRun(x: Setting, bs: seq<Backup>, turns: seq<(nat, FileStep)>) {
    && |bs| == |turns| + 1
    && Starts(x, bs[0])
    && forall i :: 0 <= i < |turns| ==>
      MayStep(x, bs[i], turns[i].0, turns[i].1) && bs[i + 1] == After(x, bs[i], turns[i].0, turns[i].1)
  }

  /* ---- weights ---- */

  function Created(o: Outcome): nat { if o.Put? && o.created then 1 else 0 }
  function Written(o: Outcome): nat { if o.Put? && o.created then o.bytes else 0 }
  function Kept(o: Outcome): nat { if o.Put? then 1 else 0 }
  function Lost(o: Outcome): nat { if o.Unstored? then 1 else 0 }

  /** The total over the pipelines of everything produced so far. */
  function Total(weight: Outcome -> nat, files: seq<FileState>): nat {
    if files == [] then 0 else Tally(weight, files[0]) + Total(weight, files[1..])
  }

  lemma {:induction false} TotalUpdate(weight: Outcome -> nat, files: seq<FileState>, f: nat, s: FileState)
    requires f < |files|
    ensures Total(weight, files[f := s]) == Total(weight, files) - Tally(weight, files[f]) + Tally(weight, s)
  {
    hide Tally;
    var updated := files[f := s];
    if f == 0 {
      assert updated[1..] == files[1..];
    } else {
      assert updated[1..] == files[1..][f - 1 := s];
      TotalUpdate(weight, files[1..], f - 1, s);
    }
  }

  /** What one step adds to a total. */
  lemma TurnTotals(x: Setting, b: Backup, f: nat, step: FileStep, weight: Outcome -> nat)
    requires MayStep(x, b, f, step)
    ensures Total(weight, After(x, b, f, step).files) ==
              Total(weight, b.files) + if step.Complete? then weight(step.outcome) else 0
  {
    hide Enabled, Apply, Total;
    var s := Apply(PoolOf(x, f), Current(b, f), step);
    StepTallies(PoolOf(x, f), Current(b, f), step, weight);
    TotalUpdate(weight, b.files, f, s);
  }

  /* ---- the store ---- */

  /** A step changes the store only by completing a creation, and then it adds
      one chunk object, of the size it reports. */
  lemma TurnChangesStore(x: Setting, b: Backup, f: nat, step: FileStep)
    requires MayStep(x, b, f, step) && !(step.Complete? && step.outcome.Unstored?)
    ensures var b', o := After(x, b, f, step), if step.Complete? then step.outcome else Unstored;
            && |ChunkKeys(b'.objects)| == |ChunkKeys(b.objects)| + Created(o)
            && PhysicalBytes(b'.objects) == PhysicalBytes(b.objects) + Written(o)
  {
    hide PhysicalBytes, ReadChunk, StoredChunk, ValidChunkId;
    var sys, s := PoolOf(x, f), Current(b, f);
    if step.Complete? {
      var d, p := sys.jobs[s.workers[step.w].job], s.workers[step.w].phase;
      CompletionChangesStore(x.h, Surroundings(true, x.reliable), d, p, b.objects, step.outcome, step.shared);
    } else if step.Proceed? {
      assert step.shared == b.objects;
    }
  }

  lemma CompletionChangesStore(h: Handle, e: Surroundings, d: Bytes, p: P.Phase, before: Objects, o: Outcome,
      after: Objects)
    requires e.alone && EndInWorld(h, e, d, p, before, o, after) && o.Put?
    ensures |ChunkKeys(after)| == |ChunkKeys(before)| + Created(o)
    ensures PhysicalBytes(after) == PhysicalBytes(before) + Written(o)
  {
    hide PhysicalBytes, ReadChunk, StoredChunk, ValidChunkId;
    if p.Store? {
      var nonce, version :| CreatesWith(h, e, d, before, o, after, nonce, version);
      NewChunkAdds(before, KeyOf(h, d), Object(StoredChunk(h, nonce, d), version));
    }
  }

  /** As long as nothing was lost, the counts match the growth of the store. */
  ghost predicate Balanced(start: Objects, b: Backup) {
    Total(Lost, b.files) == 0 ==>
      && |ChunkKeys(b.objects)| == |ChunkKeys(start)| + Total(Created, b.files)
      && PhysicalBytes(b.objects) == PhysicalBytes(start) + Total(Written, b.files)
  }

  lemma TurnKeepsBalance(x: Setting, b: Backup, f: nat, step: FileStep, start: Objects)
    requires MayStep(x, b, f, step) && Balanced(start, b)
    ensures Balanced(start, After(x, b, f, step))
  {
    hide Enabled, Apply, Total, PhysicalBytes, MayStep, After;
    TurnTotals(x, b, f, step, Lost);
    TurnTotals(x, b, f, step, Created);
    TurnTotals(x, b, f, step, Written);
    if Total(Lost, After(x, b, f, step).files) == 0 {
      TurnChangesStore(x, b, f, step);
    }
  }

  lemma {:induction false} StartTotals(x: Setting, b: Backup, weight: Outcome -> nat, n: nat)
    requires Starts(x, b) && n <= |b.files|
    ensures Total(weight, b.files[n..]) == 0
    decreases |b.files| - n
  {
    if n < |b.files| {
      StartTotals(x, b, weight, n + 1);
      assert b.files[n..][1..] == b.files[n + 1..];
      assert Initial(PoolOf(x, n), b.files[n]);
      NoWorkersTally(weight, b.files[n].workers);
    }
  }

  lemma {:induction false} RunKeepsBalance(x: Setting, bs: seq<Backup>, turns: seq<(nat, FileStep)>, n: nat)
    requires IsBackupRun(x, bs, turns) && n < |bs|
    ensures Balanced(bs[0].objects, bs[n])
  {
    hide Balanced, MayStep, After, Total;
    if n == 0 {
      assert bs[0].files[0..] == bs[0].files;
      StartTotals(x, bs[0], Lost, 0);
      StartTotals(x, bs[0], Created, 0);
      StartTotals(x, bs[0], Written, 0);
      BalancedAtStart(bs[0]);
    } else {
      RunKeepsBalance(x, bs, turns, n - 1);
      TurnKeepsBalance(x, bs[n - 1], turns[n - 1].0, turns[n - 1].1, bs[0].objects);
    }
  }

  lemma BalancedAtStart(b: Backup)
    requires Total(Created, b.files) == 0 && Total(Written, b.files) == 0
    ensures Balanced(b.objects, b)
  {}

  /* ---- every pipeline on its own ---- */

  ghost predicate FilesOk(x: Setting, b: Backup) {
    Ready(x) && |b.files| == |x.chunks| && forall f :: 0 <= f < |b.files| ==> Inv(PoolOf(x, f), b.files[f])
  }

  /** The store is not part of what a pipeline keeps about itself. */
  lemma SharedIsForeign(sys: System<Bytes, P.Phase, Outcome, Objects>, s: FileState, objects: Objects)
    requires Inv(sys, s)
    ensures Inv(sys, s.(shared := objects))
  {}

  lemma TurnKeepsFiles(x: Setting, b: Backup, f: nat, step: FileStep)
    requires MayStep(x, b, f, step) && FilesOk(x, b)
    ensures FilesOk(x, After(x, b, f, step))
  {
    hide Enabled, Apply, Inv, WellFormed, PoolOf;
    PoolReady(x, f);
    SharedIsForeign(PoolOf(x, f), b.files[f], b.objects);
    StepKeepsInv(PoolOf(x, f), Current(b, f), step);
  }

  lemma PoolReady(x: Setting, f: nat)
    requires Ready(x) && f < |x.chunks|
    ensures WellFormed(PoolOf(x, f))
  {
    hide WellFormed;
    ChunkPoolWellFormed(x.h, Surroundings(true, x.reliable), x.chunks[f], x.workers[f]);
  }

  lemma {:induction false} RunKeepsFiles(x: Setting, bs: seq<Backup>, turns: seq<(nat, FileStep)>, n: nat)
    requires IsBackupRun(x, bs, turns) && n < |bs|
    ensures FilesOk(x, bs[n])
  {
    hide MayStep, After, Inv, Initial, PoolOf;
    if n == 0 {
      forall f | 0 <= f < |bs[0].files|
        ensures Inv(PoolOf(x, f), bs[0].files[f])
      {
        InitialInv(PoolOf(x, f), bs[0].files[f]);
      }
    } else {
      RunKeepsFiles(x, bs, turns, n - 1);
      TurnKeepsFiles(x, bs[n - 1], turns[n - 1].0, turns[n - 1].1);
    }
  }

  /* ---- what the backup reports ---- */

  /** The sum over the files of what their collectors counted. */
  function Reported(weight: Outcome -> nat, files: seq<FileState>): nat {
    if files == [] then 0 else SumItems(weight, files[0].collected) + Reported(weight, files[1..])
  }

  function ChunkCount(chunks: seq<seq<Bytes>>): nat {
    if chunks == [] then 0 else |chunks[0]| + ChunkCount(chunks[1..])
  }

  lemma {:induction false} ReportedIsTotal(x: Setting, b: Backup, weight: Outcome -> nat, n: nat)
    requires FilesOk(x, b) && n <= |b.files| && forall f :: 0 <= f < |b.files| ==> Final(b.files[f])
    ensures Reported(weight, b.files[n..]) == Total(weight, b.files[n..])
    decreases |b.files| - n
  {
    hide Inv, Tally, SumItems;
    if n < |b.files| {
      ReportedIsTotal(x, b, weight, n + 1);
      assert b.files[n..][1..] == b.files[n + 1..];
      assert Inv(PoolOf(x, n), b.files[n]);
      FinalTally(PoolOf(x, n), b.files[n], weight);
    }
  }

  lemma {:induction false} ItemsKeptOrLost(items: seq<Item<Outcome>>)
    ensures SumItems(Kept, items) + SumItems(Lost, items) == |items|
  {
    if items != [] {
      ItemsKeptOrLost(items[..|items| - 1]);
    }
  }

  lemma {:induction false} ReportedKeptOrLost(x: Setting, b: Backup, n: nat)
    requires FilesOk(x, b) && n <= |b.files| && forall f :: 0 <= f < |b.files| ==> Final(b.files[f])
    ensures Reported(Kept, b.files[n..]) + Reported(Lost, b.files[n..]) == ChunkCount(x.chunks[n..])
    decreases |b.files| - n
  {
    hide Inv, SumItems;
    if n < |b.files| {
      ReportedKeptOrLost(x, b, n + 1);
      assert b.files[n..][1..] == b.files[n + 1..] && x.chunks[n..][1..] == x.chunks[n + 1..];
      assert Inv(PoolOf(x, n), b.files[n]);
      FinalCollectsAll(PoolOf(x, n), b.files[n]);
      CollectedOnce(x.chunks[n], b.files[n].collected);
      ItemsKeptOrLost(b.files[n].collected);
    }
  }

  /** Concurrent puts conserve counts: for every interleaving of all workers of
      all files of a successful backup that is the only writer of chunks,
      ChunksCreated is the number of new chunk objects, BytesWritten is the growth
      of the physical bytes, and every chunk was either created or reused, however
      many workers raced to store equal data. */
  lemma CountsMatchTheStore(x: Setting, bs: seq<Backup>, turns: seq<(nat, FileStep)>)
    requires IsBackupRun(x, bs, turns)
    requires forall f :: 0 <= f < |bs[|turns|].files| ==> Final(bs[|turns|].files[f])
    requires Reported(Lost, bs[|turns|].files) == 0
    ensures var first, last := bs[0].objects, bs[|turns|];
            && Reported(Created, last.files) == |ChunkKeys(last.objects)| - |ChunkKeys(first)|
            && Reported(Written, last.files) == PhysicalBytes(last.objects) - PhysicalBytes(first)
            && Reported(Kept, last.files) == ChunkCount(x.chunks)
  {
    hide IsBackupRun, FilesOk, PhysicalBytes, Reported, Total, ChunkCount;
    HasTurns(x, bs, turns);
    var last := bs[|turns|];
    RunKeepsFiles(x, bs, turns, |turns|);
    RunKeepsBalance(x, bs, turns, |turns|);
    assert last.files[0..] == last.files && x.chunks[0..] == x.chunks;
    ReportedIsTotal(x, last, Lost, 0);
    ReportedIsTotal(x, last, Created, 0);
    ReportedIsTotal(x, last, Written, 0);
    ReportedKeptOrLost(x, last, 0);
  }

  lemma HasTurns(x: Setting, bs: seq<Backup>, turns: seq<(nat, FileStep)>)
    requires IsBackupRun(x, bs, turns)
    ensures |bs| == |turns| + 1
  {}
}
