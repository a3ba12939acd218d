/** Verification of every referenced chunk, resumed from a checkpoint file. */
module Verify {
  import opened Model
  import opened Store
  import opened Published
  import opened Repository
  import opened Collection
  import Check

  /* ---- the checkpoint file ---- */

  /** An absent field leaves the expected value in place when it is loaded. */
  datatype Checkpoint = Checkpoint(repository: Option<string>, selector: Option<string>, verified: set<string>)

  datatype Saved = NoFile | Garbage | Progress(checkpoint: Checkpoint)

  class StateFile {
    var saved: Saved
    const reliable: bool

    constructor (dependable: bool)
      ensures saved == NoFile && reliable == dependable
    {
      saved, reliable := NoFile, dependable;
    }

    method Load() returns (s: Option<Saved>)
      ensures s.Some? ==> s.value == saved
      ensures reliable ==> s.Some?
    {
      var fails: bool := *;
      return if fails && !reliable then None else Some(saved);
    }

    /** `writeJSONAtomic`: the file is replaced as a whole or not at all. */
    method Save(c: Checkpoint) returns (ok: bool)
      modifies this
      ensures ok || reliable ==> saved == Progress(c)
      ensures saved == Progress(c) || saved == old(saved)
      ensures reliable ==> ok
    {
      var fails: bool := *;
      var late: bool := *;
      if !fails || late || reliable {
        saved := Progress(c);
      }
      return !fails || reliable;
    }

    method Remove() returns (ok: bool)
      modifies this
      ensures ok ==> saved == NoFile
      ensures saved == NoFile || saved == old(saved)
      ensures reliable ==> ok
    {
      var fails: bool := *;
      var late: bool := *;
      if !fails || late || reliable {
        saved := NoFile;
      }
      return !fails || reliable;
    }
  }

  /** `loadVerifyState`: the IDs a run may skip; None is an unreadable file or a
      checkpoint of another repository or selector. */
  function Resumed(s: Saved, root: string, selector: string): Option<set<string>> {
    match s
    case NoFile => Some({})
    case Garbage => None
    case Progress(c) =>
      if c.repository in {None, Some(root)} && c.selector in {None, Some(selector)} then Some(c.verified) else None
  }

  function Marked(root: string, selector: string, verified: set<string>): Saved {
    Progress(Checkpoint(Some(root), Some(selector), verified))
  }

  /* ---- one run ---- */

  /** The chunk IDs to be verified, of one snapshot or of all. */
  ghost function Wanted(h: Handle, objects: Objects, selector: string): set<string> {
    if selector == "" then LiveIds(h, objects) else
      match Selected(h, objects, selector)
      case Ok(m) => RefIds(m)
      case Err(_) => {}
  }

  ghost predicate Selectable(h: Handle, objects: Objects, selector: string) {
    if selector == "" then AllReadable(h, objects) else Selected(h, objects, selector).Ok?
  }

  datatype VerifyReport = VerifyReport(snapshots: nat, chunks: nat, verified: nat, resumed: nat)

  /** What one run did: the store it saw, whether it succeeded, and the IDs whose
      chunks it read and hashed successfully. */
  datatype Attempt = Attempt(objects: Objects, done: bool, hashed: set<string>)

  /** A run, and the checkpoint before and after it. */
  ghost predicate IsAttempt(h: Handle, root: string, selector: string, before: Saved, a: Attempt, after: Saved) {
    && a.hashed <= Wanted(h, a.objects, selector)
    && (forall id :: id in a.hashed ==> ReadChunk(h, a.objects, id).Ok?)
    && match Resumed(before, root, selector)
       case None => !a.done && a.hashed == {} && after == before
       case Some(skip) =>
         && a.hashed !! skip
         && (a.done ==> a.hashed == Wanted(h, a.objects, selector) - skip && after == NoFile)
         && (EndsWell(root, selector, skip, a.hashed, before, after)
             || (after == NoFile && a.hashed == Wanted(h, a.objects, selector) - skip))
  }

  /** The checkpoint is as before, or holds some of the IDs hashed in addition. */
  ghost predicate EndsWell(root: string, selector: string, skip: set<string>, hashed: set<string>, before: Saved,
      after: Saved): (b: bool)
    ensures after == before ==> b
  {
    after == before || exists part :: part <= hashed && after == Marked(root, selector, skip + part)
  }

  /** The IDs a run has had to hash once only rest is left. */
  function Due(ids: set<string>, rest: set<string>, skip: set<string>): (due: set<string>)
    ensures due <= ids && due !! skip
    ensures rest == ids ==> due == {}
    ensures rest == {} ==> due == ids - skip
  {
    ids - rest - skip
  }

  lemma Moves(ids: set<string>, rest: set<string>, hashed: set<string>, skip: set<string>, id: string)
    requires id in rest && rest <= ids && id !in skip && hashed == Due(ids, rest, skip)
    ensures id !in hashed && hashed + {id} == Due(ids, rest - {id}, skip)
    ensures skip + hashed + {id} == skip + (hashed + {id})
  {}

  lemma Skips(ids: set<string>, rest: set<string>, skip: set<string>, id: string)
    requires id in skip
    ensures Due(ids, rest - {id}, skip) == Due(ids, rest, skip)
  {}

  /** `verifyManifests` and the IDs its manifests refer to. */
  method CollectIds(r: Repository, selector: string) returns (ok: bool, ids: set<string>, snapshots: nat)
    ensures ok ==> Selectable(r.handle, r.store.objects, selector) && ids == Wanted(r.handle, r.store.objects, selector)
    ensures ok ==> snapshots == (if selector == "" then |PublishedIds(r.handle, r.store.objects)| else 1)
    ensures r.store.reliable ==> (ok <==> Selectable(r.handle, r.store.objects, selector))
  {
    hide ReadManifest, RefIds, PublishedIds, IsSnapshotList, AllReadable, LiveIds, Selected;
    ok, ids, snapshots := false, {}, 0;
    if selector != "" {
      var m := r.FetchManifest(selector);
      if m.Err? {
        return;
      }
      return true, RefIds(m.value), 1;
    }
    var list := r.Snapshots();
    if list.Err? {
      return;
    }
    ids := MarkLive(list.value);
    MarkingIsLive(r.handle, r.store.objects, list.value);
    SnapshotCount(r.handle, r.store.objects, list.value);
    return true, ids, |list.value|;
  }

  method SaveMarks(file: StateFile, root: string, selector: string, marks: set<string>) returns (ok: bool)
    modifies file
    ensures ok ==> file.saved == Marked(root, selector, marks)
    ensures file.saved == Marked(root, selector, marks) || file.saved == old(file.saved)
    ensures file.reliable ==> ok
  {
    ok := file.Save(Checkpoint(Some(root), Some(selector), marks));
  }

  /** The loop of `VerifyWithOptions`, in any order of the IDs. */
  method HashAll(r: Repository, root: string, selector: string, ids: set<string>, skip: set<string>, file: StateFile?)
    returns (ok: bool, verified: nat, resumed: nat, ghost hashed: set<string>)
    modifies file
    ensures hashed <= ids - skip && verified == |hashed|
    ensures forall id :: id in hashed ==> ReadChunk(r.handle, r.store.objects, id).Ok?
    ensures ok ==> hashed == ids - skip && resumed + verified == |ids|
    ensures file != null ==> EndsWell(root, selector, skip, hashed, old(file.saved), file.saved)
    ensures file != null && file.reliable && hashed != {} ==> file.saved == Marked(root, selector, skip + hashed)
    ensures r.store.reliable && (file == null || file.reliable) ==>
              (ok <==> forall id :: id in ids - skip ==> ReadChunk(r.handle, r.store.objects, id).Ok?)
  {
    hide ReadChunk, Due, Marked, EndsWell;
    ok, verified, resumed, hashed := false, 0, 0, {};
    ghost var start := if file == null then NoFile else file.saved;
    var marks, rest := skip, ids;
    while rest != {}
      invariant rest <= ids && hashed == Due(ids, rest, skip) && marks == skip + hashed
      invariant verified == |hashed| && resumed + verified + |rest| == |ids|
      invariant forall id :: id in hashed ==> ReadChunk(r.handle, r.store.objects, id).Ok?
      invariant file != null ==> file.saved == if hashed == {} then start else Marked(root, selector, marks)
      invariant file != null ==> EndsWell(root, selector, skip, hashed, start, file.saved)
      decreases rest
    {
      var id :| id in rest;
      if id in skip {
        Skips(ids, rest, skip, id);
        rest, resumed := rest - {id}, resumed + 1;
        continue;
      }
      var good, saved := HashOne(r, root, selector, id, marks, file);
      if !good {
        return;
      }
      Moves(ids, rest, hashed, skip, id);
      if file != null {
        Progressed(root, selector, skip, hashed, id, file.saved, start);
      }
      hashed, marks, verified, rest := hashed + {id}, marks + {id}, verified + 1, rest - {id};
      if !saved {
        return;
      }
    }
    ok := true;
  }

  /** One ID: hashed, and checkpointed together with the others. */
  method HashOne(r: Repository, root: string, selector: string, id: string, marks: set<string>, file: StateFile?)
    returns (good: bool, saved: bool)
    modifies file
    ensures good ==> ReadChunk(r.handle, r.store.objects, id).Ok?
    ensures r.store.reliable ==> good == ReadChunk(r.handle, r.store.objects, id).Ok?
    ensures file != null && !good ==> file.saved == old(file.saved)
    ensures file != null && good ==>
              file.saved == Marked(root, selector, marks + {id}) || (!saved && file.saved == old(file.saved))
    ensures file != null && file.reliable && good ==> saved
    ensures file == null ==> saved
  {
    hide ReadChunk, Marked;
    good := r.VerifyChunk(id);
    saved := true;
    if good && file != null {
      saved := SaveMarks(file, root, selector, marks + {id});
    }
  }

  /** What a checkpoint attempt leaves, whether or not it took effect. */
  lemma Progressed(root: string, selector: string, skip: set<string>, hashed: set<string>, id: string, after: Saved,
      before: Saved)
    requires || after == Marked(root, selector, skip + hashed + {id})
             || after == before || after == Marked(root, selector, skip + hashed)
    ensures EndsWell(root, selector, skip, hashed + {id}, before, after)
  {
    assert skip + hashed + {id} == skip + (hashed + {id});
    assert hashed <= hashed + {id} && hashed + {id} <= hashed + {id};
  }

  /** `VerifyWithOptions`; without a file, nothing is resumed or checkpointed. A
      success accounts for every referenced chunk, by this run's hash or by the
      checkpoint, and removes the checkpoint; whatever a run hashes is
      checkpointed before it goes on. */
  method VerifyWithOptions(r: Repository, root: string, selector: string, file: StateFile?)
    returns (ok: bool, report: VerifyReport, ghost hashed: set<string>)
    modifies file
    ensures ok ==>
              && Selectable(r.handle, r.store.objects, selector)
              && report.snapshots == (if selector == "" then |PublishedIds(r.handle, r.store.objects)| else 1)
              && report.chunks == |Wanted(r.handle, r.store.objects, selector)| == report.resumed + report.verified
              && report.verified == |hashed|
    ensures hashed <= Wanted(r.handle, r.store.objects, selector)
    ensures forall id :: id in hashed ==> ReadChunk(r.handle, r.store.objects, id).Ok?
    ensures file == null && ok ==> hashed == Wanted(r.handle, r.store.objects, selector)
    ensures file != null ==>
              IsAttempt(r.handle, root, selector, old(file.saved), Attempt(r.store.objects, ok, hashed), file.saved)
    ensures file != null && file.reliable && hashed != {} && !ok ==>
              file.saved == Marked(root, selector, Resumed(old(file.saved), root, selector).value + hashed)
    ensures var skip := if file == null then Some({}) else old(Resumed(file.saved, root, selector));
            r.store.reliable && (file == null || file.reliable) ==>
              (ok <==> && Selectable(r.handle, r.store.objects, selector) && skip.Some?
                       && forall id :: id in Wanted(r.handle, r.store.objects, selector) - skip.value ==>
                            ReadChunk(r.handle, r.store.objects, id).Ok?)
  {
    hide ReadChunk, Selectable, Wanted, PublishedIds, LiveIds, AllReadable, Selected, EndsWell, Marked;
    ok, report, hashed := false, VerifyReport(0, 0, 0, 0), {};
    var got, ids, snapshots := CollectIds(r, selector);
    if !got {
      return;
    }
    var skip: set<string> := {};
    if file != null {
      var loaded := file.Load();
      if loaded.None? {
        return;
      }
      var resume := Resumed(loaded.value, root, selector);
      if resume.None? {
        return;
      }
      skip := resume.value;
    }
    var good, verified, resumed;
    good, verified, resumed, hashed := HashAll(r, root, selector, ids, skip, file);
    report := VerifyReport(snapshots, |ids|, verified, resumed);
    if !good {
      return;
    }
    if file != null {
      ok := file.Remove();
      return;
    }
    ok := true;
  }

  /* ---- any number of runs ---- */

  /** Runs of one repository and selector, one after another, from no checkpoint.
      Between runs the store may change in any way. */
  ghost predicate IsHistory(h: Handle, root: string, selector: string, saves: seq<Saved>, runs: seq<Attempt>) {
    && |saves| == |runs| + 1 && saves[0] == NoFile
    && forall i :: 0 <= i < |runs| ==> IsAttempt(h, root, selector, saves[i], runs[i], saves[i + 1])
  }

  /** Some of the first n runs read the chunk and it hashed to its ID. */
  ghost predicate HashedBefore(h: Handle, runs: seq<Attempt>, n: nat, id: string)
    requires n <= |runs|
  {
    exists i :: 0 <= i < n && id in runs[i].hashed && ReadChunk(h, runs[i].objects, id).Ok?
  }

  lemma AttemptHashes(h: Handle, root: string, selector: string, saves: seq<Saved>, runs: seq<Attempt>, n: nat)
    requires IsHistory(h, root, selector, saves, runs) && n < |runs|
    ensures forall id :: id in runs[n].hashed ==> HashedBefore(h, runs, n + 1, id)
    ensures forall id :: HashedBefore(h, runs, n, id) ==> HashedBefore(h, runs, n + 1, id)
  {
    hide ReadChunk, Wanted, Resumed;
    assert IsAttempt(h, root, selector, saves[n], runs[n], saves[n + 1]);
  }

  /** The checkpoint never claims more than was done: every ID in it was hashed
      successfully by some earlier run, and it can always be resumed from. */
  lemma {:induction false} CheckpointsAreEarned(h: Handle, root: string, selector: string, saves: seq<Saved>,
      runs: seq<Attempt>, n: nat)
    requires IsHistory(h, root, selector, saves, runs) && n <= |runs|
    ensures Resumed(saves[n], root, selector).Some?
    ensures forall id :: id in Resumed(saves[n], root, selector).value ==> HashedBefore(h, runs, n, id)
  {
    hide ReadChunk, Wanted, HashedBefore;
    if n > 0 {
      CheckpointsAreEarned(h, root, selector, saves, runs, n - 1);
      AttemptHashes(h, root, selector, saves, runs, n - 1);
      assert IsAttempt(h, root, selector, saves[n - 1], runs[n - 1], saves[n]);
    }
  }

  /** When a run succeeds, every chunk it was asked about was hashed successfully
      by that run or by an earlier one. */
  lemma SuccessMeansAllWereHashed(h: Handle, root: string, selector: string, saves: seq<Saved>, runs: seq<Attempt>,
      n: nat)
    requires IsHistory(h, root, selector, saves, runs) && n < |runs| && runs[n].done
    ensures forall id :: id in Wanted(h, runs[n].objects, selector) ==> HashedBefore(h, runs, n + 1, id)
  {
    hide ReadChunk, Wanted, HashedBefore;
    CheckpointsAreEarned(h, root, selector, saves, runs, n);
    AttemptHashes(h, root, selector, saves, runs, n);
    assert IsAttempt(h, root, selector, saves[n], runs[n], saves[n + 1]);
    forall id | id in Wanted(h, runs[n].objects, selector)
      ensures HashedBefore(h, runs, n + 1, id)
    {
      assert id in runs[n].hashed || HashedBefore(h, runs, n, id);
    }
  }

  /** A run that did not finish but left a longer checkpoint. */
  ghost predicate Advances(root: string, selector: string, before: Saved, after: Saved) {
    && Resumed(before, root, selector).Some? && Resumed(after, root, selector).Some?
    && Resumed(before, root, selector).value < Resumed(after, root, selector).value
  }

  lemma {:induction false} ProgressAddsUp(h: Handle, root: string, selector: string, saves: seq<Saved>,
      runs: seq<Attempt>, wanted: set<string>, n: nat)
    requires IsHistory(h, root, selector, saves, runs) && n <= |runs|
    requires forall i :: 0 <= i < n ==>
               Wanted(h, runs[i].objects, selector) == wanted && Advances(root, selector, saves[i], saves[i + 1])
    ensures Resumed(saves[n], root, selector).Some?
    ensures Resumed(saves[n], root, selector).value <= wanted && |Resumed(saves[n], root, selector).value| >= n
  {
    hide ReadChunk, Wanted;
    if n > 0 {
      ProgressAddsUp(h, root, selector, saves, runs, wanted, n - 1);
      assert IsAttempt(h, root, selector, saves[n - 1], runs[n - 1], saves[n]);
      assert Advances(root, selector, saves[n - 1], saves[n]);
      LargerSet(Resumed(saves[n - 1], root, selector).value, Resumed(saves[n], root, selector).value);
    }
  }

  lemma LargerSet(a: set<string>, b: set<string>)
    requires a < b
    ensures |a| < |b|
  {
    assert b == a + (b - a);
    assert b - a != {};
  }

  /** For a fixed set of n chunks, n runs that each checkpoint at least one more
      are enough: the checkpoint then holds all of them, so the next run has
      nothing left to hash. */
  lemma EnoughRuns(h: Handle, root: string, selector: string, saves: seq<Saved>, runs: seq<Attempt>,
      wanted: set<string>)
    requires IsHistory(h, root, selector, saves, runs) && |runs| == |wanted|
    requires forall i :: 0 <= i < |runs| ==>
               Wanted(h, runs[i].objects, selector) == wanted && Advances(root, selector, saves[i], saves[i + 1])
    ensures Resumed(saves[|runs|], root, selector) == Some(wanted)
  {
    hide Wanted;
    ProgressAddsUp(h, root, selector, saves, runs, wanted, |runs|);
    var held := Resumed(saves[|runs|], root, selector).value;
    if held != wanted {
      LargerSet(held, wanted);
    }
  }

  /** A consistency check is clean exactly when a verification of everything
      without a checkpoint would succeed and a collection would find no orphan; the
      chunks it counts are the chunks that verification counts. */
  lemma CleanCheckMeansVerified(h: Handle, objects: Objects)
    ensures Check.Findings(h, objects) == {} <==>
              && Selectable(h, objects, "")
              && (forall id :: id in Wanted(h, objects, "") ==> ReadChunk(h, objects, id).Ok?)
              && Orphans(h, objects) == {}
    ensures Wanted(h, objects, "") == LiveIds(h, objects)
  {
    hide LiveIds, AllReadable, ReadChunk, Orphans, Check.Findings;
    Check.HealthyMeans(h, objects);
  }
}
