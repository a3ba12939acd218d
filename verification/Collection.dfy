/** Mark-and-sweep collection and snapshot deletion. */
module Collection {
  import opened Model
  import opened Store
  import opened Sums
  import opened Published
  import opened Repository

  /** The chunk objects whose base name no published manifest refers to. */
  ghost function Orphans(h: Handle, objects: Objects): set<ObjKey> {
    set k | k in objects && k.ChunkKey? && k.base !in LiveIds(h, objects)
  }

  datatype GcStats = GcStats(reachable: nat, orphans: nat, reclaimed: nat)

  /** The figures a collection of these objects must report. */
  ghost predicate ExactStats(h: Handle, objects: Objects, stats: GcStats) {
    && stats.reachable == |LiveIds(h, objects)|
    && stats.orphans == |Orphans(h, objects)|
    && stats.reclaimed == Sum(Orphans(h, objects), SizeIn(objects))
  }

  ghost function RefsBefore(list: seq<Manifest>, n: nat): set<string>
    requires n <= |list|
  {
    if n == 0 then {} else RefsBefore(list, n - 1) + RefIds(list[n - 1])
  }

  lemma {:induction false} RefsBeforeAre(list: seq<Manifest>, n: nat)
    requires n <= |list|
    ensures forall id :: id in RefsBefore(list, n) <==> exists i :: 0 <= i < n && id in RefIds(list[i])
  {
    hide RefIds;
    if n > 0 {
      RefsBeforeAre(list, n - 1);
    }
  }

  /** Marking every listed manifest marks exactly the live IDs. */
  lemma MarkingIsLive(h: Handle, objects: Objects, list: seq<Manifest>)
    requires IsSnapshotList(h, objects, list)
    ensures RefsBefore(list, |list|) == LiveIds(h, objects)
  {
    hide RefIds, ReadManifest, PublishedIds;
    RefsBeforeAre(list, |list|);
    forall id
      ensures id in RefsBefore(list, |list|) <==> id in LiveIds(h, objects)
    {
      if i :| 0 <= i < |list| && id in RefIds(list[i]) {
        assert list[i] in list;
        assert id in ManifestRefs(h, objects, list[i].id);
      }
      if id in LiveIds(h, objects) {
        var s :| s in PublishedIds(h, objects) && id in ManifestRefs(h, objects, s);
        var k :| 0 <= k < |list| && list[k].id == s;
        assert list[k] in list;
      }
    }
  }

  method MarkLive(list: seq<Manifest>) returns (live: set<string>)
    ensures live == RefsBefore(list, |list|)
  {
    live := {};
    for i := 0 to |list|
      invariant live == RefsBefore(list, i)
    {
      live := live + RefIds(list[i]);
    }
  }

  /** The orphans among the first n listed objects. */
  ghost function Swept(list: seq<Listed>, live: set<string>, n: nat): set<ObjKey>
    requires n <= |list|
  {
    if n == 0 then {}
    else if list[n - 1].key.ChunkKey? && list[n - 1].key.base !in live then Swept(list, live, n - 1) + {list[n - 1].key}
    else Swept(list, live, n - 1)
  }

  lemma {:induction false} SweptAre(list: seq<Listed>, live: set<string>, n: nat)
    requires n <= |list|
    ensures forall k :: k in Swept(list, live, n) <==>
              exists i :: 0 <= i < n && list[i].key == k && k.ChunkKey? && k.base !in live
  {
    if n > 0 {
      SweptAre(list, live, n - 1);
    }
  }

  /** The sweep of a whole listing is exactly the orphans. */
  lemma SweepIsOrphans(h: Handle, objects: Objects, list: seq<Listed>)
    requires IsListing(objects, Prefix.Chunks, list)
    ensures Swept(list, LiveIds(h, objects), |list|) == Orphans(h, objects)
  {
    var live := LiveIds(h, objects);
    hide LiveIds;
    SweptAre(list, live, |list|);
    forall k
      ensures k in Swept(list, live, |list|) <==> k in Orphans(h, objects)
    {
      if i :| 0 <= i < |list| && list[i].key == k && k.ChunkKey? && k.base !in live {
        assert list[i] in list;
      }
    }
  }

  lemma NextSweptIsNew(objects: Objects, list: seq<Listed>, live: set<string>, n: nat)
    requires IsListing(objects, Prefix.Chunks, list) && n < |list|
    ensures list[n].key !in Swept(list, live, n)
    ensures list[n].key in objects && list[n].size == SizeIn(objects)(list[n].key)
    ensures list[n].key.ChunkKey?
  {
    hide Swept;
    SweptAre(list, live, n);
    assert list[n] in list;
  }

  /** `GarbageCollect`. A completed collection removes exactly the orphans and
      reports exact figures, a dry run reports the same figures and removes
      nothing; one that fails part-way has removed orphans only, and none at all
      when some manifest cannot be read. */
  method GarbageCollect(r: Repository, dryRun: bool, info: LockInfo, now: int, staleAfter: int)
    returns (ok: bool, stats: GcStats)
    requires r.store.Valid()
    modifies r.store
    ensures r.store.Valid()
    ensures ok ==> AllReadable(r.handle, old(r.store.objects)) && ExactStats(r.handle, old(r.store.objects), stats)
    ensures ok && dryRun ==> Unlocked(r.store.objects) == old(Unlocked(r.store.objects))
    ensures ok && !dryRun ==>
              Unlocked(r.store.objects) == old(Unlocked(r.store.objects)) - old(Orphans(r.handle, r.store.objects))
    ensures !ok ==> exists gone :: gone <= old(Orphans(r.handle, r.store.objects)) && (dryRun ==> gone == {})
                      && (!AllReadable(r.handle, old(r.store.objects)) ==> gone == {})
                      && Unlocked(r.store.objects) == old(Unlocked(r.store.objects)) - gone
    ensures r.store.reliable && LockKey !in old(r.store.objects) ==>
              (ok <==> AllReadable(r.handle, old(r.store.objects)))
    ensures r.store.reliable && LockKey !in old(r.store.objects) && Recurses(r.handle, old(r.store.objects)) ==>
              LockKey in r.store.objects
    ensures r.store.reliable && LockKey !in old(r.store.objects)
              && LATEST !in PublishedIds(r.handle, old(r.store.objects)) ==>
              LockKey !in r.store.objects
  {
    hide AllReadable, LiveIds, IsSnapshotList, SizeIn, IsListing, Orphans, Swept, Recurses, PublishedIds;
    ok, stats := false, GcStats(0, 0, 0);
    ghost var start := Unlocked(r.store.objects);
    LockIsIrrelevant(r.handle, r.store.objects);
    var lock := AcquireWriteLock(r.store, info, now, staleAfter);
    LockIsIrrelevant(r.handle, r.store.objects);
    NothingGone(start);
    if lock.None? {
      return;
    }
    var list := r.Snapshots();
    if list.Err? {
      if list.error != Overflow {
        ReleaseLock(r.store, lock.value);
      }
      return;
    }
    MarkingIsLive(r.handle, r.store.objects, list.value);
    var live := MarkLive(list.value);
    var listed := r.store.List(Prefix.Chunks);
    if listed.Refused? {
      ReleaseLock(r.store, lock.value);
      return;
    }
    ghost var objects := r.store.objects;
    SweepIsOrphans(r.handle, objects, listed.value);
    ghost var gone: set<ObjKey>;
    ok, stats, gone := Sweep(r, dryRun, listed.value, live);
    LockIsNoOrphan(r.handle, objects);
    ReleaseLock(r.store, lock.value);
    UnlockedMinus(objects, gone);
  }

  lemma LockIsNoOrphan(h: Handle, objects: Objects)
    ensures LockKey !in Orphans(h, objects)
  {}

  lemma NothingGone(objects: Objects)
    ensures objects == objects - {}
  {}

  lemma UnlockedMinus(objects: Objects, gone: set<ObjKey>)
    ensures Unlocked(objects - gone) == Unlocked(objects) - gone
  {}

  /** Marks, orphans and sizes do not depend on the lock object. */
  lemma LockIsIrrelevant(h: Handle, objects: Objects)
    ensures AllReadable(h, objects) == AllReadable(h, Unlocked(objects))
    ensures Recurses(h, objects) == Recurses(h, Unlocked(objects))
    ensures PublishedIds(h, objects) == PublishedIds(h, Unlocked(objects))
    ensures LiveIds(h, objects) == LiveIds(h, Unlocked(objects))
    ensures Orphans(h, objects) == Orphans(h, Unlocked(objects))
    ensures Sum(Orphans(h, objects), SizeIn(objects)) == Sum(Orphans(h, objects), SizeIn(Unlocked(objects)))
  {
    SameManifests(h, objects, Unlocked(objects));
    hide LiveIds, AllReadable, Recurses, PublishedIds;
    assert Orphans(h, objects) == Orphans(h, Unlocked(objects));
    SumSame(Orphans(h, objects), SizeIn(objects), SizeIn(Unlocked(objects)));
  }

  lemma SweptNext(objects: Objects, list: seq<Listed>, live: set<string>, n: nat)
    requires IsListing(objects, Prefix.Chunks, list) && n < |list|
    ensures var k, before, after := list[n].key, Swept(list, live, n), Swept(list, live, n + 1);
            if k.ChunkKey? && k.base in live then after == before
            else && after == before + {k} && |after| == |before| + 1
                 && Sum(after, SizeIn(objects)) == Sum(before, SizeIn(objects)) + list[n].size
  {
    hide IsListing, SizeIn;
    NextSweptIsNew(objects, list, live, n);
    var k, before, after := list[n].key, Swept(list, live, n), Swept(list, live, n + 1);
    if k.base !in live {
      SumTake(after, SizeIn(objects), k);
      assert after - {k} == before;
    }
  }

  lemma MinusTwice(objects: Objects, gone: set<ObjKey>, k: ObjKey)
    ensures objects - gone - {k} == objects - (gone + {k})
  {}

  /** The sweep loop over a listing of the store. */
  method Sweep(r: Repository, dryRun: bool, list: seq<Listed>, live: set<string>)
    returns (ok: bool, stats: GcStats, ghost gone: set<ObjKey>)
    requires r.store.Valid() && IsListing(r.store.objects, Prefix.Chunks, list)
    modifies r.store
    ensures r.store.Valid() && r.store.objects == old(r.store.objects) - gone
    ensures gone <= Swept(list, live, |list|) && (dryRun ==> gone == {})
    ensures ok ==> gone == (if dryRun then {} else Swept(list, live, |list|))
    ensures ok ==>
              && stats.reachable == |live| && stats.orphans == |Swept(list, live, |list|)|
              && stats.reclaimed == Sum(Swept(list, live, |list|), SizeIn(old(r.store.objects)))
    ensures r.store.reliable ==> ok
  {
    hide IsListing, SizeIn, Swept, Sum;
    ghost var objects := r.store.objects;
    ok, gone := true, {};
    var orphans, reclaimed := 0, 0;
    NothingGone(objects);
    NothingSwept(objects, list, live);
    var i := 0;
    while i < |list|
      invariant 0 <= i <= |list|
      invariant r.store.Valid() && r.store.objects == objects - gone
      invariant gone == (if dryRun then {} else Swept(list, live, i))
      invariant orphans == |Swept(list, live, i)| && reclaimed == Sum(Swept(list, live, i), SizeIn(objects))
    {
      SweptNext(objects, list, live, i);
      var k := list[i].key;
      if !(k.ChunkKey? && k.base in live) {
        orphans, reclaimed := orphans + 1, reclaimed + list[i].size;
        if !dryRun {
          MinusTwice(objects, gone, k);
          SweptGrows(list, live, i + 1, |list|);
          NextSweptIsNew(objects, list, live, i);
          var removed := r.store.Delete(k);
          if removed.Refused? {
            ok, stats := false, GcStats(|live|, orphans, reclaimed);
            if r.store.objects != objects - gone {
              gone := gone + {k};
            }
            return;
          }
          gone := gone + {k};
        }
      }
      i := i + 1;
    }
    stats := GcStats(|live|, orphans, reclaimed);
  }

  lemma NothingSwept(objects: Objects, list: seq<Listed>, live: set<string>)
    ensures Swept(list, live, 0) == {} && Sum({}, SizeIn(objects)) == 0
  {}

  lemma {:induction false} SweptGrows(list: seq<Listed>, live: set<string>, m: nat, n: nat)
    requires m <= n <= |list|
    ensures Swept(list, live, m) <= Swept(list, live, n)
    decreases n - m
  {
    if m < n {
      SweptGrows(list, live, m, n - 1);
    }
  }

  /* ---- what a collection means ---- */

  /** Removing orphans, all or some of them, changes no mark. */
  lemma SweepingKeepsMarks(h: Handle, objects: Objects, gone: set<ObjKey>)
    requires gone <= Orphans(h, objects)
    ensures LiveIds(h, objects - gone) == LiveIds(h, objects)
    ensures AllReadable(h, objects - gone) == AllReadable(h, objects)
    ensures Orphans(h, objects - gone) == Orphans(h, objects) - gone
    ensures forall id :: ReadManifest(h, objects - gone, id) == ReadManifest(h, objects, id)
  {
    SameManifests(h, objects, objects - gone);
    hide LiveIds, AllReadable, ReadManifest;
    assert Orphans(h, objects - gone) == Orphans(h, objects) - gone;
  }

  /** Stopping a sweep anywhere is safe: every live chunk is read as before, and a
      later collection removes exactly what is left. */
  lemma SweepingIsSafe(h: Handle, objects: Objects, gone: set<ObjKey>, id: string)
    requires gone <= Orphans(h, objects) && id in LiveIds(h, objects)
    ensures ReadChunk(h, objects - gone, id) == ReadChunk(h, objects, id)
  {
    hide LiveIds, ChunkPlain;
  }

  /** Collection is exact: afterwards the chunk objects are those a manifest
      refers to, the physical bytes have dropped by the reclaimed bytes, and a
      second collection finds nothing. */
  lemma CollectionIsExact(h: Handle, objects: Objects)
    ensures var after := objects - Orphans(h, objects);
            && ChunkKeys(after) == (set k | k in objects && k.ChunkKey? && k.base in LiveIds(h, objects))
            && PhysicalBytes(objects) == PhysicalBytes(after) + Sum(Orphans(h, objects), SizeIn(objects))
            && Orphans(h, after) == {}
            && |ChunkKeys(objects)| == |ChunkKeys(after)| + |Orphans(h, objects)|
  {
    hide LiveIds, PhysicalBytes, AllReadable;
    var orphans := Orphans(h, objects);
    SweepingKeepsMarks(h, objects, orphans);
    RemovedChunksSubtract(objects, orphans);
    assert orphans - orphans == {};
    PartSizes(ChunkKeys(objects), orphans);
  }

  lemma PartSizes<T>(all: set<T>, part: set<T>)
    requires part <= all
    ensures |all| == |all - part| + |part|
  {
    assert all == (all - part) + part;
  }

  /* ---- deletion ---- */

  datatype DeleteStats = DeleteStats(id: string, files: nat, logical: int, referenced: nat)

  function CountFiles(files: seq<FileEntry>): nat {
    if files == [] then 0 else CountFiles(files[..|files| - 1]) + if files[|files| - 1].kind.File? then 1 else 0
  }

  /** `DeleteSnapshot`: unpublishes the selected snapshot and nothing else. */
  method DeleteSnapshot(r: Repository, selector: string, dryRun: bool, info: LockInfo, now: int, staleAfter: int)
    returns (ok: bool, stats: DeleteStats)
    requires r.store.Valid()
    modifies r.store
    ensures r.store.Valid()
    ensures ok ==>
              && Selected(r.handle, old(r.store.objects), selector).Ok?
              && var m := Selected(r.handle, old(r.store.objects), selector).value;
                   && stats.id == m.id && stats.files == CountFiles(m.files) && stats.logical == FileBytes(m.files)
                   && stats.referenced == |FileRefs(m.files)|
                   && Unlocked(r.store.objects) ==
                        old(Unlocked(r.store.objects)) - (if dryRun then {} else {ManifestKeyOf(r.handle, m.id)})
    ensures !ok ==>
              || Unlocked(r.store.objects) == old(Unlocked(r.store.objects))
              || (&& !dryRun && Selected(r.handle, old(r.store.objects), selector).Ok?
                  && var id := Selected(r.handle, old(r.store.objects), selector).value.id;
                     Unlocked(r.store.objects) == old(Unlocked(r.store.objects)) - {ManifestKeyOf(r.handle, id)})
    ensures r.store.reliable && old(LockKey !in r.store.objects) ==>
              (ok <==> Selected(r.handle, old(r.store.objects), selector).Ok?)
    ensures r.store.reliable && old(LockKey !in r.store.objects) && selector == LATEST
              && Recurses(r.handle, old(r.store.objects)) ==>
              LockKey in r.store.objects
    ensures r.store.reliable && old(LockKey !in r.store.objects)
              && !(selector == LATEST && LATEST in PublishedIds(r.handle, old(r.store.objects))) ==>
              LockKey !in r.store.objects
  {
    hide Selected, FileRefs, CountFiles, FileBytes, Recurses, PublishedIds, ReadManifest, AllReadable, LiveIds;
    ok, stats := false, DeleteStats(selector, 0, 0, 0);
    SameSelected(r.handle, r.store.objects, Unlocked(r.store.objects), selector);
    SameManifests(r.handle, r.store.objects, Unlocked(r.store.objects));
    var lock := AcquireWriteLock(r.store, info, now, staleAfter);
    SameSelected(r.handle, r.store.objects, Unlocked(r.store.objects), selector);
    SameManifests(r.handle, r.store.objects, Unlocked(r.store.objects));
    if lock.None? {
      return;
    }
    ghost var start := r.store.objects;
    NothingGone(Unlocked(start));
    var m := r.FetchManifest(selector);
    if m == Err(Overflow) {
      return;
    }
    if m.Ok? {
      SelectedIsThere(r.handle, r.store.objects, selector);
      var count, logical, referenced := Summarize(m.value.files);
      stats, ok := DeleteStats(m.value.id, count, logical, referenced), true;
      if !dryRun {
        var removed := r.store.Delete(ManifestKeyOf(r.handle, m.value.id));
        ok := removed.Done?;
        UnlockedMinus(start, {ManifestKeyOf(r.handle, m.value.id)});
      }
    }
    ReleaseLock(r.store, lock.value);
  }

  /** The chunk IDs of the regular files. */
  function FileRefs(files: seq<FileEntry>): set<string> {
    set e, ref | e in files && e.kind.File? && ref in e.chunks :: ref.id
  }

  method Summarize(files: seq<FileEntry>) returns (count: nat, logical: int, referenced: nat)
    ensures count == CountFiles(files) && logical == FileBytes(files) && referenced == |FileRefs(files)|
  {
    hide FileRefs;
    var seen: set<string> := {};
    count, logical := 0, 0;
    NoFileRefs();
    for i := 0 to |files|
      invariant count == CountFiles(files[..i]) && logical == FileBytes(files[..i]) && seen == FileRefs(files[..i])
    {
      FileRefsNext(files, i);
      assert files[..i + 1][..i] == files[..i];
      if files[i].kind.File? {
        count, logical := count + 1, logical + files[i].size;
        seen := seen + set ref | ref in files[i].chunks :: ref.id;
      }
    }
    assert files[..|files|] == files;
    referenced := |seen|;
  }

  lemma NoFileRefs()
    ensures FileRefs([]) == {}
  {}

  lemma FileRefsNext(files: seq<FileEntry>, i: nat)
    requires i < |files|
    ensures FileRefs(files[..i + 1]) ==
              FileRefs(files[..i]) + if files[i].kind.File? then set ref | ref in files[i].chunks :: ref.id else {}
  {
    assert files[..i + 1] == files[..i] + [files[i]];
  }

  /** Deleting one snapshot changes no other. */
  lemma DeletionIsLocal(h: Handle, objects: Objects, id: string, other: string)
    requires other != id
    ensures var after := objects - {ManifestKeyOf(h, id)};
            && ReadManifest(h, after, other) == ReadManifest(h, objects, other)
            && PublishedIds(h, after) == PublishedIds(h, objects) - {id}
            && forall c :: ReadChunk(h, after, c) == ReadChunk(h, objects, c)
  {
    hide ManifestPlain, ChunkPlain;
    var after := objects - {ManifestKeyOf(h, id)};
    forall s
      ensures s in PublishedIds(h, after) <==> s in PublishedIds(h, objects) - {id}
    {
      assert s in PublishedIds(h, after) <==> '/' !in s && ManifestKeyOf(h, s) in after;
      assert s in PublishedIds(h, objects) <==> '/' !in s && ManifestKeyOf(h, s) in objects;
    }
  }
}
