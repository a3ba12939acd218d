/** The consistency scan, and what a clean report promises about verification and
    collection. */
module Check {
  import opened Model
  import opened Store
  import opened Sums
  import opened Published
  import opened Nesting
  import opened Repository
  import opened Collection

  /** One reported problem, with the object it names. */
  datatype Issue =
    | InvalidManifest(id: string)
    | InvalidChunkKey(key: ObjKey)
    | MissingChunk(id: string)
    | CorruptChunk(key: ObjKey)
    | OrphanChunk(key: ObjKey)

  datatype CheckReport = CheckReport(snapshots: int, referenced: nat, stored: int, orphans: nat, issues: seq<Issue>) {
    predicate Healthy() {
      issues == []
    }
  }

  /** A problem apart from the object chosen to name it: objects of one base name
      are one stored chunk to the scan. */
  datatype Finding =
    | BadManifest(id: string)
    | BadKey(key: ObjKey)
    | Lost(id: string)
    | Corrupt(id: string)
    | Unused(id: string)

  function About(x: Issue): Finding {
    match x
    case InvalidManifest(id) => BadManifest(id)
    case InvalidChunkKey(k) => BadKey(k)
    case MissingChunk(id) => Lost(id)
    case CorruptChunk(k) => if k.ChunkKey? then Corrupt(k.base) else BadKey(k)
    case OrphanChunk(k) => if k.ChunkKey? then Unused(k.base) else BadKey(k)
  }

  function Named(issues: seq<Issue>): set<Finding> {
    set x | x in issues :: About(x)
  }

  /* ---- what is there to be found ---- */

  ghost function BadManifests(h: Handle, objects: Objects): set<Finding> {
    set id | id in PublishedIds(h, objects) && ReadManifest(h, objects, id).Err? :: BadManifest(id)
  }

  predicate WellNamed(k: ObjKey) {
    k.ChunkKey? && ValidChunkId(k.base)
  }

  ghost function BadKeys(objects: Objects): set<Finding> {
    set k | k in objects && k.ChunkKey? && !WellNamed(k) :: BadKey(k)
  }

  ghost function StoredIds(objects: Objects): set<string> {
    set k | k in objects && WellNamed(k) :: k.base
  }

  ghost function LostChunks(h: Handle, objects: Objects): set<Finding> {
    set id | id in LiveIds(h, objects) - StoredIds(objects) :: Lost(id)
  }

  ghost function CorruptChunks(h: Handle, objects: Objects): set<Finding> {
    set id | id in LiveIds(h, objects) * StoredIds(objects) && ReadChunk(h, objects, id).Err? :: Corrupt(id)
  }

  ghost function UnusedIds(h: Handle, objects: Objects): set<string> {
    StoredIds(objects) - LiveIds(h, objects)
  }

  ghost function AsUnused(ids: set<string>): set<Finding> {
    set id | id in ids :: Unused(id)
  }

  ghost function UnusedChunks(h: Handle, objects: Objects): set<Finding> {
    AsUnused(UnusedIds(h, objects))
  }

  ghost function Findings(h: Handle, objects: Objects): set<Finding> {
    BadManifests(h, objects) + BadKeys(objects) + LostChunks(h, objects) + CorruptChunks(h, objects)
    + UnusedChunks(h, objects)
  }

  /** The issues report the findings, each exactly once. */
  ghost predicate Reports(issues: seq<Issue>, found: set<Finding>) {
    Named(issues) == found && |issues| == |found|
  }

  lemma OneMore(issues: seq<Issue>, found: set<Finding>, x: Issue)
    requires Reports(issues, found) && About(x) !in found
    ensures Reports(issues + [x], found + {About(x)})
  {
    assert forall y :: y in issues + [x] <==> y in issues || y == x;
    assert Named(issues + [x]) == Named(issues) + {About(x)};
  }

  /* ---- the scan ---- */

  /** What scanning the manifests of some IDs gives. */
  ghost predicate Scanned(h: Handle, objects: Objects, ids: set<string>, issues: seq<Issue>, live: set<string>,
      snapshots: int) {
    && Reports(issues, set id | id in ids && ReadManifest(h, objects, id).Err? :: BadManifest(id))
    && live == (set id, ref | id in ids && ref in ManifestRefs(h, objects, id) :: ref)
    && snapshots == |ids| - |issues|
  }

  lemma NextBad(h: Handle, objects: Objects, ids: set<string>, issues: seq<Issue>, live: set<string>, snapshots: int,
      id: string)
    requires Scanned(h, objects, ids, issues, live, snapshots) && id !in ids && ReadManifest(h, objects, id).Err?
    ensures Scanned(h, objects, ids + {id}, issues + [InvalidManifest(id)], live, snapshots)
  {
    hide ReadManifest, RefIds, Reports;
    var bad := set i | i in ids && ReadManifest(h, objects, i).Err? :: BadManifest(i);
    var bad' := set i | i in ids + {id} && ReadManifest(h, objects, i).Err? :: BadManifest(i);
    assert bad' == bad + {BadManifest(id)};
    OneMore(issues, bad, InvalidManifest(id));
  }

  lemma NextGood(h: Handle, objects: Objects, ids: set<string>, issues: seq<Issue>, live: set<string>, snapshots: int,
      id: string)
    requires Scanned(h, objects, ids, issues, live, snapshots) && id !in ids && ReadManifest(h, objects, id).Ok?
    ensures Scanned(h, objects, ids + {id}, issues, live + RefIds(ReadManifest(h, objects, id).value), snapshots + 1)
  {
    hide ReadManifest, RefIds, Reports;
    var bad := set i | i in ids && ReadManifest(h, objects, i).Err? :: BadManifest(i);
    var bad' := set i | i in ids + {id} && ReadManifest(h, objects, i).Err? :: BadManifest(i);
    assert bad' == bad;
    assert ManifestRefs(h, objects, id) == RefIds(ReadManifest(h, objects, id).value);
    var refs := set i, ref | i in ids && ref in ManifestRefs(h, objects, i) :: ref;
    var refs' := set i, ref | i in ids + {id} && ref in ManifestRefs(h, objects, i) :: ref;
    assert refs' == refs + ManifestRefs(h, objects, id);
  }

  /** The first half of `Check`. Unless an operation of the store failed, live is
      what the readable manifests refer to. It returns exactly when the nested calls
      do that read the selector's name; these are their listings. */
  method ScanManifests(r: Repository)
    returns (ok: bool, issues: seq<Issue>, live: set<string>, snapshots: int, ghost listings: seq<seq<string>>)
    ensures ok && (r.store.reliable || issues == []) ==>
              && Reports(issues, BadManifests(r.handle, r.store.objects))
              && live == LiveIds(r.handle, r.store.objects)
              && snapshots == |PublishedIds(r.handle, r.store.objects)| - |issues|
    ensures |listings| == r.depth
    ensures r.store.reliable ==>
              && AreOrders(r.handle, r.store.objects, listings)
              && (ok <==> SnapshotsNested(r.handle, r.store.objects, listings) != Err(Overflow))
  {
    hide ReadManifest, RefIds, Reports, Scanned, IsListing, PublishedIds, ListedIds, IdSet, Selected, SnapshotsNested,
      ReadNested;
    issues, live, snapshots := [], {}, 0;
    ghost var order := SomeOrder(r.handle, r.store.objects);
    listings := Repeat(order, r.depth);
    var listed := r.store.List(Prefix.Snapshots);
    if listed.Refused? {
      return false, issues, live, snapshots, listings;
    }
    ok := true;
    var entries := listed.value;
    ghost var ids: set<string> := {};
    NothingScanned(r.handle, r.store.objects);
    ListedIdsAreAll(r.handle, r.store.objects, entries);
    NoIds(r.handle, entries);
    for i := 0 to |entries|
      invariant ids == IdSet(ListedIds(r.handle, entries, i))
      invariant |listings| == r.depth && (r.store.reliable ==> AreOrders(r.handle, r.store.objects, listings))
      invariant r.store.reliable && LATEST in ids ==>
                  SnapshotsNested(r.handle, r.store.objects, listings) != Err(Overflow)
      invariant r.store.reliable || issues == [] ==> Scanned(r.handle, r.store.objects, ids, issues, live, snapshots)
    {
      var k := entries[i].key;
      NextListedId(r.handle, r.store.objects, entries, i);
      NextIdSet(r.handle, entries, i);
      if k.ManifestKey? && k.enc == r.handle.key.Some? && '/' !in k.id {
        ghost var nested;
        var read;
        read, nested := r.ReadWithin(k.id, r.depth);
        ReadOverflows(r.handle, r.store.objects, k.id, nested);
        if k.id == LATEST {
          listings := nested;
        }
        if read == Err(Overflow) {
          return false, issues, live, snapshots, listings;
        }
        SelectedPlain(r.handle, r.store.objects, k.id);
        LatestNotListed(r.handle, r.store.objects);
        if read.Err? {
          if r.store.reliable {
            LatestNeverReads(r.handle, r.store.objects);
            NextBad(r.handle, r.store.objects, ids, issues, live, snapshots, k.id);
          }
          issues := issues + [InvalidManifest(k.id)];
        } else {
          if r.store.reliable || issues == [] {
            NextGood(r.handle, r.store.objects, ids, issues, live, snapshots, k.id);
          }
          snapshots, live := snapshots + 1, live + RefIds(read.value);
        }
        ids := ids + {k.id};
      }
    }
    AllIdSet(r.handle, r.store.objects, entries);
    if r.store.reliable {
      OverflowExactly(r.handle, r.store.objects, listings);
    }
    if r.store.reliable || issues == [] {
      ScannedAll(r.handle, r.store.objects, issues, live, snapshots);
    }
  }

  function IdSet(ids: seq<string>): set<string> {
    set id | id in ids
  }

  lemma NoIds(h: Handle, entries: seq<Listed>)
    ensures IdSet(ListedIds(h, entries, 0)) == {}
  {}

  lemma NextIdSet(h: Handle, entries: seq<Listed>, i: nat)
    requires i < |entries|
    ensures IdSet(ListedIds(h, entries, i + 1)) ==
              IdSet(ListedIds(h, entries, i)) + if NamesSnapshot(h, entries[i].key) then {entries[i].key.id} else {}
    ensures forall id :: id in IdSet(ListedIds(h, entries, i)) <==> id in ListedIds(h, entries, i)
  {}

  lemma AllIdSet(h: Handle, objects: Objects, entries: seq<Listed>)
    requires IsOrder(h, objects, ListedIds(h, entries, |entries|))
    ensures IdSet(ListedIds(h, entries, |entries|)) == PublishedIds(h, objects)
  {
    hide ListedIds, PublishedIds;
  }

  lemma LatestNeverReads(h: Handle, objects: Objects)
    ensures ReadManifest(h, objects, LATEST).Err?
  {}

  lemma ReadOverflows(h: Handle, objects: Objects, id: string, listings: seq<seq<string>>)
    ensures id == LATEST ==>
              (ReadNested(h, objects, id, listings) == Err(Overflow)
               <==> SnapshotsNested(h, objects, listings) == Err(Overflow))
    ensures id != LATEST ==> ReadNested(h, objects, id, listings) == ReadManifest(h, objects, id)
  {
    hide SnapshotsNested, ReadManifest;
  }

  lemma NothingScanned(h: Handle, objects: Objects)
    ensures Scanned(h, objects, {}, [], {}, 0)
  {
    hide ReadManifest, RefIds;
    assert (set id | id in {} && ReadManifest(h, objects, id).Err? :: BadManifest(id)) == {};
  }

  lemma ScannedAll(h: Handle, objects: Objects, issues: seq<Issue>, live: set<string>, snapshots: int)
    requires Scanned(h, objects, PublishedIds(h, objects), issues, live, snapshots)
    ensures Reports(issues, BadManifests(h, objects)) && live == LiveIds(h, objects)
    ensures snapshots == |PublishedIds(h, objects)| - |issues|
  {
    hide ReadManifest, RefIds, Reports, PublishedIds;
  }

  /** The objects of the second listing by base name; of several with one base
      name the last listed is kept, but each is counted. */
  ghost predicate Filed(objects: Objects, keys: set<ObjKey>, issues: seq<Issue>, files: map<string, ObjKey>,
      stored: int) {
    && Reports(issues, set k | k in keys && !WellNamed(k) :: BadKey(k))
    && files.Keys == (set k | k in keys && WellNamed(k) :: k.base)
    && (forall id :: id in files ==> files[id] in keys && WellNamed(files[id]) && files[id].base == id)
    && stored == |keys| - |issues|
  }

  lemma FileOne(objects: Objects, keys: set<ObjKey>, issues: seq<Issue>, files: map<string, ObjKey>, stored: int,
      k: ObjKey)
    requires Filed(objects, keys, issues, files, stored) && k.ChunkKey? && k !in keys
    ensures if WellNamed(k) then Filed(objects, keys + {k}, issues, files[k.base := k], stored + 1)
            else Filed(objects, keys + {k}, issues + [InvalidChunkKey(k)], files, stored)
  {
    hide ValidChunkId, Reports;
    var bad := set j | j in keys && !WellNamed(j) :: BadKey(j);
    var bad' := set j | j in keys + {k} && !WellNamed(j) :: BadKey(j);
    var good := set j | j in keys && WellNamed(j) :: j.base;
    var good' := set j | j in keys + {k} && WellNamed(j) :: j.base;
    if WellNamed(k) {
      assert bad' == bad;
      assert good' == good + {k.base};
    } else {
      OneMore(issues, bad, InvalidChunkKey(k));
      assert bad' == bad + {BadKey(k)};
      assert good' == good;
    }
  }

  method FileKeys(ghost objects: Objects, list: seq<Listed>)
    returns (issues: seq<Issue>, files: map<string, ObjKey>, stored: int)
    requires IsListing(objects, Prefix.Chunks, list)
    ensures Filed(objects, ChunkKeys(objects), issues, files, stored)
  {
    hide IsListing, Filed, ListedKeys, ValidChunkId;
    issues, files, stored := [], map[], 0;
    assert Filed(objects, ListedKeys(list, 0), issues, files, stored) by {
      NothingFiled(objects, list);
    }
    for i := 0 to |list|
      invariant Filed(objects, ListedKeys(list, i), issues, files, stored)
    {
      var k := list[i].key;
      ListedChunk(objects, list, i);
      NextListedIsNew(objects, list, i);
      FileOne(objects, ListedKeys(list, i), issues, files, stored, k);
      ListedNext(list, i);
      if !k.ChunkKey? || !ValidChunkId(k.base) {
        issues := issues + [InvalidChunkKey(k)];
      } else {
        files, stored := files[k.base := k], stored + 1;
      }
    }
    ListedKeysAll(objects, list);
  }

  lemma NothingFiled(objects: Objects, list: seq<Listed>)
    ensures Filed(objects, ListedKeys(list, 0), [], map[], 0)
  {
    assert (set k: ObjKey | k in {} && !WellNamed(k) :: BadKey(k)) == {};
  }

  lemma ListedNext(list: seq<Listed>, n: nat)
    requires n < |list|
    ensures ListedKeys(list, n + 1) == ListedKeys(list, n) + {list[n].key}
  {}

  lemma ListedChunk(objects: Objects, list: seq<Listed>, n: nat)
    requires IsListing(objects, Prefix.Chunks, list) && n < |list|
    ensures list[n].key.ChunkKey?
  {
    assert list[n] in list;
  }

  /** The live IDs among some: those without an object, and those whose object
      does not verify. */
  ghost function LostAmong(objects: Objects, ids: set<string>): set<Finding> {
    set id | id in ids - StoredIds(objects) :: Lost(id)
  }

  ghost function CorruptAmong(h: Handle, objects: Objects, ids: set<string>): set<Finding> {
    set id | id in ids * StoredIds(objects) && ReadChunk(h, objects, id).Err? :: Corrupt(id)
  }

  ghost function Checked(h: Handle, objects: Objects, ids: set<string>): set<Finding> {
    LostAmong(objects, ids) + CorruptAmong(h, objects, ids)
  }

  /** What the scan adds for one live ID. */
  function NextIssue(h: Handle, objects: Objects, files: map<string, ObjKey>, id: string): seq<Issue> {
    if id !in files then [MissingChunk(id)]
    else if ReadChunk(h, objects, id).Err? then [CorruptChunk(files[id])]
    else []
  }

  lemma LiveNext(h: Handle, objects: Objects, ids: set<string>, issues: seq<Issue>, files: map<string, ObjKey>,
      id: string)
    requires files.Keys == StoredIds(objects) && id !in ids && Reports(issues, Checked(h, objects, ids))
    requires id in files ==> files[id].ChunkKey? && files[id].base == id
    ensures Reports(issues + NextIssue(h, objects, files, id), Checked(h, objects, ids + {id}))
  {
    hide ReadChunk, StoredIds, Reports, Checked, About;
    CheckedNext(h, objects, ids, id);
    var more := NextIssue(h, objects, files, id);
    if more == [] {
      assert issues + more == issues;
      assert Checked(h, objects, ids + {id}) == Checked(h, objects, ids);
    } else {
      NextIsNew(h, objects, ids, files, id);
      OneMore(issues, Checked(h, objects, ids), more[0]);
    }
  }

  lemma NextIsNew(h: Handle, objects: Objects, ids: set<string>, files: map<string, ObjKey>, id: string)
    requires files.Keys == StoredIds(objects) && id !in ids && NextIssue(h, objects, files, id) != []
    requires id in files ==> files[id].ChunkKey? && files[id].base == id
    ensures About(NextIssue(h, objects, files, id)[0]) == (if id in files then Corrupt(id) else Lost(id))
    ensures About(NextIssue(h, objects, files, id)[0]) !in Checked(h, objects, ids)
  {
    hide ReadChunk, StoredIds;
  }

  lemma CheckedNext(h: Handle, objects: Objects, ids: set<string>, id: string)
    ensures Checked(h, objects, ids + {id}) == Checked(h, objects, ids) +
              (if id !in StoredIds(objects) then {Lost(id)}
               else if ReadChunk(h, objects, id).Err? then {Corrupt(id)} else {})
  {
    hide ReadChunk, StoredIds;
    assert LostAmong(objects, ids + {id}) ==
             LostAmong(objects, ids) + if id !in StoredIds(objects) then {Lost(id)} else {};
    assert CorruptAmong(h, objects, ids + {id}) == CorruptAmong(h, objects, ids) +
             if id in StoredIds(objects) && ReadChunk(h, objects, id).Err? then {Corrupt(id)} else {};
  }

  /** The loop over the live IDs, in any order. */
  method CheckLive(r: Repository, live: set<string>, files: map<string, ObjKey>) returns (issues: seq<Issue>)
    requires files.Keys == StoredIds(r.store.objects)
    requires forall id :: id in files ==> files[id].ChunkKey? && files[id].base == id
    ensures r.store.reliable || issues == [] ==> Reports(issues, Checked(r.handle, r.store.objects, live))
  {
    hide ReadChunk, StoredIds, Checked, Reports;
    issues := [];
    ghost var done: set<string> := {};
    var rest := live;
    NothingChecked(r.handle, r.store.objects);
    while rest != {}
      invariant done !! rest && done + rest == live
      invariant r.store.reliable || issues == [] ==> Reports(issues, Checked(r.handle, r.store.objects, done))
      decreases rest
    {
      var id :| id in rest;
      if r.store.reliable || issues == [] {
        LiveNext(r.handle, r.store.objects, done, issues, files, id);
      }
      assert issues + [] == issues;
      rest, done := rest - {id}, done + {id};
      if id !in files {
        issues := issues + [MissingChunk(id)];
      } else {
        var ok := r.VerifyChunk(id);
        if !ok {
          issues := issues + [CorruptChunk(files[id])];
        }
      }
    }
    assert done == live;
  }

  lemma NothingChecked(h: Handle, objects: Objects)
    ensures Reports([], Checked(h, objects, {}))
  {
    hide ReadChunk, StoredIds;
  }

  predicate IsFileOf(files: map<string, ObjKey>, k: ObjKey) {
    k.ChunkKey? && k.base in files && files[k.base] == k
  }

  lemma UnusedNext(ids: set<string>, issues: seq<Issue>, k: ObjKey)
    requires Reports(issues, AsUnused(ids)) && k.ChunkKey? && k.base !in ids
    ensures Reports(issues + [OrphanChunk(k)], AsUnused(ids + {k.base}))
  {
    OneMore(issues, AsUnused(ids), OrphanChunk(k));
    assert AsUnused(ids + {k.base}) == AsUnused(ids) + {Unused(k.base)};
  }

  /** The loop over the stored IDs, in any order. */
  method CheckOrphans(live: set<string>, files: map<string, ObjKey>) returns (issues: seq<Issue>, orphans: nat)
    requires forall id :: id in files ==> files[id].ChunkKey? && files[id].base == id
    ensures Reports(issues, AsUnused(files.Keys - live))
    ensures orphans == |files.Keys - live|
    ensures forall x :: x in issues && x.OrphanChunk? ==> IsFileOf(files, x.key) && x.key.base !in live
  {
    hide Reports, AsUnused, UnusedAfter;
    issues, orphans := [], 0;
    ghost var unused: set<string> := {};
    var rest := files.Keys;
    NothingUnused();
    while rest != {}
      invariant rest <= files.Keys && unused == UnusedAfter(files.Keys, rest, live) && orphans == |unused|
      invariant Reports(issues, AsUnused(unused))
      invariant forall x :: x in issues && x.OrphanChunk? ==> IsFileOf(files, x.key) && x.key.base !in live
      decreases rest
    {
      var id :| id in rest;
      UnusedStep(files.Keys, rest, live, id);
      if id !in live {
        UnusedNext(unused, issues, files[id]);
        unused := unused + {id};
        issues, orphans := issues + [OrphanChunk(files[id])], orphans + 1;
      }
      rest := rest - {id};
    }
  }

  /** The IDs known to be unused once only rest is left. */
  function UnusedAfter(ids: set<string>, rest: set<string>, live: set<string>): (unused: set<string>)
    ensures rest == ids ==> unused == {}
    ensures rest == {} ==> unused == ids - live
  {
    ids - rest - live
  }

  lemma UnusedStep(ids: set<string>, rest: set<string>, live: set<string>, id: string)
    requires rest <= ids && id in rest
    ensures id !in UnusedAfter(ids, rest, live)
    ensures UnusedAfter(ids, rest - {id}, live) ==
              if id in live then UnusedAfter(ids, rest, live) else UnusedAfter(ids, rest, live) + {id}
  {}

  lemma NothingUnused()
    ensures Reports([], AsUnused({}))
  {}

  /** `Check`. On a store that answers, the issues are exactly the findings and
      each is reported once; a clean report is right about any store. It does not
      return exactly when the selector's name is listed and every one of the nested
      listings comes to it before a manifest that cannot be read. */
  method Check(r: Repository) returns (ok: bool, report: CheckReport, ghost listings: seq<seq<string>>)
    ensures ok && (r.store.reliable || report.Healthy()) ==>
              && Reports(report.issues, Findings(r.handle, r.store.objects))
              && report.snapshots ==
                   |PublishedIds(r.handle, r.store.objects)| - |BadManifests(r.handle, r.store.objects)|
              && report.referenced == |LiveIds(r.handle, r.store.objects)|
              && report.stored == |ChunkKeys(r.store.objects)| - |BadKeys(r.store.objects)|
              && report.orphans == |UnusedIds(r.handle, r.store.objects)|
              && forall k :: OrphanChunk(k) in report.issues ==> k in Orphans(r.handle, r.store.objects)
    ensures |listings| == r.depth
    ensures r.store.reliable ==>
              && AreOrders(r.handle, r.store.objects, listings)
              && (!ok <==> && LATEST in PublishedIds(r.handle, r.store.objects)
                           && forall i :: 0 <= i < |listings| ==>
                                Descends(r.handle, r.store.objects, listings[i]))
    ensures r.store.reliable && LATEST !in PublishedIds(r.handle, r.store.objects) ==> ok
    ensures r.store.reliable && Recurses(r.handle, r.store.objects) ==> !ok
  {
    hide LiveIds, StoredIds, Reports, IsListing, Checked, PublishedIds, ReadManifest, Findings, BadManifests, BadKeys,
      ChunkKeys, Filed, SnapshotsNested, Descends, Recurses;
    report := CheckReport(0, 0, 0, 0, []);
    var bad, live, snapshots;
    ok, bad, live, snapshots, listings := ScanManifests(r);
    if r.store.reliable {
      OverflowExactly(r.handle, r.store.objects, listings);
      if Recurses(r.handle, r.store.objects) {
        RecursesForEver(r.handle, r.store.objects, listings);
      }
    }
    if !ok {
      return;
    }
    var listed := r.store.List(Prefix.Chunks);
    if listed.Refused? {
      return false, report, listings;
    }
    var misnamed, files, stored := FileKeys(r.store.objects, listed.value);
    FiledIs(r.store.objects, misnamed, files, stored);
    var damaged := CheckLive(r, live, files);
    var unused, orphans := CheckOrphans(live, files);
    ReportsCount(bad, BadManifests(r.handle, r.store.objects));
    report := CheckReport(snapshots, |live|, stored, orphans, bad + misnamed + damaged + unused);
    if r.store.reliable || report.Healthy() {
      TogetherFindings(r.handle, r.store.objects, bad, misnamed, damaged, unused);
      OrphansComeLast(r.handle, r.store.objects, bad, misnamed, damaged);
    }
  }

  lemma ReportsCount(issues: seq<Issue>, found: set<Finding>)
    ensures Reports(issues, found) ==> |issues| == |found|
  {}

  lemma FiledIs(objects: Objects, issues: seq<Issue>, files: map<string, ObjKey>, stored: int)
    requires Filed(objects, ChunkKeys(objects), issues, files, stored)
    ensures Reports(issues, BadKeys(objects)) && files.Keys == StoredIds(objects)
    ensures forall id :: id in files ==> files[id].ChunkKey? && files[id].base == id
    ensures forall k :: IsFileOf(files, k) ==> k in objects
    ensures stored == |ChunkKeys(objects)| - |BadKeys(objects)|
  {
    hide ValidChunkId, Named;
    assert (set k | k in ChunkKeys(objects) && !WellNamed(k) :: BadKey(k)) == BadKeys(objects);
    assert (set k | k in ChunkKeys(objects) && WellNamed(k) :: k.base) == StoredIds(objects);
  }

  lemma Joined(a: seq<Issue>, b: seq<Issue>, fa: set<Finding>, fb: set<Finding>)
    requires Reports(a, fa) && Reports(b, fb) && fa !! fb
    ensures Reports(a + b, fa + fb)
  {
    assert forall y :: y in a + b <==> y in a || y in b;
    assert Named(a + b) == Named(a) + Named(b);
  }

  lemma TogetherFindings(h: Handle, objects: Objects, bad: seq<Issue>, misnamed: seq<Issue>, damaged: seq<Issue>,
      unused: seq<Issue>)
    requires Reports(bad, BadManifests(h, objects)) && Reports(misnamed, BadKeys(objects))
    requires Reports(damaged, Checked(h, objects, LiveIds(h, objects))) && Reports(unused, UnusedChunks(h, objects))
    ensures Reports(bad + misnamed + damaged + unused, Findings(h, objects))
  {
    hide *;
    Kinds(h, objects);
    var damage := Checked(h, objects, LiveIds(h, objects));
    Joined(bad, misnamed, BadManifests(h, objects), BadKeys(objects));
    Joined(bad + misnamed, damaged, BadManifests(h, objects) + BadKeys(objects), damage);
    var found := BadManifests(h, objects) + BadKeys(objects) + damage;
    Joined(bad + misnamed + damaged, unused, found, UnusedChunks(h, objects));
    FindingsAre(h, objects);
  }

  lemma Kinds(h: Handle, objects: Objects)
    ensures forall f :: f in BadManifests(h, objects) ==> f.BadManifest?
    ensures forall f :: f in BadKeys(objects) ==> f.BadKey? && f.key.ChunkKey?
    ensures forall f :: f in Checked(h, objects, LiveIds(h, objects)) ==> f.Lost? || f.Corrupt?
    ensures forall f :: f in UnusedChunks(h, objects) ==> f.Unused?
  {
    hide LiveIds, StoredIds, ReadChunk, ReadManifest, PublishedIds, ValidChunkId;
  }

  lemma FindingsAre(h: Handle, objects: Objects)
    ensures Findings(h, objects) ==
              BadManifests(h, objects) + BadKeys(objects) + Checked(h, objects, LiveIds(h, objects)) +
                UnusedChunks(h, objects)
  {
    hide LiveIds, StoredIds, ReadChunk, BadManifests, BadKeys, UnusedChunks;
    assert LostChunks(h, objects) == LostAmong(objects, LiveIds(h, objects));
    assert CorruptChunks(h, objects) == CorruptAmong(h, objects, LiveIds(h, objects));
  }

  lemma OrphansComeLast(h: Handle, objects: Objects, bad: seq<Issue>, misnamed: seq<Issue>, damaged: seq<Issue>)
    requires Reports(bad, BadManifests(h, objects)) && Reports(misnamed, BadKeys(objects))
    requires Reports(damaged, Checked(h, objects, LiveIds(h, objects)))
    ensures forall x :: x in bad + misnamed + damaged ==> !x.OrphanChunk?
  {
    hide *;
    Kinds(h, objects);
    NoOrphanAmong(bad, BadManifests(h, objects));
    NoOrphanAmong(misnamed, BadKeys(objects));
    NoOrphanAmong(damaged, Checked(h, objects, LiveIds(h, objects)));
  }

  lemma NoOrphanAmong(issues: seq<Issue>, found: set<Finding>)
    requires Reports(issues, found)
    requires forall f :: f in found ==> !f.Unused? && (f.BadKey? ==> f.key.ChunkKey?)
    ensures forall x :: x in issues ==> !x.OrphanChunk?
  {
    forall x | x in issues
      ensures !x.OrphanChunk?
    {
      assert About(x) in found;
    }
  }

  /* ---- what a clean report means ---- */

  /** A store is healthy exactly when every listed manifest can be read, every
      chunk they refer to verifies, and a collection would remove nothing. */
  lemma HealthyMeans(h: Handle, objects: Objects)
    ensures Findings(h, objects) == {} <==>
              && AllReadable(h, objects)
              && (forall id :: id in LiveIds(h, objects) ==> ReadChunk(h, objects, id).Ok?)
              && Orphans(h, objects) == {}
  {
    hide LiveIds, ReadManifest, PublishedIds, ChunkPlain;
    if Findings(h, objects) == {} {
      forall id | id in PublishedIds(h, objects)
        ensures ReadManifest(h, objects, id).Ok?
      {
        assert BadManifest(id) !in Findings(h, objects);
      }
      forall id | id in LiveIds(h, objects)
        ensures ReadChunk(h, objects, id).Ok?
      {
        assert Lost(id) !in Findings(h, objects) && Corrupt(id) !in Findings(h, objects);
      }
      forall k | k in objects && k.ChunkKey?
        ensures k.base in LiveIds(h, objects)
      {
        assert BadKey(k) !in Findings(h, objects);
        assert WellNamed(k) && k.base in StoredIds(objects);
        assert Unused(k.base) !in Findings(h, objects);
      }
    } else {
      var f :| f in Findings(h, objects);
      match f {
        case BadManifest(id) => assert ReadManifest(h, objects, id).Err?;
        case BadKey(k) =>
          if k.base in LiveIds(h, objects) {
            assert ReadChunk(h, objects, k.base).Err?;
          } else {
            assert k in Orphans(h, objects);
          }
        case Lost(id) => LiveButNotStored(h, objects, id);
        case Corrupt(id) => assert ReadChunk(h, objects, id).Err?;
        case Unused(id) =>
          var k :| k in objects && WellNamed(k) && k.base == id;
          assert k in Orphans(h, objects);
      }
    }
  }

  lemma LiveButNotStored(h: Handle, objects: Objects, id: string)
    requires id !in StoredIds(objects)
    ensures ReadChunk(h, objects, id).Err?
  {
    if ValidChunkId(id) && ChunkKeyOf(id) in objects {
      assert WellNamed(ChunkKeyOf(id));
    }
  }

  /* ---- the orphans of the scan and of the collector ---- */

  /** No orphan has a malformed base name and no two share one. */
  ghost predicate OrphansAreDistinct(h: Handle, objects: Objects) {
    && (forall k :: k in Orphans(h, objects) ==> WellNamed(k))
    && (forall k, l :: k in Orphans(h, objects) && l in Orphans(h, objects) && k.base == l.base ==> k == l)
  }

  /** Every chunk object is where `PutChunk` stores it. */
  ghost predicate Canonical(objects: Objects) {
    forall k :: k in objects && k.ChunkKey? ==> WellNamed(k) && k == ChunkKeyOf(k.base)
  }

  lemma CanonicalIsDistinct(h: Handle, objects: Objects)
    requires Canonical(objects)
    ensures OrphansAreDistinct(h, objects)
  {
    hide LiveIds, ValidChunkId;
  }

  function Bases(keys: set<ObjKey>): set<string> {
    set k | k in keys && k.ChunkKey? :: k.base
  }

  lemma {:induction false} BasesCount(keys: set<ObjKey>)
    requires forall k :: k in keys ==> k.ChunkKey?
    ensures |Bases(keys)| <= |keys|
    ensures |Bases(keys)| == |keys| <==> forall k, l :: k in keys && l in keys && k.base == l.base ==> k == l
    decreases keys
  {
    if keys != {} {
      var k :| k in keys;
      var rest := keys - {k};
      BasesCount(rest);
      assert Bases(keys) == Bases(rest) + {k.base};
      if k.base in Bases(rest) {
        var l :| l in rest && l.ChunkKey? && l.base == k.base;
        assert Bases(keys) == Bases(rest);
      } else {
        forall a, b | a in rest && b in rest && a.base == b.base && (forall x,
            y :: x in keys && y in keys && x.base == y.base ==> x == y)
          ensures a == b
        {
          assert a in keys && b in keys;
        }
      }
    } else {
      assert Bases(keys) == {};
    }
  }

  lemma UnusedAreBases(h: Handle, objects: Objects)
    ensures UnusedIds(h, objects) == Bases(set k | k in Orphans(h, objects) && WellNamed(k))
  {
    hide LiveIds, ValidChunkId;
  }

  /** The scan counts as many orphans as the collector would delete exactly when
      no orphan has a malformed name and no two share a base name. */
  lemma OrphanCountsAgree(h: Handle, objects: Objects)
    ensures |UnusedIds(h, objects)| <= |Orphans(h, objects)|
    ensures |UnusedIds(h, objects)| == |Orphans(h, objects)| <==> OrphansAreDistinct(h, objects)
  {
    hide LiveIds, ValidChunkId, UnusedIds;
    var all := Orphans(h, objects);
    var named := set k | k in all && WellNamed(k);
    UnusedAreBases(h, objects);
    BasesCount(named);
    PartSizes(all, named);
    assert all - named == {} <==> forall k :: k in all ==> WellNamed(k);
    if all - named == {} {
      assert named == all;
    }
  }

  /** The orphans it reports are exactly the objects a collection deletes under the
      same condition. */
  lemma ReportedOrphansAreCollected(h: Handle, objects: Objects, issues: seq<Issue>)
    requires Reports(issues, Findings(h, objects))
    requires forall k :: OrphanChunk(k) in issues ==> k in Orphans(h, objects)
    ensures (forall k :: OrphanChunk(k) in issues <==> k in Orphans(h, objects)) <==> OrphansAreDistinct(h, objects)
  {
    hide Orphans, Findings, Reports, WellNamed;
    if OrphansAreDistinct(h, objects) {
      forall k | k in Orphans(h, objects)
        ensures OrphanChunk(k) in issues
      {
        OrphanIsFound(h, objects, k);
        var l := IssueFor(issues, Findings(h, objects), k.base);
        assert l in Orphans(h, objects);
      }
    } else if forall k :: OrphanChunk(k) in issues <==> k in Orphans(h, objects) {
      forall k | k in Orphans(h, objects)
        ensures WellNamed(k) && k.ChunkKey?
      {
        IssueIsUnused(h, objects, issues, k);
      }
      forall k, l | k in Orphans(h, objects) && l in Orphans(h, objects) && k.base == l.base
        ensures k == l
      {
        SameOrphan(issues, Findings(h, objects), k, l);
      }
    }
  }

  lemma IssueIsUnused(h: Handle, objects: Objects, issues: seq<Issue>, k: ObjKey)
    requires Reports(issues, Findings(h, objects)) && OrphanChunk(k) in issues && k in Orphans(h, objects)
    ensures WellNamed(k) && k.ChunkKey?
  {
    hide LiveIds, ValidChunkId, BadManifests, BadKeys, Checked, Findings;
    Kinds(h, objects);
    FindingsAre(h, objects);
    assert About(OrphanChunk(k)) in Named(issues);
  }

  lemma {:induction false} NamedAtMost(issues: seq<Issue>)
    ensures |Named(issues)| <= |issues|
  {
    if issues != [] {
      var front, last := issues[..|issues| - 1], issues[|issues| - 1];
      NamedAtMost(front);
      assert issues == front + [last];
      assert Named(issues) == Named(front) + {About(last)};
    }
  }

  /** A finding that is reported twice makes the issues too many. */
  lemma RepeatedIsTooMany(issues: seq<Issue>, i: nat, j: nat)
    requires i < j < |issues| && About(issues[i]) == About(issues[j])
    ensures |Named(issues)| < |issues|
  {
    var rest := issues[..j] + issues[j + 1..];
    NamedAtMost(rest);
    forall x | x in issues
      ensures About(x) in Named(rest)
    {
      var k :| 0 <= k < |issues| && issues[k] == x;
      assert issues[i] == rest[i];
      if k != j {
        assert x == rest[if k < j then k else k - 1];
      }
    }
    assert forall x :: x in rest ==> x in issues;
    assert Named(rest) == Named(issues);
  }

  lemma SameOrphan(issues: seq<Issue>, found: set<Finding>, k: ObjKey, l: ObjKey)
    requires Reports(issues, found) && OrphanChunk(k) in issues && OrphanChunk(l) in issues
    requires k.ChunkKey? && l.ChunkKey? && k.base == l.base
    ensures k == l
  {
    var i :| 0 <= i < |issues| && issues[i] == OrphanChunk(k);
    var j :| 0 <= j < |issues| && issues[j] == OrphanChunk(l);
    if i < j {
      RepeatedIsTooMany(issues, i, j);
    } else if j < i {
      RepeatedIsTooMany(issues, j, i);
    }
  }

  lemma OrphanIsFound(h: Handle, objects: Objects, k: ObjKey)
    requires k in Orphans(h, objects) && WellNamed(k)
    ensures k.ChunkKey? && Unused(k.base) in Findings(h, objects)
  {
    hide LiveIds, ValidChunkId, BadManifests, BadKeys, LostChunks, CorruptChunks;
    assert k.base in UnusedIds(h, objects);
  }

  lemma IssueFor(issues: seq<Issue>, found: set<Finding>, id: string) returns (k: ObjKey)
    requires Reports(issues, found) && Unused(id) in found
    ensures k.ChunkKey? && k.base == id && OrphanChunk(k) in issues
  {
    assert Unused(id) in Named(issues);
    var x :| x in issues && About(x) == Unused(id);
    k := x.key;
  }

  /** Two copies of one chunk under different directories: the scan reports one
      orphan, a collection deletes two objects. */
  lemma DuplicateOrphansDiffer(h: Handle, o: Object)
    ensures var id := seq(64, i => '0');
            var objects := map[ChunkKey("00/00", id) := o, ChunkKey("ff/ff", id) := o];
            |UnusedIds(h, objects)| == 1 && |Orphans(h, objects)| == 2
  {
    hide ReadManifest;
    var id := seq(64, i => '0');
    var objects := map[ChunkKey("00/00", id) := o, ChunkKey("ff/ff", id) := o];
    assert "00/00"[0] == '0' && "ff/ff"[0] == 'f';
    assert LiveIds(h, objects) == {};
    assert WellNamed(ChunkKey("00/00", id));
    assert UnusedIds(h, objects) == {id};
    assert Orphans(h, objects) == {ChunkKey("00/00", id), ChunkKey("ff/ff", id)};
  }
}
