/** Copying every published snapshot into a second repository. */
module Replicate {
  import opened Chunker
  import opened Model
  import opened Store
  import opened Sums
  import opened Published
  import opened Repository
  import Retention

  /* ---- what copying may do to the target ---- */

  /** Nothing stored changes, and a chunk that could not be found may now be
      readable; what was unreadable stays so. */
  ghost predicate Fills(h: Handle, a: Objects, b: Objects) {
    && (forall k :: k in a ==> k in b && b[k] == a[k])
    && (forall c ::
        ReadChunk(h, b, c) == ReadChunk(h, a, c) || (ReadChunk(h, a, c) == Err(NotFound) && ReadChunk(h, b, c).Ok?))
  }

  /** The manifest and every chunk it refers to can be read. */
  ghost predicate Whole(h: Handle, objects: Objects, id: string) {
    && ReadManifest(h, objects, id).Ok?
    && forall c :: c in ManifestRefs(h, objects, id) ==> ReadChunk(h, objects, c).Ok?
  }

  /** No manifest changes. */
  ghost predicate SameSnapshots(h: Handle, a: Objects, b: Objects) {
    PublishedIds(h, a) == PublishedIds(h, b) && forall id :: ReadManifest(h, a, id) == ReadManifest(h, b, id)
  }

  /** At most this snapshot is new, and then with all its chunks. */
  ghost predicate Gains(h: Handle, a: Objects, b: Objects, m: Manifest) {
    && Fills(h, a, b)
    && (|| SameSnapshots(h, a, b)
        || (&& m.id !in PublishedIds(h, a) && PublishedIds(h, b) == PublishedIds(h, a) + {m.id}
            && (forall id :: id != m.id ==> ReadManifest(h, b, id) == ReadManifest(h, a, id))
            && ReadManifest(h, b, m.id) == Ok(m) && Whole(h, b, m.id)))
  }

  lemma FillsTwice(h: Handle, a: Objects, b: Objects, c: Objects)
    requires Fills(h, a, b) && Fills(h, b, c)
    ensures Fills(h, a, c)
  {
    hide ReadChunk;
  }

  lemma FillsKeepsWhole(h: Handle, a: Objects, b: Objects, id: string)
    requires Fills(h, a, b) && Whole(h, a, id)
    ensures Whole(h, b, id) && ReadManifest(h, b, id) == ReadManifest(h, a, id)
  {
    hide ReadChunk, ManifestPlain, RefIds;
  }

  lemma OnlyOneChunk(h: Handle, a: Objects, b: Objects, data: Bytes)
    requires AddsChunk(h, a, b, data)
    ensures Fills(h, a, b) && SameSnapshots(h, a, b)
    ensures forall c :: c != h.prims.hash(data) ==> ReadChunk(h, b, c) == ReadChunk(h, a, c)
    ensures ReadChunk(h, a, h.prims.hash(data)) == Err(NotFound) && ReadChunk(h, b, h.prims.hash(data)).Ok?
  {
    hide ChunkPlain, ManifestPlain, StoredChunk, RefIds;
    ghost var nonce, version :| b == a[ChunkKeyOf(h.prims.hash(data)) := Object(StoredChunk(h, nonce, data), version)];
    StoredChunkReads(h, nonce, data);
    SameManifests(h, a, b);
  }

  lemma OneManifest(h: Handle, a: Objects, b: Objects, m: Manifest, nonce: nat, version: nat)
    requires ValidManifest(m) && PlainId(m.id)
    requires ManifestKeyOf(h, m.id) !in a
    requires b == a[ManifestKeyOf(h, m.id) := Object(StoredManifest(h, nonce, m), version)]
    requires forall c :: c in RefIds(m) ==> ReadChunk(h, a, c).Ok?
    ensures Gains(h, a, b, m) && m.id in PublishedIds(h, b) && ChunkKeys(b) == ChunkKeys(a)
  {
    hide ChunkPlain, ValidManifest, RefIds;
    var k := ManifestKeyOf(h, m.id);
    forall id
      ensures id in PublishedIds(h, b) <==> id in PublishedIds(h, a) + {m.id}
    {
      assert id in PublishedIds(h, b) <==> '/' !in id && ManifestKeyOf(h, id) in b;
      assert id in PublishedIds(h, a) <==> '/' !in id && ManifestKeyOf(h, id) in a;
    }
    assert ReadManifest(h, b, m.id) == Ok(m);
    forall c
      ensures ReadChunk(h, b, c) == ReadChunk(h, a, c)
    {}
  }

  /* ---- copying ---- */

  /** The source can read the chunk, and what the target may already have under
      its key is intact. */
  ghost predicate Copyable(source: Repository, h: Handle, target: Objects, c: string)
    reads source, source.store
  {
    ReadChunk(source.handle, source.store.objects, c).Ok? && ReadChunk(h, target, c) != Err(Invalid)
  }

  lemma FillsSelf(h: Handle, a: Objects)
    ensures Fills(h, a, a) && SameSnapshots(h, a, a)
  {}

  /** What a put of this chunk may do to the target. */
  ghost predicate GainsChunk(h: Handle, a: Objects, b: Objects, c: string) {
    && Fills(h, a, b) && SameSnapshots(h, a, b)
    && forall d :: d != c ==> ReadChunk(h, b, d) == ReadChunk(h, a, d)
  }

  method CopyChunk(source: Repository, target: Repository, c: string) returns (ok: bool, created: bool)
    requires target.store.Valid() && source.store != target.store && source.handle.prims == target.handle.prims
    modifies target.store
    ensures target.store.Valid()
    ensures GainsChunk(target.handle, old(target.store.objects), target.store.objects, c)
    ensures ok ==>
              && Copyable(source, target.handle, old(target.store.objects), c)
              && ReadChunk(target.handle, target.store.objects, c).Ok?
              && |ChunkKeys(target.store.objects)| == |ChunkKeys(old(target.store.objects))| + if created then 1 else 0
    ensures source.store.reliable && target.store.reliable ==>
              (Copyable(source, target.handle, old(target.store.objects), c) ==> ok)
  {
    hide ReadChunk, ReadManifest, PublishedIds, ChunkKeys, StoredChunk, Fills, SameSnapshots, AddsChunk;
    ok, created := false, false;
    FillsSelf(target.handle, target.store.objects);
    var plain := source.FetchChunk(c);
    if plain.Err? {
      return;
    }
    ReadHashes(source.handle, source.store.objects, c);
    ghost var now := target.store.objects;
    var put := target.PutChunk(plain.value, false);
    if target.store.objects != now {
      OnlyOneChunk(target.handle, now, target.store.objects, plain.value);
    }
    if put.PutFailed? || put.id != c {
      return;
    }
    return true, put.created;
  }

  function Named(refs: seq<ChunkRef>): set<string> {
    set ref | ref in refs :: ref.id
  }

  lemma NamedNext(refs: seq<ChunkRef>, i: nat)
    requires i < |refs|
    ensures Named(refs[..i + 1]) == Named(refs[..i]) + {refs[i].id}
  {
    assert refs[..i + 1] == refs[..i] + [refs[i]];
  }

  /** The target after some chunks have been copied. */
  ghost predicate Copied(source: Repository, h: Handle, a: Objects, b: Objects, ids: set<string>)
    reads source, source.store
  {
    && Fills(h, a, b) && SameSnapshots(h, a, b)
    && (forall c :: c in ids ==> ReadChunk(h, b, c).Ok?)
    && (forall c :: c in ids ==> Copyable(source, h, a, c))
    && (forall c :: c !in ids ==> ReadChunk(h, b, c) == ReadChunk(h, a, c))
  }

  lemma CopiedNext(source: Repository, h: Handle, a: Objects, b: Objects, b': Objects, ids: set<string>, c: string)
    requires Copied(source, h, a, b, ids) && c !in ids && GainsChunk(h, b, b', c)
    requires ReadChunk(h, b', c).Ok? && Copyable(source, h, b, c)
    ensures Copied(source, h, a, b', ids + {c})
  {
    hide ReadChunk, ReadManifest, PublishedIds;
    FillsTwice(h, a, b, b');
  }

  lemma CopiedThenFailed(source: Repository, h: Handle, a: Objects, b: Objects, b': Objects, ids: set<string>,
      c: string)
    requires Copied(source, h, a, b, ids) && c !in ids && GainsChunk(h, b, b', c)
    ensures Fills(h, a, b') && SameSnapshots(h, a, b')
    ensures Copyable(source, h, b, c) == Copyable(source, h, a, c)
  {
    hide ReadChunk, ReadManifest, PublishedIds;
    FillsTwice(h, a, b, b');
  }

  /** Copies the chunks of some references, each once; nothing else of the target
      changes. */
  method CopyRefs(source: Repository, target: Repository, refs: seq<ChunkRef>, before: set<string>)
    returns (ok: bool, seen: set<string>, created: nat, reused: nat)
    requires target.store.Valid() && source.store != target.store && source.handle.prims == target.handle.prims
    modifies target.store
    ensures target.store.Valid()
    ensures Fills(target.handle, old(target.store.objects), target.store.objects)
    ensures SameSnapshots(target.handle, old(target.store.objects), target.store.objects)
    ensures ok ==>
              && seen == before + Named(refs)
              && Copied(source, target.handle, old(target.store.objects), target.store.objects, seen - before)
              && created + reused == |seen - before|
              && |ChunkKeys(target.store.objects)| == |ChunkKeys(old(target.store.objects))| + created
    ensures source.store.reliable && target.store.reliable && !ok ==>
              exists c :: c in Named(refs) - before && !Copyable(source, target.handle, old(target.store.objects), c)
  {
    hide ReadChunk, ReadManifest, PublishedIds, ChunkKeys, Fills, SameSnapshots, Copyable, GainsChunk, Named, Copied;
    ok, seen, created, reused := false, before, 0, 0;
    ghost var start := target.store.objects;
    NothingCopied(source, target.handle, start);
    assert refs[..0] == [];
    assert before - before == {};
    for i := 0 to |refs|
      invariant target.store.Valid()
      invariant Copied(source, target.handle, start, target.store.objects, seen - before)
      invariant seen == before + Named(refs[..i]) && created + reused == |seen - before|
      invariant |ChunkKeys(target.store.objects)| == |ChunkKeys(start)| + created
    {
      var c := refs[i].id;
      NamedNext(refs, i);
      if c in seen {
        continue;
      }
      ghost var now := target.store.objects;
      var made;
      ok, made := CopyChunk(source, target, c);
      CopiedThenFailed(source, target.handle, start, now, target.store.objects, seen - before, c);
      if !ok {
        NamedHas(refs, i);
        assert c in Named(refs) - before;
        return;
      }
      CopiedNext(source, target.handle, start, now, target.store.objects, seen - before, c);
      assert seen + {c} - before == seen - before + {c};
      seen := seen + {c};
      if made {
        created := created + 1;
      } else {
        reused := reused + 1;
      }
    }
    assert refs[..|refs|] == refs;
    CopiedFills(source, target.handle, start, target.store.objects, seen - before);
    ok := true;
  }

  lemma CopiedFills(source: Repository, h: Handle, a: Objects, b: Objects, ids: set<string>)
    requires Copied(source, h, a, b, ids)
    ensures Fills(h, a, b) && SameSnapshots(h, a, b)
  {}

  lemma NamedHas(refs: seq<ChunkRef>, i: nat)
    requires i < |refs|
    ensures refs[i].id in Named(refs)
  {}

  lemma NothingCopied(source: Repository, h: Handle, a: Objects)
    ensures Copied(source, h, a, a, {}) && Named([]) == {}
  {}

  /* ---- one snapshot ---- */

  ghost function EntryRefs(files: seq<FileEntry>): set<string> {
    set e, r | e in files && r in e.chunks :: r.id
  }

  lemma EntryRefsNext(files: seq<FileEntry>, i: nat)
    requires i < |files|
    ensures EntryRefs(files[..i + 1]) == EntryRefs(files[..i]) + Named(files[i].chunks)
  {
    assert files[..i + 1] == files[..i] + [files[i]];
  }

  /** The target holds the snapshot as it is in the source, or does not hold it
      and can take every chunk of it. */
  ghost predicate Replicable(source: Repository, h: Handle, target: Objects, m: Manifest)
    reads source, source.store
  {
    || ReadManifest(h, target, m.id) == Ok(m)
    || (ReadManifest(h, target, m.id) == Err(NotFound) && forall c :: c in RefIds(m) ==> Copyable(source, h, target, c))
  }

  lemma GainsNothing(h: Handle, a: Objects, b: Objects, m: Manifest)
    requires Fills(h, a, b) && SameSnapshots(h, a, b)
    ensures Gains(h, a, b, m)
  {}

  lemma ReadIsPublished(h: Handle, objects: Objects, id: string)
    ensures ReadManifest(h, objects, id).Ok? ==> id in PublishedIds(h, objects)
    ensures ReadManifest(h, objects, id) == Err(NotFound) ==> id !in PublishedIds(h, objects)
    ensures id in PublishedIds(h, objects) <==> '/' !in id && ManifestKeyOf(h, id) in objects
  {
    hide ManifestPlain;
    assert id in PublishedIds(h, objects) <==> '/' !in id && ManifestKeyOf(h, id) in objects;
  }

  lemma CopiedStart(source: Repository, h: Handle, a: Objects)
    ensures Copied(source, h, a, a, {}) && Fills(h, a, a) && SameSnapshots(h, a, a) && EntryRefs([]) == {}
  {}

  lemma CopiedMore(source: Repository, h: Handle, a: Objects, b: Objects, c: Objects, ids: set<string>, m: Manifest,
      i: nat)
    requires Copied(source, h, a, b, ids) && Fills(h, b, c) && SameSnapshots(h, b, c) && i < |m.files|
    ensures Fills(h, a, c) && SameSnapshots(h, a, c)
    ensures (exists x :: x in Named(m.files[i].chunks) - ids && !Copyable(source, h, b, x)) ==>
              exists x :: x in RefIds(m) && !Copyable(source, h, a, x)
  {
    hide ReadChunk, ReadManifest, PublishedIds;
    FillsTwice(h, a, b, c);
    if x :| x in Named(m.files[i].chunks) - ids && !Copyable(source, h, b, x) {
      assert m.files[i] in m.files;
      assert x in RefIds(m) && !Copyable(source, h, a, x);
    }
  }

  lemma CopiedBoth(source: Repository, h: Handle, a: Objects, b: Objects, c: Objects, ids: set<string>,
      more: set<string>)
    requires ids <= more && Copied(source, h, a, b, ids) && Copied(source, h, b, c, more - ids)
    ensures Copied(source, h, a, c, more)
  {
    hide ReadChunk, ReadManifest, PublishedIds;
    FillsTwice(h, a, b, c);
  }

  lemma EntryRefsAll(m: Manifest)
    ensures EntryRefs(m.files) == RefIds(m)
  {}

  lemma PublishGains(source: Repository, h: Handle, a: Objects, b: Objects, c: Objects, m: Manifest, clock: nat)
    requires Copied(source, h, a, b, RefIds(m)) && m.id !in PublishedIds(h, a)
    requires PlainId(m.id)
    requires || c == b
             || (ValidManifest(m) && c == b[ManifestKeyOf(h, m.id) := Object(StoredManifest(h, clock, m), clock)])
    ensures ManifestKeyOf(h, m.id) !in b
    ensures Gains(h, a, c, m) && ChunkKeys(c) == ChunkKeys(b)
    ensures ManifestKeyOf(h, m.id) in c ==> ReadManifest(h, c, m.id) == Ok(m)
    ensures forall x :: x in RefIds(m) ==> Copyable(source, h, a, x)
  {
    hide ReadChunk, RefIds, ValidManifest, StoredManifest, ManifestPlain, ChunkKeys, Whole, Fills;
    ReadIsPublished(h, b, m.id);
    if c != b {
      OneManifest(h, b, c, m, clock, clock);
      GainsFills(h, b, c, m);
      FillsTwice(h, a, b, c);
    }
  }

  lemma GainsFills(h: Handle, a: Objects, b: Objects, m: Manifest)
    requires Gains(h, a, b, m)
    ensures Fills(h, a, b)
  {}

  /** One round of the loop of `ReplicateTo`: compares or copies a snapshot. The
      manifest comes last, so whatever is published is complete. */
  method CopySnapshot(source: Repository, target: Repository, m: Manifest)
    returns (ok: bool, copied: bool, created: nat, reused: nat)
    requires target.store.Valid() && source.store != target.store && source.handle.prims == target.handle.prims
    requires ReadManifest(source.handle, source.store.objects, m.id) == Ok(m)
    modifies target.store
    ensures target.store.Valid()
    ensures Gains(target.handle, old(target.store.objects), target.store.objects, m)
    ensures ok ==>
              && ReadManifest(target.handle, target.store.objects, m.id) == Ok(m)
              && Replicable(source, target.handle, old(target.store.objects), m)
              && copied == (m.id !in PublishedIds(target.handle, old(target.store.objects)))
              && created + reused == (if copied then |RefIds(m)| else 0)
              && |ChunkKeys(target.store.objects)| == |ChunkKeys(old(target.store.objects))| + created
    ensures m.id in PublishedIds(target.handle, old(target.store.objects)) ==>
              target.store.objects == old(target.store.objects)
    ensures source.store.reliable && target.store.reliable ==>
              (Replicable(source, target.handle, old(target.store.objects), m) ==> ok)
  {
    hide ReadChunk, ManifestPlain, PublishedIds, ChunkKeys, Fills, SameSnapshots, Copyable, Named, RefIds,
      ValidManifest, StoredManifest, Copied, Gains, EntryRefs;
    ok, copied, created, reused := false, false, 0, 0;
    ghost var start := target.store.objects;
    CopiedStart(source, target.handle, start);
    GainsNothing(target.handle, start, start, m);
    ReadIsPublished(target.handle, start, m.id);
    ReadHasId(source.handle, source.store.objects, m.id);
    var existing := target.FetchManifest(m.id);
    if existing.Ok? {
      return existing.value == m, false, 0, 0;
    }
    if existing.error != NotFound {
      return;
    }
    var seen: set<string> := {};
    assert m.files[..0] == [];
    for i := 0 to |m.files|
      invariant target.store.Valid() && Fills(target.handle, start, target.store.objects)
      invariant SameSnapshots(target.handle, start, target.store.objects)
      invariant Copied(source, target.handle, start, target.store.objects, seen) && seen == EntryRefs(m.files[..i])
      invariant created + reused == |seen| && |ChunkKeys(target.store.objects)| == |ChunkKeys(start)| + created
    {
      ghost var now, before := target.store.objects, seen;
      var done, more, made, kept;
      done, more, made, kept := CopyRefs(source, target, m.files[i].chunks, seen);
      EntryRefsNext(m.files, i);
      CopiedMore(source, target.handle, start, now, target.store.objects, before, m, i);
      if !done {
        GainsNothing(target.handle, start, target.store.objects, m);
        return;
      }
      CopiedBoth(source, target.handle, start, now, target.store.objects, before, more);
      seen, created, reused := more, created + made, reused + kept;
    }
    assert m.files[..|m.files|] == m.files;
    GainsNothing(target.handle, start, target.store.objects, m);
    EntryRefsAll(m);
    ghost var now, clock := target.store.objects, target.store.clock;
    var published := target.PublishManifest(m);
    PublishGains(source, target.handle, start, now, target.store.objects, m, clock);
    return published, true, created, reused;
  }

  /* ---- all snapshots ---- */

  datatype ReplicationStats = ReplicationStats(copied: nat, skipped: nat, created: nat, reused: nat)

  ghost function RefCount(h: Handle, objects: Objects): string -> nat {
    id => |ManifestRefs(h, objects, id)|
  }

  /** The target after the snapshots of some IDs have been dealt with: each reads
      as it does in the source, and the ones that are new are complete. */
  ghost predicate Replicated(source: Repository, h: Handle, a: Objects, b: Objects, ids: set<string>)
    reads source, source.store
  {
    && Fills(h, a, b) && PublishedIds(h, b) == PublishedIds(h, a) + ids
    && (forall id :: id in ids ==> ReadManifest(h, b, id) == ReadManifest(source.handle, source.store.objects, id))
    && (forall id :: id in ids - PublishedIds(h, a) ==> Whole(h, b, id))
    && (forall id :: id !in ids ==> ReadManifest(h, b, id) == ReadManifest(h, a, id))
  }

  /** Whatever happened: every snapshot that is new in the target is in the source
      with the same manifest, and is complete. */
  ghost predicate OnlyWholeAdded(source: Repository, h: Handle, a: Objects, b: Objects)
    reads source, source.store
  {
    && Fills(h, a, b) && PublishedIds(h, a) <= PublishedIds(h, b)
    && forall id :: id in PublishedIds(h, b) - PublishedIds(h, a) ==>
         && ReadManifest(h, b, id) == ReadManifest(source.handle, source.store.objects, id)
         && Whole(h, b, id)
  }

  ghost predicate ExactStats(source: Repository, h: Handle, a: Objects, b: Objects, ids: set<string>,
      stats: ReplicationStats)
    reads source, source.store
  {
    && stats.copied == |ids - PublishedIds(h, a)| && stats.skipped == |ids * PublishedIds(h, a)|
    && |ChunkKeys(b)| == |ChunkKeys(a)| + stats.created
    && stats.created + stats.reused == Sum(ids - PublishedIds(h, a), RefCount(source.handle, source.store.objects))
  }

  lemma ReplicatedNext(source: Repository, h: Handle, a: Objects, b: Objects, c: Objects, ids: set<string>, m: Manifest)
    requires Replicated(source, h, a, b, ids) && m.id !in ids && Gains(h, b, c, m)
    requires ReadManifest(source.handle, source.store.objects, m.id) == Ok(m)
    ensures OnlyWholeAdded(source, h, a, c)
    ensures ReadManifest(h, c, m.id) == Ok(m) && m.id in PublishedIds(h, c) ==>
              Replicated(source, h, a, c, ids + {m.id})
    ensures (m.id in PublishedIds(h, b)) == (m.id in PublishedIds(h, a))
    ensures Replicable(source, h, b, m) == Replicable(source, h, a, m)
  {
    hide ReadChunk, ReadManifest, PublishedIds, RefIds;
    FillsTwice(h, a, b, c);
    forall id | id in PublishedIds(h, c) - PublishedIds(h, a)
      ensures ReadManifest(h, c, id) == ReadManifest(source.handle, source.store.objects, id) && Whole(h, c, id)
    {
      if id in ids {
        FillsKeepsWhole(h, b, c, id);
      }
    }
  }

  /** The counters after one more snapshot. */
  function Count(stats: ReplicationStats, copied: bool, made: nat, kept: nat): ReplicationStats {
    ReplicationStats(
      stats.copied + if copied then 1 else 0, stats.skipped + if copied then 0 else 1,
      stats.created + made, stats.reused + kept)
  }

  lemma CopiedCounts(h: Handle, objects: Objects, ids: set<string>, had: set<string>, m: Manifest)
    requires ReadManifest(h, objects, m.id) == Ok(m) && m.id !in ids && m.id !in had
    ensures |ids + {m.id} - had| == |ids - had| + 1 && (ids + {m.id}) * had == ids * had
    ensures Sum(ids + {m.id} - had, RefCount(h, objects)) == Sum(ids - had, RefCount(h, objects)) + |RefIds(m)|
  {
    hide ReadManifest, RefIds, Sum;
    NewCounts(ids, had, m.id);
    SumTake(ids + {m.id} - had, RefCount(h, objects), m.id);
  }

  lemma NewCounts(ids: set<string>, had: set<string>, id: string)
    requires id !in ids && id !in had
    ensures |ids + {id} - had| == |ids - had| + 1 && (ids + {id}) * had == ids * had
    ensures id in ids + {id} - had && ids + {id} - had - {id} == ids - had
  {
    assert ids + {id} - had == ids - had + {id};
  }

  lemma SkippedCounts(ids: set<string>, had: set<string>, id: string)
    requires id !in ids && id in had
    ensures ids + {id} - had == ids - had && |(ids + {id}) * had| == |ids * had| + 1
  {
    assert (ids + {id}) * had == ids * had + {id};
  }

  lemma StatsNext(source: Repository, h: Handle, a: Objects, b: Objects, c: Objects, ids: set<string>,
      stats: ReplicationStats, m: Manifest, copied: bool, made: nat, kept: nat)
    requires ExactStats(source, h, a, b, ids, stats) && m.id !in ids
    requires ReadManifest(source.handle, source.store.objects, m.id) == Ok(m)
    requires copied == (m.id !in PublishedIds(h, a)) && made + kept == (if copied then |RefIds(m)| else 0)
    requires |ChunkKeys(c)| == |ChunkKeys(b)| + made
    ensures ExactStats(source, h, a, c, ids + {m.id}, Count(stats, copied, made, kept))
  {
    hide ReadManifest, PublishedIds, RefIds, ChunkKeys, Sum, RefCount;
    if copied {
      CopiedCounts(source.handle, source.store.objects, ids, PublishedIds(h, a), m);
    } else {
      SkippedCounts(ids, PublishedIds(h, a), m.id);
    }
  }

  /** Every snapshot of the source can be read and is replicable. */
  ghost predicate CanReplicate(source: Repository, h: Handle, target: Objects)
    reads source, source.store
  {
    && AllReadable(source.handle, source.store.objects)
    && forall id :: id in PublishedIds(source.handle, source.store.objects) ==>
         Replicable(source, h, target, ReadManifest(source.handle, source.store.objects, id).value)
  }

  /** The loop of `ReplicateTo` over the source's snapshots. */
  method CopyAll(source: Repository, target: Repository, list: seq<Manifest>)
    returns (ok: bool, stats: ReplicationStats)
    requires target.store.Valid() && source.store != target.store && source.handle.prims == target.handle.prims
    requires IsSnapshotList(source.handle, source.store.objects, list)
    modifies target.store
    ensures target.store.Valid()
    ensures OnlyWholeAdded(source, target.handle, old(target.store.objects), target.store.objects)
    ensures ok ==>
              && Replicated(source, target.handle, old(target.store.objects), target.store.objects, IdsOf(list))
              && ExactStats(source, target.handle, old(target.store.objects), target.store.objects, IdsOf(list), stats)
    ensures IdsOf(list) <= PublishedIds(target.handle, old(target.store.objects)) ==>
              target.store.objects == old(target.store.objects)
    ensures source.store.reliable && target.store.reliable ==>
              (ok <==> forall m :: m in list ==> Replicable(source, target.handle, old(target.store.objects), m))
  {
    hide ReadManifest, PublishedIds, ChunkKeys, Fills, Replicable, Gains, Replicated, OnlyWholeAdded, ExactStats,
      Retention.Less, IdsOf, RefIds;
    ok, stats := false, ReplicationStats(0, 0, 0, 0);
    ghost var start := target.store.objects;
    NothingReplicated(source, target.handle, start);
    assert list[..0] == [];
    for i := 0 to |list|
      invariant target.store.Valid()
      invariant OnlyWholeAdded(source, target.handle, start, target.store.objects)
      invariant Replicated(source, target.handle, start, target.store.objects, IdsOf(list[..i]))
      invariant ExactStats(source, target.handle, start, target.store.objects, IdsOf(list[..i]), stats)
      invariant IdsOf(list) <= PublishedIds(target.handle, start) ==> target.store.objects == start
      invariant forall j :: 0 <= j < i ==> Replicable(source, target.handle, start, list[j])
    {
      var m := list[i];
      assert m in list;
      NextSnapshot(list, i);
      ghost var now := target.store.objects;
      var done, copied, made, kept := CopySnapshot(source, target, m);
      ReplicatedNext(source, target.handle, start, now, target.store.objects, IdsOf(list[..i]), m);
      if !done {
        return;
      }
      ReadIsPublished(target.handle, target.store.objects, m.id);
      StatsNext(source, target.handle, start, now, target.store.objects, IdsOf(list[..i]), stats, m, copied, made,
                kept);
      stats := Count(stats, copied, made, kept);
    }
    assert list[..|list|] == list;
    ok := true;
  }

  lemma NothingReplicated(source: Repository, h: Handle, a: Objects)
    ensures Replicated(source, h, a, a, {}) && OnlyWholeAdded(source, h, a, a) && IdsOf([]) == {}
    ensures ExactStats(source, h, a, a, {}, ReplicationStats(0, 0, 0, 0))
  {}

  lemma NextSnapshot(list: seq<Manifest>, i: nat)
    requires Retention.Ascending(list) && i < |list|
    ensures list[i].id !in IdsOf(list[..i]) && IdsOf(list[..i + 1]) == IdsOf(list[..i]) + {list[i].id}
    ensures list[i].id in IdsOf(list)
  {
    hide Retention.Less;
    var front := list[..i + 1];
    assert front[..i] == list[..i];
    assert IdsOf(front) == IdsOf(list[..i]) + {list[i].id};
    FrontIds(list, i);
  }

  lemma FrontIds(list: seq<Manifest>, i: nat)
    requires Retention.Ascending(list) && i < |list|
    ensures list[i].id !in IdsOf(list[..i]) && list[i].id in IdsOf(list)
  {
    hide IdsOf, Retention.Less;
    IdsOfAre(list[..i]);
    IdsOfAre(list);
    Retention.LessIrreflexive(list[i].id);
  }

  /* ---- the lock around it ---- */

  lemma LockIsInvisible(source: Repository, h: Handle, a: Objects, b: Objects, ids: set<string>,
      stats: ReplicationStats)
    ensures OnlyWholeAdded(source, h, a, b) ==> OnlyWholeAdded(source, h, Unlocked(a), Unlocked(b))
    ensures Replicated(source, h, a, b, ids) ==> Replicated(source, h, Unlocked(a), Unlocked(b), ids)
    ensures ExactStats(source, h, a, b, ids, stats) ==> ExactStats(source, h, Unlocked(a), Unlocked(b), ids, stats)
    ensures forall m :: Replicable(source, h, Unlocked(a), m) == Replicable(source, h, a, m)
    ensures PublishedIds(h, Unlocked(a)) == PublishedIds(h, a)
  {
    hide *;
    SameWithoutLock(h, a);
    ReplicableWithoutLock(source, h, a);
    AddedWithoutLock(source, h, a, b, ids);
    StatsWithoutLock(source, h, a, b, ids, stats);
  }

  lemma FillsWithoutLock(h: Handle, a: Objects, b: Objects)
    ensures Fills(h, a, b) ==> Fills(h, Unlocked(a), Unlocked(b))
  {
    hide ReadChunk;
    SameWithoutLock(h, a);
    SameWithoutLock(h, b);
  }

  lemma WholeWithoutLock(h: Handle, b: Objects)
    ensures forall id :: Whole(h, Unlocked(b), id) == Whole(h, b, id)
  {
    hide ReadChunk, ReadManifest, ManifestRefs;
    SameWithoutLock(h, b);
  }

  lemma ReplicableWithoutLock(source: Repository, h: Handle, a: Objects)
    ensures forall m :: Replicable(source, h, Unlocked(a), m) == Replicable(source, h, a, m)
  {
    hide ReadChunk, ReadManifest, RefIds;
    SameWithoutLock(h, a);
  }

  lemma AddedWithoutLock(source: Repository, h: Handle, a: Objects, b: Objects, ids: set<string>)
    ensures OnlyWholeAdded(source, h, a, b) ==> OnlyWholeAdded(source, h, Unlocked(a), Unlocked(b))
    ensures Replicated(source, h, a, b, ids) ==> Replicated(source, h, Unlocked(a), Unlocked(b), ids)
  {
    hide ReadChunk, ReadManifest, PublishedIds, Fills, Whole;
    SameWithoutLock(h, a);
    SameWithoutLock(h, b);
    FillsWithoutLock(h, a, b);
    WholeWithoutLock(h, b);
  }

  lemma StatsWithoutLock(source: Repository, h: Handle, a: Objects, b: Objects, ids: set<string>,
      stats: ReplicationStats)
    ensures ExactStats(source, h, a, b, ids, stats) ==> ExactStats(source, h, Unlocked(a), Unlocked(b), ids, stats)
  {
    hide ReadChunk, ReadManifest, PublishedIds, ChunkKeys, Sum;
    SameWithoutLock(h, a);
    SameWithoutLock(h, b);
  }

  lemma SameWithoutLock(h: Handle, a: Objects)
    ensures forall c :: ReadChunk(h, Unlocked(a), c) == ReadChunk(h, a, c)
    ensures forall id :: ReadManifest(h, Unlocked(a), id) == ReadManifest(h, a, id)
    ensures forall id :: ManifestRefs(h, Unlocked(a), id) == ManifestRefs(h, a, id)
    ensures PublishedIds(h, Unlocked(a)) == PublishedIds(h, a) && ChunkKeys(Unlocked(a)) == ChunkKeys(a)
  {
    hide ManifestPlain, ChunkPlain, RefIds;
    assert forall id :: ReadManifest(h, Unlocked(a), id) == ReadManifest(h, a, id);
    assert PublishedIds(h, Unlocked(a)) == PublishedIds(h, a);
  }

  lemma ListCovers(h: Handle, objects: Objects, list: seq<Manifest>)
    requires IsSnapshotList(h, objects, list)
    ensures IdsOf(list) == PublishedIds(h, objects)
    ensures forall id :: id in PublishedIds(h, objects) && ReadManifest(h, objects, id).Ok? ==>
              ReadManifest(h, objects, id).value in list
  {
    hide Retention.Less, ReadManifest, PublishedIds, IdsOf;
    SnapshotCount(h, objects, list);
    forall id | id in PublishedIds(h, objects)
      ensures ReadManifest(h, objects, id).Ok? ==> ReadManifest(h, objects, id).value in list
    {
      var k :| 0 <= k < |list| && list[k].id == id;
      assert list[k] in list;
    }
  }

  lemma Parts<T>(s: set<T>, t: set<T>)
    ensures |s - t| + |s * t| == |s|
  {
    assert s == (s - t) + (s * t);
  }

  /** `ReplicateTo`, with the target's lock held. On success the target has every
      snapshot of the source, with the same manifest; what is new is complete, and
      the counters are exact. On any failure nothing incomplete has been
      published. A target that has every snapshot already is not written to. */
  method ReplicateTo(source: Repository, target: Repository, info: LockInfo, now: int, staleAfter: int)
    returns (ok: bool, stats: ReplicationStats)
    requires target.store.Valid() && source.handle.prims == target.handle.prims
    modifies target.store
    ensures target.store.Valid()
    ensures source.store == target.store ==> !ok && target.store.objects == old(target.store.objects)
    ensures source.store != target.store ==>
              OnlyWholeAdded(source, target.handle, old(Unlocked(target.store.objects)), Unlocked(target.store.objects))
    ensures ok ==>
              && source.handle.key.Some? && target.handle.key.Some?
                 && source.handle.compression == target.handle.compression
              && AllReadable(source.handle, source.store.objects)
              && var ids := PublishedIds(source.handle, source.store.objects);
                   && Replicated(source, target.handle, old(Unlocked(target.store.objects)),
                                 Unlocked(target.store.objects), ids)
                   && ExactStats(source, target.handle, old(Unlocked(target.store.objects)),
                                 Unlocked(target.store.objects), ids, stats)
                   && stats.copied + stats.skipped == |ids|
    ensures source.store != target.store
            && PublishedIds(source.handle, source.store.objects) <=
                 PublishedIds(target.handle, old(target.store.objects)) ==>
              Unlocked(target.store.objects) == old(Unlocked(target.store.objects))
    ensures source.store.reliable && target.store.reliable && LockKey !in old(target.store.objects) ==>
              (ok <==> && source.store != target.store
                       && source.handle.key.Some? && target.handle.key.Some?
                          && source.handle.compression == target.handle.compression
                       && CanReplicate(source, target.handle, old(target.store.objects)))
    ensures target.store.reliable && LockKey !in old(target.store.objects)
            && LATEST !in PublishedIds(source.handle, source.store.objects) ==>
              LockKey !in target.store.objects
  {
    hide ReadManifest, PublishedIds, ChunkKeys, Replicable, Replicated, OnlyWholeAdded, ExactStats, IsSnapshotList,
      IdsOf, AllReadable, Unlocked;
    ok, stats := false, ReplicationStats(0, 0, 0, 0);
    ghost var start := target.store.objects;
    NothingReplicated(source, target.handle, Unlocked(start));
    if source.store == target.store {
      return;
    }
    if source.handle.key.None? || target.handle.key.None? || source.handle.compression != target.handle.compression {
      return;
    }
    LockIsInvisible(source, target.handle, start, start, {}, stats);
    var lock := AcquireWriteLock(target.store, info, now, staleAfter);
    if lock.None? {
      return;
    }
    ghost var locked := target.store.objects;
    LockIsInvisible(source, target.handle, locked, locked, {}, stats);
    var list := source.Snapshots();
    if list.Ok? {
      ListCovers(source.handle, source.store.objects, list.value);
      ReplicableAll(source, target.handle, start, list.value);
      ok, stats := CopyAll(source, target, list.value);
      LockIsInvisible(source, target.handle, locked, target.store.objects, IdsOf(list.value), stats);
      if ok {
        StatsAddUp(source, target.handle, locked, target.store.objects, IdsOf(list.value), stats);
      }
    }
    KeepsLock(source, target.handle, locked, target.store.objects);
    if list == Err(Overflow) {
      return;
    }
    ReleaseLock(target.store, lock.value);
  }

  lemma KeepsLock(source: Repository, h: Handle, a: Objects, b: Objects)
    requires a == b || OnlyWholeAdded(source, h, a, b)
    ensures LockKey in a ==> LockKey in b && b[LockKey] == a[LockKey]
  {
    hide ReadChunk, ReadManifest, PublishedIds;
  }

  lemma ReplicatedIsReplicable(source: Repository, h: Handle, a: Objects, b: Objects)
    requires AllReadable(source.handle, source.store.objects)
    requires Replicated(source, h, a, Unlocked(b), PublishedIds(source.handle, source.store.objects))
    ensures CanReplicate(source, h, b) && PublishedIds(source.handle, source.store.objects) <= PublishedIds(h, b)
  {
    hide ReadManifest, PublishedIds, ReadChunk;
    SameWithoutLock(h, b);
    forall id | id in PublishedIds(source.handle, source.store.objects)
      ensures Replicable(source, h, b, ReadManifest(source.handle, source.store.objects, id).value)
    {
      ReadHasId(source.handle, source.store.objects, id);
    }
  }

  lemma NothingLeftToCopy(source: Repository, h: Handle, a: Objects, b: Objects, stats: ReplicationStats)
    requires ExactStats(source, h, Unlocked(a), Unlocked(b), PublishedIds(source.handle, source.store.objects), stats)
    requires PublishedIds(source.handle, source.store.objects) <= PublishedIds(h, a)
    ensures stats == ReplicationStats(0, |PublishedIds(source.handle, source.store.objects)|, 0, 0)
  {
    hide PublishedIds, ChunkKeys;
    SameWithoutLock(h, a);
    var ids := PublishedIds(source.handle, source.store.objects);
    assert ids - PublishedIds(h, a) == {} && ids * PublishedIds(h, a) == ids;
  }

  lemma StatsAddUp(source: Repository, h: Handle, a: Objects, b: Objects, ids: set<string>, stats: ReplicationStats)
    requires ExactStats(source, h, a, b, ids, stats)
    ensures stats.copied + stats.skipped == |ids|
  {
    hide PublishedIds, ChunkKeys;
    Parts(ids, PublishedIds(h, a));
  }

  lemma ReplicableAll(source: Repository, h: Handle, target: Objects, list: seq<Manifest>)
    requires IsSnapshotList(source.handle, source.store.objects, list)
    requires AllReadable(source.handle, source.store.objects)
    ensures CanReplicate(source, h, target) <==> forall m :: m in list ==> Replicable(source, h, target, m)
  {
    hide Retention.Less, ReadManifest, PublishedIds, Replicable, IdsOf;
    ListCovers(source.handle, source.store.objects, list);
    forall m | m in list
      ensures m.id in PublishedIds(source.handle, source.store.objects)
      ensures ReadManifest(source.handle, source.store.objects, m.id) == Ok(m)
    {}
  }

  /** An immediate second run against an unchanged source skips every snapshot and
      copies nothing. */
  method ReplicateTwice(source: Repository, target: Repository, info: LockInfo, now: int, staleAfter: int)
    returns (first: bool, second: bool, stats: ReplicationStats)
    requires target.store.Valid() && source.handle.prims == target.handle.prims
    modifies target.store
    ensures first && second ==> stats == ReplicationStats(0, |PublishedIds(source.handle, source.store.objects)|, 0, 0)
    ensures first && source.store.reliable && target.store.reliable && LockKey !in old(target.store.objects) ==> second
  {
    hide ReadManifest, PublishedIds, ChunkKeys, Replicated, ExactStats, OnlyWholeAdded, CanReplicate, AllReadable,
      Unlocked;
    ghost var start := target.store.objects;
    first, stats := ReplicateTo(source, target, info, now, staleAfter);
    second := false;
    if first {
      ghost var between := target.store.objects;
      ReadableIsListable(source.handle, source.store.objects);
      ReplicatedIsReplicable(source, target.handle, Unlocked(start), between);
      second, stats := ReplicateTo(source, target, info, now, staleAfter);
      if second {
        NothingLeftToCopy(source, target.handle, between, target.store.objects, stats);
      }
    }
  }

  /* ---- what a replica is worth ---- */

  /** A file whose chunks are all in the replica reads there as it does in the
      source, whatever the two keys are. */
  lemma {:induction false} ReplicaReadsTheSame(source: Handle, a: Objects, target: Handle, b: Objects,
      refs: seq<ChunkRef>)
    requires source.prims == target.prims
    requires forall r :: r in refs ==> ReadChunk(source, a, r.id).Ok? && ReadChunk(target, b, r.id).Ok?
    requires NoCollision(source.prims, Plaintexts(source, a, refs) + Plaintexts(target, b, refs))
    ensures ReadAll(target, b, refs) == ReadAll(source, a, refs)
  {
    hide ReadChunk;
    if refs != [] {
      var front, last := refs[..|refs| - 1], refs[|refs| - 1];
      assert forall r :: r in front ==> r in refs;
      assert Plaintexts(source, a, front) <= Plaintexts(source, a, refs);
      assert Plaintexts(target, b, front) <= Plaintexts(target, b, refs);
      ReplicaReadsTheSame(source, a, target, b, front);
      ReadHashes(source, a, last.id);
      ReadHashes(target, b, last.id);
      assert ReadChunk(source, a, last.id).value in Plaintexts(source, a, refs);
      assert ReadChunk(target, b, last.id).value in Plaintexts(target, b, refs);
    }
  }
}
