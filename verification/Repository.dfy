/** An open repository: storing and reading chunks, publishing and listing
    manifests, restoring files, rotating the passphrase. */
module Repository {
  import opened Chunker
  import opened Model
  import opened Store
  import opened Sums
  import opened Published
  import opened Nesting
  import opened Retention
  import Keys

  /* ---- the class ---- */

  datatype PutResult = Put(id: string, created: bool, bytes: nat) | PutFailed

  /** The destination of a restored file; a write may stop anywhere. */
  class Writer {
    var written: Bytes
    const reliable: bool

    constructor (dependable: bool)
      ensures written == [] && reliable == dependable
    {
      written, reliable := [], dependable;
    }

    method Write(data: Bytes) returns (n: nat, failed: bool)
      modifies this
      ensures n <= |data| && written == old(written) + data[..n]
      ensures reliable ==> n == |data| && !failed
    {
      n, failed := |data|, false;
      if !reliable {
        n :| n <= |data|;
        failed := *;
      }
      written := written + data[..n];
    }
  }

  /** How many nested calls of `Snapshots` fit on the stack. */
  type Depth = n: nat | n >= 1 witness 1

  class Repository {
    const store: ObjectStore
    const depth: Depth
    var config: RepositoryConfig
    var handle: Handle

    constructor (s: ObjectStore, c: RepositoryConfig, h: Handle, d: Depth)
      ensures store == s && config == c && handle == h && depth == d
    {
      store, config, handle, depth := s, c, h, d;
    }

    /** `PutChunk`: stores data once; an existing object is rehashed first. rival says
        that another worker stores the same data between the two operations. */
    method PutChunk(data: Bytes, rival: bool) returns (r: PutResult)
      requires store.Valid()
      modifies store
      ensures store.Valid()
      ensures store.objects == old(store.objects) || AddsChunk(handle, old(store.objects), store.objects, data)
      ensures r.Put? ==>
                && r.id == handle.prims.hash(data)
                && ReadChunk(handle, store.objects, r.id).Ok?
                && (r.created ==> ChunkKeyOf(r.id) !in old(store.objects))
                && r.bytes == (if r.created then Size(store.objects[ChunkKeyOf(r.id)].content) else 0)
      ensures r.Put? && !rival ==>
                && r.created == (store.objects != old(store.objects))
                && |ChunkKeys(store.objects)| == |ChunkKeys(old(store.objects))| + (if r.created then 1 else 0)
                && PhysicalBytes(store.objects) == PhysicalBytes(old(store.objects)) + r.bytes
      ensures r.Put? && store.reliable ==> r.created == (!rival && ChunkKeyOf(r.id) !in old(store.objects))
      ensures store.reliable ==> (r.PutFailed? <==>
                ReadChunk(handle, old(store.objects), handle.prims.hash(data)) == Err(Invalid))
    {
      hide PhysicalBytes, ChunkKeys, ChunkPlain, StoredChunk, AddsChunk;
      var id := handle.prims.hash(data);
      var k := ChunkKeyOf(id);
      var got := store.Get(k);
      if got.Done? {
        var ok := VerifyChunk(id);
        return if ok then Put(id, false, 0) else PutFailed;
      }
      if !got.error.Missing? {
        return PutFailed;
      }
      if rival {
        ghost var nonce := store.clock;
        var _ := store.PutIfAbsent(k, StoredChunk(handle, store.clock, data));
        if store.objects != old(store.objects) {
          ChunkAdded(handle, old(store.objects), store.objects, data, nonce, store.objects[k].version);
        }
      }
      ghost var before := store.objects;
      ghost var nonce := store.clock;
      var stored := StoredChunk(handle, store.clock, data);
      var put := store.PutIfAbsent(k, stored);
      if store.objects != before {
        ChunkAdded(handle, before, store.objects, data, nonce, store.objects[k].version);
      }
      if put.Refused? {
        if put.error.AlreadyThere? {
          var ok := VerifyChunk(id);
          return if ok then Put(id, false, 0) else PutFailed;
        }
        return PutFailed;
      }
      NewChunkAdds(before, k, Object(stored, put.value));
      return Put(id, true, Size(stored));
    }

    /** `verifyChunk`: the stored object decodes to bytes that hash to id. */
    method VerifyChunk(id: string) returns (ok: bool)
      ensures ok ==> ReadChunk(handle, store.objects, id).Ok?
      ensures store.reliable ==> ok == ReadChunk(handle, store.objects, id).Ok?
    {
      var plain := FetchChunk(id);
      return plain.Ok?;
    }

    /** `readChunk`. */
    method FetchChunk(id: string) returns (r: Result<Bytes>)
      ensures r.Ok? ==> r == ReadChunk(handle, store.objects, id)
      ensures store.reliable ==> r == ReadChunk(handle, store.objects, id)
    {
      hide ChunkPlain;
      if !ValidChunkId(id) {
        return Err(Invalid);
      }
      var got := store.Get(ChunkKeyOf(id));
      if got.Refused? {
        return Err(if got.error.Missing? then NotFound else Invalid);
      }
      match ChunkPlain(handle, id, got.value.content)
      case None => return Err(Invalid);
      case Some(plain) => return Ok(plain);
    }

    /** `ReadManifest` of an ID or of the selector "latest". */
    method FetchManifest(selector: string) returns (r: Result<Manifest>)
      ensures r.Ok? ==> r == Selected(handle, store.objects, selector)
      ensures r == Err(NotFound) ==> selector != LATEST && r == ReadManifest(handle, store.objects, selector)
      ensures r == Err(Overflow) ==> selector == LATEST && LATEST in PublishedIds(handle, store.objects)
      ensures store.reliable ==> r.Ok? == Selected(handle, store.objects, selector).Ok?
      ensures store.reliable && selector != LATEST ==> r == ReadManifest(handle, store.objects, selector)
      ensures store.reliable && selector == LATEST && Recurses(handle, store.objects) ==> r == Err(Overflow)
    {
      hide PublishedIds, ReadManifest, Selected, Recurses, LatestNested;
      ghost var listings;
      r, listings := ReadWithin(selector, depth);
      SelectedPlain(handle, store.objects, selector);
      if store.reliable && selector == LATEST {
        LatestExactly(handle, store.objects, listings);
      }
    }

    /** `ReadManifest`, with room on the stack for that many calls of `Snapshots`; a
        failing Get is an error other than "not found". */
    method ReadWithin(selector: string, room: nat) returns (r: Result<Manifest>, ghost listings: seq<seq<string>>)
      ensures |listings| == room
      ensures store.reliable ==>
                AreOrders(handle, store.objects, listings) && r == ReadNested(handle, store.objects, selector, listings)
      ensures r.Ok? ==> r == Selected(handle, store.objects, selector)
      ensures r == Err(NotFound) ==> selector != LATEST && r == ReadManifest(handle, store.objects, selector)
      ensures r == Err(Overflow) ==> selector == LATEST && (room == 0 || LATEST in PublishedIds(handle, store.objects))
      decreases room, 2
    {
      hide ManifestPlain, PublishedIds;
      if selector == LATEST {
        r, listings := LatestWithin(room);
        return;
      }
      ghost var order := SomeOrder(handle, store.objects);
      listings := Repeat(order, room);
      if '\\' in selector || '/' in selector || selector == "" {
        return Err(Invalid), listings;
      }
      var got := store.Get(ManifestKeyOf(handle, selector));
      if got.Refused? {
        return Err(if got.error.Missing? then NotFound else Invalid), listings;
      }
      match ManifestPlain(handle, selector, got.value.content)
      case None => return Err(Invalid), listings;
      case Some(m) => return Ok(m), listings;
    }

    /** `LatestSnapshot`, with that much room. */
    method LatestWithin(room: nat) returns (r: Result<Manifest>, ghost listings: seq<seq<string>>)
      ensures |listings| == room
      ensures store.reliable ==>
                AreOrders(handle, store.objects, listings) && r == LatestNested(handle, store.objects, listings)
      ensures r.Ok? ==>
                r == Selected(handle, store.objects, LATEST) && IsLatest(handle, store.objects, r.value)
                  && AllReadable(handle, store.objects)
      ensures r == Err(Overflow) ==> room == 0 || LATEST in PublishedIds(handle, store.objects)
      ensures r != Err(NotFound)
      decreases room, 1
    {
      hide PublishedIds, ReadManifest, Less, Selected, SnapshotsNested, IsLatest;
      var list;
      list, listings := SnapshotsWithin(room);
      if list.Err? {
        return Err(list.error), listings;
      }
      if list.value == [] {
        return Err(Invalid), listings;
      }
      LastIsLatest(handle, store.objects, list.value);
      SelectedLatest(handle, store.objects, list.value[|list.value| - 1]);
      return Ok(list.value[|list.value| - 1]), listings;
    }

    /** `Snapshots`, with that much room: the last of it is used up by this call. */
    method SnapshotsWithin(room: nat) returns (r: Result<seq<Manifest>>, ghost listings: seq<seq<string>>)
      ensures |listings| == room
      ensures store.reliable ==>
                AreOrders(handle, store.objects, listings) && r == SnapshotsNested(handle, store.objects, listings)
      ensures r.Ok? ==> IsSnapshotList(handle, store.objects, r.value) && AllReadable(handle, store.objects)
      ensures r == Err(Overflow) ==> room == 0 || LATEST in PublishedIds(handle, store.objects)
      ensures r != Err(NotFound)
      decreases room, 0
    {
      if room == 0 {
        return Err(Overflow), [];
      }
      var listed := store.List(Prefix.Snapshots);
      if listed.Refused? {
        listings := Repeat([], room);
        return Err(Invalid), listings;
      }
      r, listings := CollectWithin(listed.value, room);
    }

    /** The loop of `Snapshots` over a listing. */
    method CollectWithin(entries: seq<Listed>, room: nat)
      returns (r: Result<seq<Manifest>>, ghost listings: seq<seq<string>>)
      requires room > 0 && IsListing(store.objects, Prefix.Snapshots, entries)
      ensures |listings| == room
      ensures store.reliable ==>
                AreOrders(handle, store.objects, listings) && r == SnapshotsNested(handle, store.objects, listings)
      ensures r.Ok? ==> IsSnapshotList(handle, store.objects, r.value) && AllReadable(handle, store.objects)
      ensures r == Err(Overflow) ==> LATEST in PublishedIds(handle, store.objects)
      ensures r != Err(NotFound)
      decreases room - 1, 4
    {
      hide ReadManifest, PublishedIds, IsListing, Selected, ReadNested, Collected, IsSnapshotList, AllReadable,
        ListedIds, Insert;
      ghost var full := ListedIds(handle, entries, |entries|);
      ghost var deeper := Repeat(full, room - 1);
      ListedIdsAreAll(handle, store.objects, entries);
      listings := [full] + deeper;
      NothingCollected(handle, store.objects, entries, deeper);
      var list := [];
      for i := 0 to |entries|
        invariant Collected(handle, store.objects, ListedIds(handle, entries, i), deeper) == Ok(list)
        invariant LATEST !in ListedIds(handle, entries, i)
      {
        var k := entries[i].key;
        NextListedId(handle, store.objects, entries, i);
        if k.ManifestKey? && k.enc == handle.key.Some? && '/' !in k.id {
          ghost var inner;
          var read;
          read, inner := ReadWithin(k.id, room - 1);
          ListedReads(handle, store.objects, k.id);
          if read.Err? {
            listings := [full] + inner;
            if store.reliable {
              LoopStops(handle, store.objects, entries, i, deeper, inner);
            }
            return Err(read.error), listings;
          }
          LatestNotListed(handle, store.objects);
          SelectedPlain(handle, store.objects, k.id);
          LoopGoesOn(handle, store.objects, entries, i, deeper);
          list := Insert(list, read.value);
        } else {
          LoopGoesOn(handle, store.objects, entries, i, deeper);
        }
        ListedNext(handle, entries, i);
      }
      CollectedAll(handle, store.objects, full, deeper);
      AllCollected(handle, store.objects, full, deeper);
      return Ok(list), listings;
    }

    /** `publishManifest`: validates, then creates the commit record. */
    method PublishManifest(m: Manifest) returns (ok: bool)
      requires store.Valid()
      modifies store
      ensures store.Valid()
      ensures var k := ManifestKeyOf(handle, m.id);
              && (store.objects == old(store.objects)
                  || (ValidManifest(m) && k !in old(store.objects)
                      && var stored := StoredManifest(handle, old(store.clock), m);
                         store.objects == old(store.objects)[k := Object(stored, old(store.clock))]))
              && (ok ==> ValidManifest(m) && k !in old(store.objects) && k in store.objects)
      ensures store.reliable ==> (ok <==> ValidManifest(m) && ManifestKeyOf(handle, m.id) !in old(store.objects))
    {
      hide ValidManifest, StoredManifest;
      if !ValidManifest(m) {
        return false;
      }
      var put := store.PutIfAbsent(ManifestKeyOf(handle, m.id), StoredManifest(handle, store.clock, m));
      return put.Done?;
    }

    /** `Snapshots`: every published manifest, by ascending ID; any manifest that
        cannot be read makes the whole call fail. It does not return where the
        selector's name is listed and nothing else stops it. */
    method Snapshots() returns (r: Result<seq<Manifest>>)
      ensures r.Ok? ==> IsSnapshotList(handle, store.objects, r.value) && AllReadable(handle, store.objects)
      ensures store.reliable ==> (r.Ok? <==> AllReadable(handle, store.objects))
      ensures r == Err(Overflow) ==> LATEST in PublishedIds(handle, store.objects)
      ensures store.reliable && Recurses(handle, store.objects) ==> r == Err(Overflow)
    {
      hide PublishedIds, ReadManifest, AllReadable, IsSnapshotList, SnapshotsNested, Recurses;
      ghost var listings;
      r, listings := SnapshotsWithin(depth);
      if store.reliable {
        AnswersExactly(handle, store.objects, listings);
        if Recurses(handle, store.objects) {
          RecursesForEver(handle, store.objects, listings);
        }
      }
    }

    /** `LatestSnapshot`: the published manifest with the greatest ID. */
    method LatestSnapshot() returns (r: Result<Manifest>)
      ensures r.Ok? ==> IsLatest(handle, store.objects, r.value) && AllReadable(handle, store.objects)
      ensures store.reliable ==>
                (r.Ok? <==> AllReadable(handle, store.objects) && PublishedIds(handle, store.objects) != {})
      ensures r == Err(Overflow) ==> LATEST in PublishedIds(handle, store.objects)
      ensures store.reliable && Recurses(handle, store.objects) ==> r == Err(Overflow)
    {
      hide PublishedIds, ReadManifest, AllReadable, Selected, IsLatest, LatestNested, Recurses;
      ghost var listings;
      r, listings := LatestWithin(depth);
      if store.reliable {
        LatestExactly(handle, store.objects, listings);
      }
    }

    /** `Stats`: chunk objects, their bytes, snapshots and logical bytes. */
    method Stats() returns (r: Option<(nat, nat, nat, int)>)
      ensures r.Some? ==> r.value.0 == |ChunkKeys(store.objects)| && r.value.1 == PhysicalBytes(store.objects)
      ensures r.Some? ==>
                exists list ::
                  IsSnapshotList(handle, store.objects, list) && r.value.2 == |list| && r.value.3 == LogicalBytes(list)
      ensures store.reliable ==> (r.Some? <==> AllReadable(handle, store.objects))
    {
      hide IsSnapshotList, IsListing, PhysicalBytes, ChunkKeys, ListedKeys, AllReadable, LogicalBytes;
      var list := Snapshots();
      if list.Err? {
        return None;
      }
      var logical := SumLogical(list.value);
      var listed := store.List(Prefix.Chunks);
      if listed.Refused? {
        return None;
      }
      var chunks, physical := SumListed(store.objects, listed.value);
      return Some((chunks, physical, |list.value|, logical));
    }

    /** `RestoreFile`: writes the chunks of one regular file in order. Whatever
        the store returns, only verified chunks of the recorded sizes are written. */
    method RestoreFile(id: string, path: string, output: Writer) returns (ok: bool)
      requires output.written == []
      modifies output
      ensures ok ==> RestoredFile(handle, store.objects, id, path, output.written)
      ensures !ok ==> RestoredPart(handle, store.objects, id, path, output.written)
      ensures store.reliable && output.reliable ==>
                (ok <==>
                 exists e ::
                   IsEntry(handle, store.objects, id, path, e) && e.kind.File?
                     && ReadAll(handle, store.objects, e.chunks).Ok?)
    {
      hide ReadChunk, ReadManifest, Selected, ValidPath, IsEntry;
      forall e | IsEntry(handle, store.objects, id, path, e)
        ensures ValidPath(path) && (e.kind.File? ==> e.size == TotalSize(e.chunks))
      {
        EntryPath(handle, store.objects, id, path, e);
      }
      if Selected(handle, store.objects, id).Err? {
        NoEntry(handle, store.objects, id, path);
      }
      if !ValidPath(path) {
        return false;
      }
      var m := FetchManifest(id);
      if m.Err? {
        return false;
      }
      var i := 0;
      while i < |m.value.files| && m.value.files[i].path != path
        invariant 0 <= i <= |m.value.files|
        invariant forall j :: 0 <= j < i ==> m.value.files[j].path != path
      {
        i := i + 1;
      }
      OnlyEntry(handle, store.objects, id, path, i);
      if i == |m.value.files| || !m.value.files[i].kind.File? {
        return false;
      }
      var e := m.value.files[i];
      IsTheEntry(handle, store.objects, id, path, e);
      ok := WriteEntry(id, path, e, output);
    }

    /** The loop over the chunks of one entry. */
    method WriteEntry(ghost id: string, ghost path: string, e: FileEntry, output: Writer) returns (ok: bool)
      requires output.written == [] && IsEntry(handle, store.objects, id, path, e) && e.kind.File?
      requires e.size == TotalSize(e.chunks)
      modifies output
      ensures ok ==> RestoredFile(handle, store.objects, id, path, output.written)
      ensures !ok ==> RestoredPart(handle, store.objects, id, path, output.written)
      ensures store.reliable && output.reliable ==> (ok <==> ReadAll(handle, store.objects, e.chunks).Ok?)
    {
      hide ReadChunk, IsEntry, ReadAll, WrittenPart;
      var written := 0;
      NothingWritten(handle, store.objects, e.chunks);
      for n := 0 to |e.chunks|
        invariant ReadAll(handle, store.objects, e.chunks[..n]) == Ok(output.written) && written == |output.written|
        invariant RestoredPart(handle, store.objects, id, path, output.written)
      {
        var ref := e.chunks[n];
        var data := FetchChunk(ref.id);
        if data.Err? || |data.value| != ref.size {
          if store.reliable {
            NextChunkFails(handle, store.objects, e.chunks, n);
          }
          return false;
        }
        ghost var before := output.written;
        var k, failed := output.Write(data.value);
        written := written + k;
        NextChunkReads(handle, store.objects, e.chunks, n, before, data.value, k);
        if failed || k != |data.value| {
          return false;
        }
      }
      assert e.chunks[..|e.chunks|] == e.chunks;
      ReadAllSize(handle, store.objects, e.chunks);
      return written == e.size;
    }

    /** `RotatePassphrase` under the lock: rewraps the data key and replaces the
        configuration; the handle's key does not change. */
    method RotatePassphrase(passphrase: string, salt: nat, nonce: nat, info: LockInfo, now: int, staleAfter: int)
      returns (ok: bool)
      requires store.Valid() && Keys.Guards(config.encryption, handle.key)
      modifies this`config, store
      ensures store.Valid() && handle == old(handle)
      ensures forall k :: k != LockKey && k != ConfigKey ==>
                (k in store.objects <==> k in old(store.objects))
                  && (k in store.objects ==> store.objects[k] == old(store.objects)[k])
      ensures Keys.Guards(config.encryption, handle.key)
      ensures ok ==>
                && passphrase != "" && handle.key.Some?
                && config == Keys.Rewrap(old(config), handle.key.value, passphrase, salt, nonce)
                && ConfigKey in store.objects && store.objects[ConfigKey].content == ConfigContent(config)
                && Keys.OpenEncryption(config.encryption, passphrase) == Some(handle.key)
      ensures !ok ==> config == old(config)
      ensures store.reliable && LockKey !in old(store.objects) && ConfigKey in old(store.objects) ==>
                (ok <==> old(config).encryption.Some? && passphrase != "")
      ensures store.reliable && !ok && ConfigKey in old(store.objects) ==>
                ConfigKey in store.objects && store.objects[ConfigKey] == old(store.objects)[ConfigKey]
    {
      hide Keys.Rewrap, Keys.Guards, Keys.OpenEncryption, Unlocked;
      if config.encryption.None? || passphrase == "" {
        return false;
      }
      GuardedHasKey(config.encryption, handle.key);
      Keys.RewrapOpens(config, handle.key.value, passphrase, salt, nonce);
      var lock := AcquireWriteLock(store, info, now, staleAfter);
      UnlockedSame(old(store.objects), store.objects);
      if lock.None? {
        return false;
      }
      var updated := Keys.Rewrap(config, handle.key.value, passphrase, salt, nonce);
      var got := store.Get(ConfigKey);
      ok := false;
      if got.Done? {
        var replaced := store.ReplaceIfVersion(ConfigKey, ConfigContent(updated), got.value.version);
        if replaced.Done? {
          config := updated;
          ok := true;
        }
      }
      ghost var before := store.objects;
      ReleaseLock(store, lock.value);
      UnlockedSame(before, store.objects);
    }
  }

  /* ---- about the above ---- */

  /** One object more, the one that is stored for this data. */
  ghost predicate AddsChunk(h: Handle, a: Objects, b: Objects, data: Bytes) {
    && ChunkKeyOf(h.prims.hash(data)) !in a
    && exists nonce, version :: b == a[ChunkKeyOf(h.prims.hash(data)) := Object(StoredChunk(h, nonce, data), version)]
  }

  lemma ChunkAdded(h: Handle, a: Objects, b: Objects, data: Bytes, nonce: nat, version: nat)
    requires ChunkKeyOf(h.prims.hash(data)) !in a
    requires b == a[ChunkKeyOf(h.prims.hash(data)) := Object(StoredChunk(h, nonce, data), version)]
    ensures AddsChunk(h, a, b, data) && ReadChunk(h, b, h.prims.hash(data)).Ok?
  {
    hide StoredChunk, ChunkPlain;
    StoredChunkReads(h, nonce, data);
  }

  lemma GuardedHasKey(encryption: Option<EncryptionConfig>, key: Option<Key>)
    requires Keys.Guards(encryption, key) && encryption.Some?
    ensures key.Some?
  {}

  lemma UnlockedSame(a: Objects, b: Objects)
    requires Unlocked(a) == Unlocked(b)
    ensures forall k :: k != LockKey ==> (k in a <==> k in b) && (k in a ==> a[k] == b[k])
  {
    forall k | k != LockKey
      ensures (k in a <==> k in b) && (k in a ==> a[k] == b[k])
    {
      assert k in a <==> k in Unlocked(a);
      assert k in b <==> k in Unlocked(b);
      if k in a {
        assert Unlocked(a)[k] == a[k] && Unlocked(b)[k] == b[k];
      }
    }
  }

  function FileBytes(files: seq<FileEntry>): int {
    if files == [] then 0 else
      FileBytes(files[..|files| - 1]) + if files[|files| - 1].kind.File? then files[|files| - 1].size else 0
  }

  function LogicalBytes(list: seq<Manifest>): int {
    if list == [] then 0 else LogicalBytes(list[..|list| - 1]) + FileBytes(list[|list| - 1].files)
  }

  function ListedBytes(list: seq<Listed>, n: nat): nat
    requires n <= |list|
  {
    if n == 0 then 0 else ListedBytes(list, n - 1) + list[n - 1].size
  }

  function ListedKeys(list: seq<Listed>, n: nat): set<ObjKey>
    requires n <= |list|
  {
    if n == 0 then {} else ListedKeys(list, n - 1) + {list[n - 1].key}
  }

  lemma {:induction false} ListedKeysAre(list: seq<Listed>, n: nat)
    requires n <= |list|
    ensures forall k :: k in ListedKeys(list, n) <==> exists i :: 0 <= i < n && list[i].key == k
  {
    if n > 0 {
      ListedKeysAre(list, n - 1);
    }
  }

  lemma NextListedIsNew(objects: Objects, list: seq<Listed>, n: nat)
    requires IsListing(objects, Prefix.Chunks, list) && n < |list|
    ensures list[n].key !in ListedKeys(list, n)
    ensures list[n].size == SizeIn(objects)(list[n].key)
  {
    hide ListedKeys;
    ListedKeysAre(list, n);
    assert list[n] in list;
  }

  method SumLogical(list: seq<Manifest>) returns (logical: int)
    ensures logical == LogicalBytes(list)
  {
    logical := 0;
    for i := 0 to |list|
      invariant logical == LogicalBytes(list[..i])
    {
      var files := list[i].files;
      var before := logical;
      for j := 0 to |files|
        invariant logical == before + FileBytes(files[..j])
      {
        assert files[..j + 1][..j] == files[..j];
        if files[j].kind.File? {
          logical := logical + files[j].size;
        }
      }
      assert files[..|files|] == files;
      assert list[..i + 1][..i] == list[..i];
    }
    assert list[..|list|] == list;
  }

  method SumListed(ghost objects: Objects, list: seq<Listed>) returns (chunks: nat, physical: nat)
    requires IsListing(objects, Prefix.Chunks, list)
    ensures chunks == |ChunkKeys(objects)| && physical == PhysicalBytes(objects)
  {
    hide IsListing;
    chunks, physical := 0, 0;
    for i := 0 to |list|
      invariant chunks == i && physical == ListedBytes(list, i)
    {
      chunks, physical := chunks + 1, physical + list[i].size;
    }
    ListingIsSum(objects, list, |list|);
    ListedKeysAll(objects, list);
  }

  /** Adding up a listing adds up the sizes of the listed keys. */
  lemma {:induction false} ListingIsSum(objects: Objects, list: seq<Listed>, n: nat)
    requires IsListing(objects, Prefix.Chunks, list) && n <= |list|
    ensures |ListedKeys(list, n)| == n
    ensures ListedBytes(list, n) == Sum(ListedKeys(list, n), SizeIn(objects))
  {
    hide IsListing, SizeIn;
    if n > 0 {
      ListingIsSum(objects, list, n - 1);
      NextListedIsNew(objects, list, n - 1);
      var k := list[n - 1].key;
      SumTake(ListedKeys(list, n), SizeIn(objects), k);
      assert ListedKeys(list, n) - {k} == ListedKeys(list, n - 1);
    }
  }

  lemma ListedKeysAll(objects: Objects, list: seq<Listed>)
    requires IsListing(objects, Prefix.Chunks, list)
    ensures ListedKeys(list, |list|) == ChunkKeys(objects)
  {
    ListedKeysAre(list, |list|);
    forall k
      ensures k in ListedKeys(list, |list|) <==> k in ChunkKeys(objects)
    {
      if k in ListedKeys(list, |list|) {
        var i :| 0 <= i < |list| && list[i].key == k;
        assert list[i] in list;
      }
    }
  }

  /** e is the entry of the snapshot under that path. */
  ghost predicate IsEntry(h: Handle, objects: Objects, id: string, path: string, e: FileEntry) {
    Selected(h, objects, id).Ok? && e in Selected(h, objects, id).value.files && e.path == path
  }

  /** The bytes are the verified chunks of that regular file. */
  ghost predicate RestoredFile(h: Handle, objects: Objects, id: string, path: string, written: Bytes) {
    exists e ::
      IsEntry(h, objects, id, path, e) && e.kind.File? && ReadAll(h, objects, e.chunks) == Ok(written)
        && |written| == e.size
  }

  /** What is restored of a file of a readable snapshot: its verified chunks. */
  lemma RestoredIs(h: Handle, objects: Objects, m: Manifest, e: FileEntry, content: Bytes)
    requires ReadManifest(h, objects, m.id) == Ok(m) && e in m.files && e.kind.File?
    requires ReadAll(h, objects, e.chunks) == Ok(content) && |content| == e.size
    ensures forall written :: RestoredFile(h, objects, m.id, e.path, written) <==> written == content
  {
    hide ReadAll, ManifestPlain, ValidEntry;
    assert Selected(h, objects, m.id) == Ok(m);
    SelectedIsThere(h, objects, m.id);
    assert IsEntry(h, objects, m.id, e.path, e);
    forall f | IsEntry(h, objects, m.id, e.path, f)
      ensures f == e
    {}
  }

  /** The bytes are a beginning of the verified chunks of that regular file. */
  ghost predicate RestoredPart(h: Handle, objects: Objects, id: string, path: string, written: Bytes) {
    written == [] || exists e, n, part ::
      IsEntry(h, objects, id, path, e) && e.kind.File? && WrittenPart(h, objects, e.chunks, n, part, written)
  }

  /** The first n chunks in full and a part of the next one. */
  ghost predicate WrittenPart(h: Handle, objects: Objects, refs: seq<ChunkRef>, n: nat, part: Bytes, written: Bytes) {
    && n <= |refs|
    && ReadAll(h, objects, refs[..n]).Ok?
    && written == ReadAll(h, objects, refs[..n]).value + part
    && (part == []
        || (n < |refs| && ReadChunk(h, objects, refs[n].id).Ok? && part <= ReadChunk(h, objects, refs[n].id).value))
  }

  lemma {:induction false} ReadAllSize(h: Handle, objects: Objects, refs: seq<ChunkRef>)
    requires ReadAll(h, objects, refs).Ok?
    ensures |ReadAll(h, objects, refs).value| == TotalSize(refs)
  {
    hide ReadChunk;
    if refs != [] {
      ReadAllSize(h, objects, refs[..|refs| - 1]);
    }
  }

  lemma {:induction false} ReadAllPrefix(h: Handle, objects: Objects, refs: seq<ChunkRef>, n: nat)
    requires n <= |refs| && ReadAll(h, objects, refs).Ok?
    ensures ReadAll(h, objects, refs[..n]).Ok?
  {
    hide ReadChunk;
    if n == |refs| {
      assert refs[..n] == refs;
    } else {
      ReadAllPrefix(h, objects, refs[..|refs| - 1], n);
      assert refs[..|refs| - 1][..n] == refs[..n];
    }
  }

  lemma NothingWritten(h: Handle, objects: Objects, refs: seq<ChunkRef>)
    ensures ReadAll(h, objects, refs[..0]) == Ok([]) && WrittenPart(h, objects, refs, 0, [], [])
  {}

  /** One chunk more, in full or in part. */
  lemma NextChunkReads(h: Handle, objects: Objects, refs: seq<ChunkRef>, n: nat, before: Bytes, data: Bytes, k: nat)
    requires n < |refs| && k <= |data| && ReadAll(h, objects, refs[..n]) == Ok(before)
    requires ReadChunk(h, objects, refs[n].id) == Ok(data)
    ensures WrittenPart(h, objects, refs, n, data[..k], before + data[..k])
    ensures |data| == refs[n].size ==> ReadAll(h, objects, refs[..n + 1]) == Ok(before + data)
    ensures k == |data| ==> data[..k] == data
  {
    hide ReadChunk;
    assert refs[..n + 1][..n] == refs[..n];
  }

  /** A chunk that cannot be read, or has another size, spoils the whole file. */
  lemma NextChunkFails(h: Handle, objects: Objects, refs: seq<ChunkRef>, n: nat)
    requires n < |refs|
    requires ReadChunk(h, objects, refs[n].id).Err? || |ReadChunk(h, objects, refs[n].id).value| != refs[n].size
    ensures ReadAll(h, objects, refs).Err?
  {
    hide ReadChunk;
    assert refs[..n + 1][..n] == refs[..n];
    assert ReadAll(h, objects, refs[..n + 1]).Err?;
    if ReadAll(h, objects, refs).Ok? {
      ReadAllPrefix(h, objects, refs, n + 1);
    }
  }

  lemma FileSizes(m: Manifest, n: nat)
    requires ValidManifest(m) && n < |m.files| && m.files[n].kind.File?
    ensures m.files[n].size == TotalSize(m.files[n].chunks)
  {
    assert ValidEntry(m.files[n]);
  }

  lemma NoEntry(h: Handle, objects: Objects, id: string, path: string)
    requires Selected(h, objects, id).Err?
    ensures forall e :: !IsEntry(h, objects, id, path, e)
  {}

  lemma IsTheEntry(h: Handle, objects: Objects, id: string, path: string, e: FileEntry)
    requires Selected(h, objects, id).Ok? && e in Selected(h, objects, id).value.files && e.path == path
    ensures IsEntry(h, objects, id, path, e)
  {}

  /** A path names at most one entry. */
  lemma OnlyEntry(h: Handle, objects: Objects, id: string, path: string, i: nat)
    requires Selected(h, objects, id).Ok? && i <= |Selected(h, objects, id).value.files|
    requires var files := Selected(h, objects, id).value.files;
             && (forall j :: 0 <= j < i ==> files[j].path != path)
             && (i < |files| ==> files[i].path == path)
    ensures var files := Selected(h, objects, id).value.files;
            forall e :: IsEntry(h, objects, id, path, e) ==> i < |files| && e == files[i]
  {
    hide Selected;
    SelectedIsThere(h, objects, id);
    var files := Selected(h, objects, id).value.files;
    forall e | IsEntry(h, objects, id, path, e)
      ensures i < |files| && e == files[i]
    {
      var j :| 0 <= j < |files| && files[j] == e;
      assert j == i;
    }
  }

  lemma EntryPath(h: Handle, objects: Objects, id: string, path: string, e: FileEntry)
    requires IsEntry(h, objects, id, path, e)
    ensures ValidPath(path) && (e.kind.File? ==> e.size == TotalSize(e.chunks))
  {
    hide Selected, ValidPath;
    SelectedIsThere(h, objects, id);
    assert ValidEntry(e);
  }
}
