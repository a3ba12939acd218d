/** What a restore can write once the store has been damaged. */
module Damage {
  import opened Chunker
  import opened ChunkProperties
  import opened Model
  import opened Store
  import opened Published
  import opened Repository

  /** Chunks that can be read under the references of the original pieces are the
      original pieces, whatever now lies in the store. */
  lemma {:induction false} DamagedReadsAreGenuine(h: Handle, damaged: Objects, pieces: seq<Bytes>, n: nat)
    requires n <= |pieces| && ReadAll(h, damaged, Refs(h.prims, pieces)[..n]).Ok?
    requires NoCollision(h.prims, (set d | d in pieces) + Plaintexts(h, damaged, Refs(h.prims, pieces)))
    ensures ReadAll(h, damaged, Refs(h.prims, pieces)[..n]) == Ok(Concat(pieces[..n]))
  {
    hide ReadChunk;
    var refs := Refs(h.prims, pieces);
    if n == 0 {
      assert pieces[..0] == [] && refs[..0] == [];
    } else {
      assert refs[..n][..n - 1] == refs[..n - 1] && refs[..n][n - 1] == refs[n - 1];
      DamagedReadsAreGenuine(h, damaged, pieces, n - 1);
      DamagedChunkIsGenuine(h, damaged, pieces, n - 1);
      assert pieces[..n] == pieces[..n - 1] + [pieces[n - 1]];
      ConcatAppend(pieces[..n - 1], [pieces[n - 1]]);
      assert Concat([pieces[n - 1]]) == pieces[n - 1];
    }
  }

  lemma DamagedChunkIsGenuine(h: Handle, damaged: Objects, pieces: seq<Bytes>, i: nat)
    requires i < |pieces| && ReadChunk(h, damaged, Refs(h.prims, pieces)[i].id).Ok?
    requires NoCollision(h.prims, (set d | d in pieces) + Plaintexts(h, damaged, Refs(h.prims, pieces)))
    ensures ReadChunk(h, damaged, Refs(h.prims, pieces)[i].id).value == pieces[i]
  {
    hide ReadChunk;
    var refs := Refs(h.prims, pieces);
    ReadHashes(h, damaged, refs[i].id);
    assert refs[i] in refs;
    assert ReadChunk(h, damaged, refs[i].id).value in Plaintexts(h, damaged, refs);
  }

  /** The manifest under that ID is read as the published one or not at all. */
  ghost predicate Genuine(h: Handle, damaged: Objects, published: Manifest) {
    ReadManifest(h, damaged, published.id).Ok? ==> ReadManifest(h, damaged, published.id) == Ok(published)
  }

  /** Ideal sealing: whoever damages the store cannot seal under the data key, so
      nothing but the published manifest was ever sealed under it for that ID. */
  ghost predicate SealingAllows(h: Handle, damaged: Objects, published: Manifest) {
    h.key.Some? ==> forall k :: k in damaged ==> !IsForgery(h.key.value, damaged[k].content, published)
  }

  ghost predicate IsForgery(key: Key, c: Content, published: Manifest) {
    && c.ManifestContent? && c.manifest.Sealed?
    && c.manifest.key == key && c.manifest.aad == ManifestAad(published.id) && c.manifest.value != published
  }

  /** In an encrypted repository that makes the manifest genuine whatever the
      damage. */
  lemma SealedManifestsAreGenuine(h: Handle, damaged: Objects, published: Manifest)
    requires h.key.Some? && SealingAllows(h, damaged, published)
    ensures Genuine(h, damaged, published)
  {
    hide ValidManifest;
  }

  /** Under arbitrary damage to the store, whatever `RestoreFile` has written of a
      backed-up file, on success or on failure, is a prefix of the original bytes,
      and all of them on success. */
  lemma RestoredBytesArePrefix(h: Handle, damaged: Objects, published: Manifest, e: FileEntry, pieces: seq<Bytes>,
      written: Bytes)
    requires ValidManifest(published) && e in published.files && e.chunks == Refs(h.prims, pieces)
    requires Genuine(h, damaged, published) && published.id != LATEST
    requires NoCollision(h.prims, (set d | d in pieces) + Plaintexts(h, damaged, e.chunks))
    ensures RestoredPart(h, damaged, published.id, e.path, written) ==> written <= Concat(pieces)
    ensures RestoredFile(h, damaged, published.id, e.path, written) ==> written == Concat(pieces)
  {
    hide ReadChunk, ReadManifest, ReadAll, ValidEntry;
    if written != [] && RestoredPart(h, damaged, published.id, e.path, written) {
      var f, n, part :| IsEntry(h, damaged, published.id, e.path, f) && f.kind.File?
                        && WrittenPart(h, damaged, f.chunks, n, part, written);
      DamagedPartIsPrefix(h, damaged, pieces, n, part, written);
    }
    if RestoredFile(h, damaged, published.id, e.path, written) {
      assert e.chunks[..|pieces|] == e.chunks && pieces[..|pieces|] == pieces;
      DamagedReadsAreGenuine(h, damaged, pieces, |pieces|);
    }
  }

  lemma DamagedPartIsPrefix(h: Handle, damaged: Objects, pieces: seq<Bytes>, n: nat, part: Bytes, written: Bytes)
    requires WrittenPart(h, damaged, Refs(h.prims, pieces), n, part, written)
    requires NoCollision(h.prims, (set d | d in pieces) + Plaintexts(h, damaged, Refs(h.prims, pieces)))
    ensures written <= Concat(pieces)
  {
    hide ReadChunk, ReadAll;
    DamagedReadsAreGenuine(h, damaged, pieces, n);
    assert pieces == pieces[..n] + pieces[n..];
    ConcatAppend(pieces[..n], pieces[n..]);
    if part != [] {
      DamagedChunkIsGenuine(h, damaged, pieces, n);
      assert pieces[n..] == [pieces[n]] + pieces[n + 1..];
      ConcatAppend([pieces[n]], pieces[n + 1..]);
      assert Concat([pieces[n]]) == pieces[n];
    }
  }

  function Copies(d: Bytes, n: nat): seq<Bytes> {
    seq(n, i => d)
  }

  /** References to the same chunk n times read as at least n bytes. */
  lemma {:induction false} CopiesRead(h: Handle, objects: Objects, d: Bytes, n: nat)
    requires d != [] && ReadChunk(h, objects, h.prims.hash(d)) == Ok(d)
    ensures ReadAll(h, objects, Refs(h.prims, Copies(d, n))).Ok?
    ensures |ReadAll(h, objects, Refs(h.prims, Copies(d, n))).value| >= n
  {
    hide ReadChunk;
    if n > 0 {
      var refs := Refs(h.prims, Copies(d, n));
      assert refs[..n - 1] == Refs(h.prims, Copies(d, n - 1));
      CopiesRead(h, objects, d, n - 1);
    }
  }

  /** A manifest of one file at that path, n copies of one chunk long. */
  function Forged(p: Primitives, id: string, path: string, d: Bytes, n: nat): Manifest {
    var refs := Refs(p, Copies(d, n));
    Manifest(FORMAT_VERSION, id, None, [FileEntry(path, File, TotalSize(refs), refs, "")], "")
  }

  /** A clear store that holds it, and the chunk. */
  function ForgedStore(h: Handle, id: string, path: string, d: Bytes, n: nat): Objects
    requires h.key.None?
  {
    map[
      ManifestKeyOf(h, id) := Object(StoredManifest(h, 0, Forged(h.prims, id, path, d, n)), 0),
      ChunkKeyOf(h.prims.hash(d)) := Object(StoredChunk(h, 0, d), 1)]
  }

  lemma ForgedIsValid(p: Primitives, id: string, path: string, d: Bytes, n: nat)
    requires PlainId(id) && ValidPath(path)
    ensures ValidManifest(Forged(p, id, path, d, n))
  {
    hide ValidPath;
    var m := Forged(p, id, path, d, n);
    assert ValidEntry(m.files[0]);
  }

  lemma ForgedReads(h: Handle, id: string, path: string, d: Bytes, n: nat)
    requires h.key.None? && PlainId(id) && ValidPath(path)
    ensures var store := ForgedStore(h, id, path, d, n);
            && ReadManifest(h, store, id) == Ok(Forged(h.prims, id, path, d, n))
            && ReadChunk(h, store, h.prims.hash(d)) == Ok(d)
            && forall c :: ReadChunk(h, store, c).Ok? ==> c == h.prims.hash(d)
  {
    hide ValidManifest, ChunkPlain, StoredChunk, Forged;
    ForgedIsValid(h.prims, id, path, d, n);
    StoredChunkReads(h, 0, d);
    assert Forged(h.prims, id, path, d, n).id == id by {
      ForgedId(h.prims, id, path, d, n);
    }
  }

  lemma ForgedId(p: Primitives, id: string, path: string, d: Bytes, n: nat)
    ensures Forged(p, id, path, d, n).id == id
  {}

  lemma ForgedRestores(h: Handle, id: string, path: string, d: Bytes, n: nat) returns (written: Bytes)
    requires h.key.None? && PlainId(id) && ValidPath(path) && d != []
    ensures RestoredFile(h, ForgedStore(h, id, path, d, n), id, path, written) && |written| >= n
  {
    hide ReadChunk, ReadManifest, ForgedStore, ReadAll, ValidPath;
    var store := ForgedStore(h, id, path, d, n);
    ForgedReads(h, id, path, d, n);
    CopiesRead(h, store, d, n);
    var e := Forged(h.prims, id, path, d, n).files[0];
    ReadAllSize(h, store, e.chunks);
    written := ReadAll(h, store, e.chunks).value;
    SelectedIs(h, store, id);
    assert IsEntry(h, store, id, path, e);
  }

  lemma SelectedIs(h: Handle, objects: Objects, id: string)
    ensures id != LATEST ==> Selected(h, objects, id) == ReadManifest(h, objects, id)
  {}

  /** The facts about a backed-up file that the theorem is about: it is a regular
      file of a published manifest, its pieces are not empty, and they do not
      collide with each other. */
  ghost predicate IsBackedUp(h: Handle, published: Manifest, e: FileEntry, pieces: seq<Bytes>) {
    && ValidManifest(published) && PlainId(published.id) && e in published.files && e.kind.File?
    && e.chunks == Refs(h.prims, pieces)
    && (forall d :: d in pieces ==> d != [])
    && NoCollision(h.prims, set d | d in pieces)
  }

  /** A damage to the store that ideal sealing allows and in which no collision is
      found, after which `RestoreFile` may write this. */
  ghost predicate MayWrite(h: Handle, damaged: Objects, published: Manifest, e: FileEntry, pieces: seq<Bytes>,
      written: Bytes) {
    && SealingAllows(h, damaged, published)
    && NoCollision(h.prims, (set d | d in pieces) + Plaintexts(h, damaged, e.chunks))
    && (|| RestoredPart(h, damaged, published.id, e.path, written)
        || RestoredFile(h, damaged, published.id, e.path, written))
  }

  /** The same where it succeeds. */
  ghost predicate MayComplete(h: Handle, damaged: Objects, published: Manifest, e: FileEntry, pieces: seq<Bytes>,
      written: Bytes) {
    MayWrite(h, damaged, published, e, pieces, written) && RestoredFile(h, damaged, published.id, e.path, written)
  }

  /** Without encryption a forged manifest is believed: for every snapshot and every
      regular file in it there is a damaged store from which `RestoreFile` succeeds
      with bytes that are no prefix of the original. */
  lemma ForgedClearManifestIsRestored(h: Handle, published: Manifest, e: FileEntry, pieces: seq<Bytes>)
    returns (damaged: Objects, written: Bytes)
    requires h.key.None? && IsBackedUp(h, published, e, pieces)
    ensures MayWrite(h, damaged, published, e, pieces, written)
    ensures RestoredFile(h, damaged, published.id, e.path, written)
    ensures !(written <= Concat(pieces))
  {
    hide ReadChunk, ReadManifest, RestoredFile, RestoredPart, ForgedStore, ValidPath;
    var d: Bytes := if pieces == [] then [0] else pieces[0];
    var n := |Concat(pieces)| + 1;
    assert ValidEntry(e);
    damaged := ForgedStore(h, published.id, e.path, d, n);
    ForgedReads(h, published.id, e.path, d, n);
    written := ForgedRestores(h, published.id, e.path, d, n);
    assert Plaintexts(h, damaged, e.chunks) <= set x | x in pieces by {
      forall r | r in e.chunks && ReadChunk(h, damaged, r.id).Ok?
        ensures ReadChunk(h, damaged, r.id).value in pieces
      {}
    }
    assert (set x | x in pieces) + Plaintexts(h, damaged, e.chunks) == set x | x in pieces;
  }

  /** `RestoreFile` never writes anything but a prefix of the original, under every
      damage that ideal sealing allows, if and only if the repository is
      encrypted. */
  lemma PrefixExactlyWhenEncrypted(h: Handle, published: Manifest, e: FileEntry, pieces: seq<Bytes>)
    requires IsBackedUp(h, published, e, pieces)
    ensures (forall damaged, written :: MayWrite(h, damaged, published, e, pieces, written) ==>
             written <= Concat(pieces)) <==>
              h.key.Some?
    ensures (forall damaged, written :: MayComplete(h, damaged, published, e, pieces, written) ==>
             written == Concat(pieces)) <==>
              h.key.Some?
  {
    hide SealingAllows, NoCollision, RestoredFile, RestoredPart, Plaintexts, ValidManifest, PlainId, Genuine;
    if h.key.None? {
      var damaged, written := ForgedClearManifestIsRestored(h, published, e, pieces);
      assert MayComplete(h, damaged, published, e, pieces, written);
    } else {
      forall damaged, written | MayWrite(h, damaged, published, e, pieces, written)
        ensures written <= Concat(pieces)
        ensures RestoredFile(h, damaged, published.id, e.path, written) ==> written == Concat(pieces)
      {
        SealedManifestsAreGenuine(h, damaged, published);
        NotTheSelector(published.id);
        RestoredBytesArePrefix(h, damaged, published, e, pieces, written);
      }
    }
  }

  lemma NotTheSelector(id: string)
    ensures PlainId(id) ==> id != LATEST
  {}
}
