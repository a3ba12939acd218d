/** The repository's data: manifests, sealed objects, the chunk codec, and what
    the objects of a store mean to an open repository. */
module Model {
  import opened Chunker

  datatype Option<+T> = None | Some(value: T)

  /* ---- identifiers ---- */

  predicate IsLowerHex(ch: char) {
    '0' <= ch <= '9' || 'a' <= ch <= 'f'
  }

  predicate IsHex(ch: char) {
    IsLowerHex(ch) || 'A' <= ch <= 'F'
  }

  /** The check of `rChunkPath` and `chunkPath`: 64 hexadecimal digits. */
  predicate ValidChunkId(id: string) {
    |id| == 64 && forall k :: 0 <= k < 64 ==> IsHex(id[k])
  }

  /** A SHA-256 sum as `hex.EncodeToString` prints it. */
  type Digest = s: string | |s| == 64 && forall k :: 0 <= k < 64 ==> IsLowerHex(s[k])
    witness seq(64, i => '0')

  /* ---- sealing (AES-GCM with ideal authentication) ---- */

  /** A 256-bit key: drawn at random, or derived from a passphrase by PBKDF2. */
  datatype Key = Random(n: nat) | Derived(passphrase: string, salt: nat, iterations: nat)

  /** Associated data: what a sealed object is bound to. */
  datatype Aad = ChunkAad(id: string) | ManifestAad(id: string) | WrappedKeyAad | KeyCheckAad

  datatype Envelope<+T> = Clear(value: T) | Sealed(key: Key, nonce: nat, aad: Aad, value: T)

  function Seal<T>(key: Option<Key>, nonce: nat, aad: Aad, value: T): Envelope<T> {
    match key
    case None => Clear(value)
    case Some(k) => Sealed(k, nonce, aad, value)
  }

  function Unseal<T>(key: Option<Key>, aad: Aad, e: Envelope<T>): Option<T> {
    match e
    case Clear(v) => if key.None? then Some(v) else None
    case Sealed(k, _, l, v) => if key == Some(k) && l == aad then Some(v) else None
  }

  /* ---- compression ---- */

  /** SHA-256 and the two compressors, abstractly. */
  datatype RawPrimitives = RawPrimitives(
    hash: Bytes -> Digest,
    gzip: Bytes -> Bytes, gunzip: Bytes -> Option<Bytes>,
    zstd: Bytes -> Bytes, unzstd: Bytes -> Option<Bytes>)

  ghost predicate Lossless(p: RawPrimitives) {
    && (forall x :: p.gunzip(p.gzip(x)) == Some(x))
    && (forall x :: p.unzstd(p.zstd(x)) == Some(x))
  }

  ghost const TRIVIAL := RawPrimitives(x => seq(64, i => '0'), x => x, x => Some(x), x => x, x => Some(x))

  type Primitives = p: RawPrimitives | Lossless(p) ghost witness TRIVIAL

  /** SHA-256 has no collision among these contents. */
  ghost predicate NoCollision(p: Primitives, contents: set<Bytes>) {
    forall a, b :: a in contents && b in contents && p.hash(a) == p.hash(b) ==> a == b
  }

  datatype Compression = NoCompression | Gzip | Zstd

  /** The five bytes in front of every chunk of a zstd repository: V, Z, 0, 1 and
      whether the payload is compressed. */
  function ZstdHeader(compressed: bool): Bytes {
    [86, 90, 48, 1, if compressed then 1 else 0]
  }

  function EncodeChunk(p: Primitives, c: Compression, plain: Bytes): Bytes {
    match c
    case NoCompression => plain
    case Gzip => p.gzip(plain)
    case Zstd =>
      var packed := p.zstd(plain);
      if |packed| >= |plain| then ZstdHeader(false) + plain else ZstdHeader(true) + packed
  }

  function DecodeChunk(p: Primitives, c: Compression, stored: Bytes): Option<Bytes> {
    match c
    case NoCompression => Some(stored)
    case Gzip => p.gunzip(stored)
    case Zstd =>
      if |stored| < 5 || stored[..4] != ZstdHeader(false)[..4] then None
      else if stored[4] == 0 then Some(stored[5..])
      else if stored[4] == 1 then p.unzstd(stored[5..])
      else None
  }

  /** Decoding undoes encoding under every compression policy; a zstd chunk is
      never more than five bytes longer than its plaintext. */
  lemma CodecRoundTrip(p: Primitives, c: Compression, plain: Bytes)
    ensures DecodeChunk(p, c, EncodeChunk(p, c, plain)) == Some(plain)
    ensures c.Zstd? ==> |EncodeChunk(p, c, plain)| <= |plain| + 5
  {
    var stored := EncodeChunk(p, c, plain);
    if c.Zstd? {
      var compressed := |p.zstd(plain)| < |plain|;
      assert stored[..5] == ZstdHeader(compressed);
      assert stored[..4] == stored[..5][..4];
      assert stored[5..] == if compressed then p.zstd(plain) else plain;
    }
  }

  /* ---- manifests ---- */

  datatype ChunkRef = ChunkRef(id: string, size: int)

  datatype EntryKind = File | Directory | Symlink | Hardlink | Unknown

  datatype FileEntry = FileEntry(path: string, kind: EntryKind, size: int, chunks: seq<ChunkRef>, linkTarget: string)

  /** `created` is None when the creation time does not parse; `meta` stands for
      the fields that are only carried along. */
  datatype Manifest = Manifest(formatVersion: int, id: string, created: Option<int>, files: seq<FileEntry>,
      meta: string)

  const FORMAT_VERSION := 1

  function FirstSlash(s: string): (k: nat)
    ensures k <= |s|
    ensures forall j :: 0 <= j < k ==> s[j] != '/'
    ensures k < |s| ==> s[k] == '/'
  {
    if s == "" || s[0] == '/' then 0 else 1 + FirstSlash(s[1..])
  }

  /** The components of a slash-separated path. */
  function Components(s: string): seq<string>
    decreases |s|
  {
    var k := FirstSlash(s);
    if k == |s| then [s] else [s[..k]] + Components(s[k + 1..])
  }

  predicate ValidPath(path: string) {
    && path != ""
    && path[0] != '/'
    && '\\' !in path
    && forall part :: part in Components(path) ==> part != "" && part != "." && part != ".."
  }

  /** The references of a file that was split into these pieces. */
  function Refs(p: Primitives, pieces: seq<Bytes>): seq<ChunkRef> {
    seq(|pieces|, k requires 0 <= k < |pieces| => ChunkRef(p.hash(pieces[k]), |pieces[k]|))
  }

  function TotalSize(refs: seq<ChunkRef>): int {
    if refs == [] then 0 else TotalSize(refs[..|refs| - 1]) + refs[|refs| - 1].size
  }

  predicate ValidEntry(e: FileEntry) {
    && ValidPath(e.path)
    && !e.kind.Unknown?
    && (e.kind.File? ==>
          && (forall r :: r in e.chunks ==> ValidChunkId(r.id) && r.size >= 0)
          && TotalSize(e.chunks) == e.size)
    && (e.kind.Hardlink? ==> ValidPath(e.linkTarget))
    && (e.kind.Symlink? ==> e.linkTarget != "")
  }

  /** `validateManifest`. */
  predicate ValidManifest(m: Manifest) {
    && m.formatVersion == FORMAT_VERSION
    && m.id != ""
    && (forall e :: e in m.files ==> ValidEntry(e))
    && (forall j, k :: 0 <= j < k < |m.files| ==> m.files[j].path != m.files[k].path)
  }

  /** The chunk IDs a manifest refers to, in entries of any kind: what the
      collector marks. */
  function RefIds(m: Manifest): set<string> {
    set e, r | e in m.files && r in e.chunks :: r.id
  }

  /* ---- objects ---- */

  /** Object keys: `chunks/<dir>/<base>`, `snapshots/<id>/manifest.{enc,json}`,
      `config.json`, `write.lock`. */
  datatype ObjKey =
    | ConfigKey
    | LockKey
    | ManifestKey(id: string, enc: bool)
    | ChunkKey(dir: string, base: string)
    | OtherKey(name: string)

  datatype EncryptionConfig = EncryptionConfig(
    supported: bool, iterations: nat, salt: nat, wrapped: Option<Envelope<Key>>, check: Envelope<string>)

  datatype RepositoryConfig = RepositoryConfig(
    formatVersion: int, compression: string, encryption: Option<EncryptionConfig>)

  datatype LockInfo = LockInfo(pid: nat, created: Option<int>)

  datatype Content =
    | ChunkContent(chunk: Envelope<Bytes>)
    | ManifestContent(manifest: Envelope<Manifest>)
    | ConfigContent(config: RepositoryConfig)
    | LockContent(lock: LockInfo)
    | Junk(size: nat)

  /** An object and its version, which no other write shares. */
  datatype Object = Object(content: Content, version: nat)

  type Objects = map<ObjKey, Object>

  /** Stored bytes of a chunk object: the nonce and the tag take 28 bytes. */
  function Size(c: Content): nat {
    match c
    case ChunkContent(Clear(b)) => |b|
    case ChunkContent(Sealed(_, _, _, b)) => |b| + 28
    case Junk(n) => n
    case _ => 0
  }

  /** What an open repository knows: its policy and its data key. */
  datatype Handle = Handle(prims: Primitives, compression: Compression, key: Option<Key>)

  function ChunkKeyOf(id: string): ObjKey
    requires ValidChunkId(id)
  {
    ChunkKey(id[..2] + "/" + id[2..4], id)
  }

  function ManifestKeyOf(h: Handle, id: string): ObjKey {
    ManifestKey(id, h.key.Some?)
  }

  /** The object `PutChunk` stores for `data`. */
  function StoredChunk(h: Handle, nonce: nat, data: Bytes): Content {
    ChunkContent(Seal(h.key, nonce, ChunkAad(h.prims.hash(data)), EncodeChunk(h.prims, h.compression, data)))
  }

  function StoredManifest(h: Handle, nonce: nat, m: Manifest): Content {
    ManifestContent(Seal(h.key, nonce, ManifestAad(m.id), m))
  }

  /** Overflow: the call nests too deeply to return. */
  datatype ReadError = NotFound | Invalid | Overflow

  datatype Result<+T> = Ok(value: T) | Err(error: ReadError)

  /** `readChunk` and `verifyChunk` once the object has been fetched. */
  function ChunkPlain(h: Handle, id: string, content: Content): Option<Bytes> {
    if !content.ChunkContent? then None else
      match Unseal(h.key, ChunkAad(id), content.chunk)
      case None => None
      case Some(stored) =>
        match DecodeChunk(h.prims, h.compression, stored)
        case None => None
        case Some(plain) => if h.prims.hash(plain) == id then Some(plain) else None
  }

  function ReadChunk(h: Handle, objects: Objects, id: string): Result<Bytes> {
    if !ValidChunkId(id) then Err(Invalid)
    else if ChunkKeyOf(id) !in objects then Err(NotFound)
    else match ChunkPlain(h, id, objects[ChunkKeyOf(id)].content)
      case None => Err(Invalid)
      case Some(plain) => Ok(plain)
  }

  /** The bytes of consecutive chunks, each read back intact and of its recorded
      size; an error at the first that is not. */
  function ReadAll(h: Handle, objects: Objects, refs: seq<ChunkRef>): Result<Bytes> {
    if refs == [] then Ok([]) else
      var last := refs[|refs| - 1];
      match ReadAll(h, objects, refs[..|refs| - 1])
      case Err(e) => Err(e)
      case Ok(before) =>
        match ReadChunk(h, objects, last.id)
        case Err(e) => Err(e)
        case Ok(data) => if |data| == last.size then Ok(before + data) else Err(Invalid)
  }

  /** The plaintexts that some references give. */
  ghost function Plaintexts(h: Handle, objects: Objects, refs: seq<ChunkRef>): set<Bytes> {
    set r | r in refs && ReadChunk(h, objects, r.id).Ok? :: ReadChunk(h, objects, r.id).value
  }

  /** The part of `ReadManifest` that follows once the object has been fetched. */
  function ManifestPlain(h: Handle, id: string, content: Content): Option<Manifest> {
    if !content.ManifestContent? then None else
      match Unseal(h.key, ManifestAad(id), content.manifest)
      case None => None
      case Some(m) => if ValidManifest(m) && m.id == id then Some(m) else None
  }

  /** The name that selects the latest snapshot, and so names none. */
  const LATEST := "latest"

  predicate PlainId(id: string) {
    id != "" && id != LATEST && '/' !in id && '\\' !in id
  }

  /** `ReadManifest` of a snapshot ID. An object stored under the selector's name
      cannot be read by that name. */
  function ReadManifest(h: Handle, objects: Objects, id: string): Result<Manifest> {
    if !PlainId(id) then Err(Invalid)
    else if ManifestKeyOf(h, id) !in objects then Err(NotFound)
    else match ManifestPlain(h, id, objects[ManifestKeyOf(h, id)].content)
      case None => Err(Invalid)
      case Some(m) => Ok(m)
  }

  /** The key has the three parts snapshots/<id>/<the manifest's name>. */
  predicate NamesSnapshot(h: Handle, k: ObjKey) {
    k.ManifestKey? && k.enc == h.key.Some? && '/' !in k.id
  }

  /** The IDs under which a manifest object is listed. */
  function PublishedIds(h: Handle, objects: Objects): set<string> {
    set k | k in objects && NamesSnapshot(h, k) :: k.id
  }

  lemma ReadHashes(h: Handle, objects: Objects, c: string)
    requires ReadChunk(h, objects, c).Ok?
    ensures h.prims.hash(ReadChunk(h, objects, c).value) == c
  {}

  /** What was stored for some data is read back as that data. */
  lemma StoredChunkReads(h: Handle, nonce: nat, data: Bytes)
    ensures ChunkPlain(h, h.prims.hash(data), StoredChunk(h, nonce, data)) == Some(data)
  {
    CodecRoundTrip(h.prims, h.compression, data);
  }
}
