/** The commit protocol: any number of commands over any number of repositories,
    interleaved at every store operation, crashing anywhere. Every step makes at
    most one change to one store. */
module Protocol {
  import opened Words
  import opened Chunker
  import opened ChunkProperties
  import opened Model
  import Keys

  /* ---- the world ---- */

  /** What never changes: the primitives, the chunker's table, and the policy and
      data key of every repository. */
  datatype RepoSpec = RepoSpec(compression: Compression, key: Option<Key>)
  datatype Env = Env(prims: Primitives, table: Table, repos: seq<RepoSpec>)

  function HandleOf(env: Env, r: nat): Handle
    requires r < |env.repos|
  {
    Handle(env.prims, env.repos[r].compression, env.repos[r].key)
  }

  /** The content of one backed-up file and the chunks it was split into. */
  datatype Source = Source(content: Bytes, pieces: seq<Bytes>)
  type Origin = map<string, Source>

  /** One call of `PutChunk`: about to get the object, about to create it, about
      to rehash an existing one, or finished. */
  datatype Phase = Fetch | Store | Recheck | Stored | Failed
  datatype Task = Task(data: Bytes, phase: Phase)

  datatype Purpose = Backup | Collect | Delete | Replicate(source: nat) | Rotate(passphrase: string)

  datatype Copy = Copy(manifest: Manifest, origin: Origin)

  /** What the holder of the lock does next. */
  datatype Work =
    | BackingUp
    | Collecting
    | Marking(todo: set<string>, live: set<string>)
    | Sweeping(live: set<string>, sweep: set<ObjKey>)
    | Resolving
    | Unpublishing(id: string)
    | SourceListing
    | SourceReading(ids: set<string>, got: seq<Copy>)
    | Comparing(rest: seq<Copy>)
    | Copying(copy: Copy, rest: seq<Copy>)
    | Rewrapping
    | Swapping(seen: nat)

  datatype Pc =
    | Acquiring(attempt: nat)
    | Inspecting(attempt: nat)
    | Evicting(attempt: nat, target: nat)
    | Holding(version: nat, work: Work)
    | Releasing(version: nat)
    | Ended
    | Crashed

  /** One command: the repository it locks, the handles it opened, and the chunk
      stores it started. */
  datatype Session = Session(
    repo: nat, purpose: Purpose, mayEvict: bool, handle: Handle, config: RepositoryConfig,
    sourceHandle: Handle, pc: Pc, tasks: seq<Task>)

  /** `occurred` collects every content handed to `PutChunk`, `origins` what each
      snapshot was taken of; both are history only. */
  datatype World = World(
    repos: seq<Objects>, sessions: map<nat, Session>, clock: nat,
    occurred: set<Bytes>, origins: map<(nat, string), Origin>)

  datatype Step =
    | Begin(sid: nat, repo: nat, purpose: Purpose, mayEvict: bool, passphrase: string, sourcePassphrase: string)
    | TryLock(sid: nat)
    | Inspect(sid: nat, stale: bool)
    | Evict(sid: nat)
    | Spawn(sid: nat, data: Bytes)
    | Advance(sid: nat, task: nat)
    | Publish(sid: nat, manifest: Manifest, origin: Origin)
    | ListManifests(sid: nat)
    | ReadNext(sid: nat, id: string)
    | ListChunks(sid: nat)
    | SweepNext(sid: nat, key: ObjKey)
    | Resolve(sid: nat, id: string)
    | Unpublish(sid: nat)
    | Compare(sid: nat)
    | CopyChunk(sid: nat, id: string)
    | PublishCopy(sid: nat)
    | FetchVersion(sid: nat)
    | Swap(sid: nat, salt: nat)
    | Leave(sid: nat)
    | Release(sid: nat)
    | Crash(sid: nat)

  /* ---- one store operation at a time ---- */

  function Put(w: World, r: nat, k: ObjKey, c: Content): World
    requires r < |w.repos|
  {
    w.(repos := w.repos[r := w.repos[r][k := Object(c, w.clock)]], clock := w.clock + 1)
  }

  function Remove(w: World, r: nat, k: ObjKey): World
    requires r < |w.repos|
  {
    w.(repos := w.repos[r := w.repos[r] - {k}])
  }

  function Move(w: World, sid: nat, pc: Pc): World
    requires sid in w.sessions
  {
    w.(sessions := w.sessions[sid := w.sessions[sid].(pc := pc)])
  }

  function WorkOn(w: World, sid: nat, work: Work): World
    requires sid in w.sessions && w.sessions[sid].pc.Holding?
  {
    Move(w, sid, Holding(w.sessions[sid].pc.version, work))
  }

  /** The end of a command, successful or not: the deferred release is next. */
  function Finish(w: World, sid: nat): World
    requires sid in w.sessions && w.sessions[sid].pc.Holding?
  {
    Move(w, sid, Releasing(w.sessions[sid].pc.version))
  }

  function FirstWork(p: Purpose): Work {
    match p
    case Backup => BackingUp
    case Collect => Collecting
    case Delete => Resolving
    case Replicate(_) => SourceListing
    case Rotate(_) => Rewrapping
  }

  function Retry(attempt: nat): Pc {
    if attempt + 1 < 2 then Acquiring(attempt + 1) else Ended
  }

  function CompressionOf(name: string): Compression {
    if name == "gzip" then Gzip else if name == "zstd" then Zstd else NoCompression
  }

  /** Opening a repository: Get the configuration and derive the key. */
  function OpenRepository(env: Env, objects: Objects, passphrase: string): Option<Handle> {
    if ConfigKey !in objects || !objects[ConfigKey].content.ConfigContent? then None else
      var config := objects[ConfigKey].content.config;
      match Keys.OpenEncryption(config.encryption, passphrase)
      case None => None
      case Some(key) => Some(Handle(env.prims, CompressionOf(config.compression), key))
  }

  function DoneData(s: Session): set<Bytes> {
    set t | t in s.tasks && t.phase.Stored? :: t.data
  }

  /** The manifest a backup publishes. */
  ghost predicate IsBackup(env: Env, s: Session, m: Manifest, origin: Origin) {
    && ValidManifest(m) && PlainId(m.id)
    && forall e :: e in m.files ==> IsRightEntry(env, s, origin, e)
  }

  /** A regular file was split into chunks that this session stored; other entries
      have none. */
  ghost predicate IsRightEntry(env: Env, s: Session, origin: Origin, e: FileEntry) {
    if e.kind.File? then
      && e.path in origin
      && IsSplit(env, origin[e.path])
      && e.chunks == Refs(env.prims, origin[e.path].pieces)
      && e.size == |origin[e.path].content|
      && forall d :: d in origin[e.path].pieces ==> d in DoneData(s)
    else e.chunks == []
  }

  ghost predicate IsSplit(env: Env, f: Source) {
    exists c: Config :: c.Accepted() && f.pieces == Chunks(c, env.table, f.content)
  }

  /* ---- what may happen ---- */

  predicate HasWork(w: World, sid: nat) {
    sid in w.sessions && w.sessions[sid].pc.Holding? && w.sessions[sid].repo < |w.repos|
  }

  ghost predicate Enabled(env: Env, w: World, step: Step) {
    match step
    case Begin(sid, r, p, _, pass, spass) =>
      && sid !in w.sessions && r < |w.repos| == |env.repos|
      && OpenRepository(env, w.repos[r], pass).Some?
      && (p.Replicate? ==>
            && p.source < |w.repos| && p.source != r
            && OpenRepository(env, w.repos[p.source], spass).Some?
            && env.repos[r].key.Some? && env.repos[p.source].key.Some?
            && env.repos[r].compression == env.repos[p.source].compression)
      && (p.Rotate? ==> w.repos[r][ConfigKey].content.config.encryption.Some? && p.passphrase != "")
    case TryLock(sid) => sid in w.sessions && w.sessions[sid].pc.Acquiring?
    case Inspect(sid, _) => sid in w.sessions && w.sessions[sid].pc.Inspecting?
    case Evict(sid) => sid in w.sessions && w.sessions[sid].pc.Evicting?
    case Spawn(sid, _) =>
      && sid in w.sessions && w.sessions[sid].purpose.Backup?
      && (w.sessions[sid].pc.Holding? || w.sessions[sid].pc.Releasing? || w.sessions[sid].pc.Ended?)
    case Advance(sid, i) =>
      && sid in w.sessions && !w.sessions[sid].pc.Crashed?
      && i < |w.sessions[sid].tasks|
    case Publish(sid, m, origin) =>
      HasWork(w, sid) && w.sessions[sid].pc.work.BackingUp? && IsBackup(env, w.sessions[sid], m, origin)
    case ListManifests(sid) =>
      HasWork(w, sid) && (w.sessions[sid].pc.work.Collecting? || w.sessions[sid].pc.work.SourceListing?)
    case ReadNext(sid, id) =>
      && HasWork(w, sid)
      && (|| (w.sessions[sid].pc.work.Marking? && id in w.sessions[sid].pc.work.todo)
          || (w.sessions[sid].pc.work.SourceReading? && id in w.sessions[sid].pc.work.ids))
    case ListChunks(sid) =>
      HasWork(w, sid) && w.sessions[sid].pc.work.Marking? && w.sessions[sid].pc.work.todo == {}
    case SweepNext(sid, k) =>
      HasWork(w, sid) && w.sessions[sid].pc.work.Sweeping? && k in w.sessions[sid].pc.work.sweep
    case Resolve(sid, _) => HasWork(w, sid) && w.sessions[sid].pc.work.Resolving?
    case Unpublish(sid) => HasWork(w, sid) && w.sessions[sid].pc.work.Unpublishing?
    case Compare(sid) =>
      HasWork(w, sid) && w.sessions[sid].pc.work.Comparing? && w.sessions[sid].pc.work.rest != []
    case CopyChunk(sid, id) =>
      HasWork(w, sid) && w.sessions[sid].pc.work.Copying? && id in RefIds(w.sessions[sid].pc.work.copy.manifest)
    case PublishCopy(sid) =>
      && HasWork(w, sid) && w.sessions[sid].pc.work.Copying?
      && forall id :: id in RefIds(w.sessions[sid].pc.work.copy.manifest) ==>
           exists d :: d in DoneData(w.sessions[sid]) && env.prims.hash(d) == id
    case FetchVersion(sid) => HasWork(w, sid) && w.sessions[sid].pc.work.Rewrapping? && w.sessions[sid].purpose.Rotate?
    case Swap(sid, _) => HasWork(w, sid) && w.sessions[sid].pc.work.Swapping? && w.sessions[sid].purpose.Rotate?
    case Leave(sid) => HasWork(w, sid)
    case Release(sid) => sid in w.sessions && w.sessions[sid].pc.Releasing?
    case Crash(sid) => sid in w.sessions
  }

  /* ---- what it does ---- */

  ghost predicate Shape(env: Env, w: World) {
    && |w.repos| == |env.repos|
    && forall sid :: sid in w.sessions ==>
         && w.sessions[sid].repo < |w.repos|
         && (w.sessions[sid].purpose.Replicate? ==> w.sessions[sid].purpose.source < |w.repos|)
  }

  ghost function BeginStep(env: Env, w: World, step: Step): World
    requires Shape(env, w) && Enabled(env, w, step) && step.Begin?
  {
    var objects := w.repos[step.repo];
    var handle := OpenRepository(env, objects, step.passphrase).value;
    var source := if step.purpose.Replicate?
                  then OpenRepository(env, w.repos[step.purpose.source], step.sourcePassphrase).value else handle;
    var config := objects[ConfigKey].content.config;
    var session := Session(step.repo, step.purpose, step.mayEvict, handle, config, source, Acquiring(0), []);
    w.(sessions := w.sessions[step.sid := session])
  }

  /** `acquireWriteLock` and `release`, one store operation at a time. */
  ghost function LockStep(env: Env, w: World, step: Step): World
    requires Shape(env, w) && Enabled(env, w, step)
    requires step.TryLock? || step.Inspect? || step.Evict? || step.Release?
  {
    var s := w.sessions[step.sid];
    var objects := w.repos[s.repo];
    match step
    case TryLock(sid) =>
      if LockKey !in objects then
        Move(Put(w, s.repo, LockKey, LockContent(LockInfo(sid, None))), sid, Holding(w.clock, FirstWork(s.purpose)))
      else if !s.mayEvict then Move(w, sid, Ended)
      else Move(w, sid, Inspecting(s.pc.attempt))
    case Inspect(sid, stale) =>
      if LockKey !in objects then Move(w, sid, Retry(s.pc.attempt))
      else if !stale then Move(w, sid, Ended)
      else Move(w, sid, Evicting(s.pc.attempt, objects[LockKey].version))
    case Evict(sid) =>
      var w1 := if LockKey in objects && objects[LockKey].version == s.pc.target then Remove(w, s.repo, LockKey) else w;
      Move(w1, sid, Retry(s.pc.attempt))
    case Release(sid) =>
      var w1 := if LockKey in objects && objects[LockKey].version == s.pc.version
                then Remove(w, s.repo, LockKey) else w;
      Move(w1, sid, Ended)
  }

  function SetTask(w: World, sid: nat, i: nat, phase: Phase): World
    requires sid in w.sessions && i < |w.sessions[sid].tasks|
  {
    var s := w.sessions[sid];
    w.(sessions := w.sessions[sid := s.(tasks := s.tasks[i := s.tasks[i].(phase := phase)])])
  }

  function AddTask(w: World, sid: nat, data: Bytes): World
    requires sid in w.sessions
  {
    var s := w.sessions[sid];
    w.(sessions := w.sessions[sid := s.(tasks := s.tasks + [Task(data, Fetch)])], occurred := w.occurred + {data})
  }

  /** `PutChunk`, one store operation at a time. */
  ghost function TaskStep(env: Env, w: World, step: Step): World
    requires Shape(env, w) && Enabled(env, w, step)
    requires step.Spawn? || step.Advance?
  {
    match step
    case Spawn(sid, data) => AddTask(w, sid, data)
    case Advance(sid, i) =>
      var s := w.sessions[sid];
      var t := s.tasks[i];
      var id := s.handle.prims.hash(t.data);
      var objects := w.repos[s.repo];
      match t.phase
      case Fetch => SetTask(w, sid, i, if ChunkKeyOf(id) in objects then Recheck else Store)
      case Store =>
        if ChunkKeyOf(id) in objects then SetTask(w, sid, i, Recheck)
        else SetTask(Put(w, s.repo, ChunkKeyOf(id), StoredChunk(s.handle, w.clock, t.data)), sid, i, Stored)
      case Recheck => SetTask(w, sid, i, if ReadChunk(s.handle, objects, id).Ok? then Stored else Failed)
      case Stored => w
      case Failed => w
  }

  /** `publishManifest`: create the manifest object, or fail. */
  function PublishManifest(w: World, sid: nat, m: Manifest, origin: Origin, after: Work): World
    requires HasWork(w, sid)
  {
    var s := w.sessions[sid];
    var k := ManifestKeyOf(s.handle, m.id);
    if k in w.repos[s.repo] then Finish(w, sid)
    else
      var w1 := Put(w, s.repo, k, StoredManifest(s.handle, w.clock, m));
      WorkOn(w1.(origins := w.origins[(s.repo, m.id) := origin]), sid, after)
  }

  ghost function CollectStep(env: Env, w: World, step: Step): World
    requires Shape(env, w) && Enabled(env, w, step)
    requires step.ListManifests? || step.ReadNext? || step.ListChunks? || step.SweepNext?
  {
    var s := w.sessions[step.sid];
    var objects := w.repos[s.repo];
    match step
    case ListManifests(sid) =>
      if s.pc.work.Collecting? then WorkOn(w, sid, Marking(PublishedIds(s.handle, objects), {}))
      else if !s.purpose.Replicate? then Finish(w, sid)
      else WorkOn(w, sid, SourceReading(PublishedIds(s.sourceHandle, w.repos[s.purpose.source]), []))
    case ReadNext(sid, id) =>
      if s.pc.work.Marking? then
        match ReadManifest(s.handle, objects, id)
        case Err(_) => Finish(w, sid)
        case Ok(m) => WorkOn(w, sid, Marking(s.pc.work.todo - {id}, s.pc.work.live + RefIds(m)))
      else if !s.purpose.Replicate? then Finish(w, sid)
      else (
        var work := s.pc.work;
        match ReadManifest(s.sourceHandle, w.repos[s.purpose.source], id)
        case Err(_) => Finish(w, sid)
        case Ok(m) =>
          if (s.purpose.source, id) !in w.origins then Finish(w, sid) else
            var got := work.got + [Copy(m, w.origins[(s.purpose.source, id)])];
            WorkOn(w, sid, if work.ids == {id} then Comparing(got) else SourceReading(work.ids - {id}, got)))
    case ListChunks(sid) => WorkOn(w, sid, Sweeping(s.pc.work.live, set k | k in objects && k.ChunkKey?))
    case SweepNext(sid, k) =>
      var w1 := WorkOn(w, sid, Sweeping(s.pc.work.live, s.pc.work.sweep - {k}));
      if !k.ChunkKey? || k.base in s.pc.work.live then w1
      else if k !in objects then Finish(w, sid)
      else Remove(w1, s.repo, k)
  }

  ghost function DeleteStep(env: Env, w: World, step: Step): World
    requires Shape(env, w) && Enabled(env, w, step)
    requires step.Resolve? || step.Unpublish?
  {
    var s := w.sessions[step.sid];
    var objects := w.repos[s.repo];
    match step
    case Resolve(sid, id) =>
      if ReadManifest(s.handle, objects, id).Ok? then WorkOn(w, sid, Unpublishing(id)) else Finish(w, sid)
    case Unpublish(sid) =>
      var k := ManifestKeyOf(s.handle, s.pc.work.id);
      Finish(if k in objects then Remove(w, s.repo, k) else w, sid)
  }

  ghost function CopyStep(env: Env, w: World, step: Step): World
    requires Shape(env, w) && Enabled(env, w, step)
    requires step.Compare? || step.CopyChunk? || step.PublishCopy?
  {
    var s := w.sessions[step.sid];
    var objects := w.repos[s.repo];
    match step
    case Compare(sid) =>
      var next, rest := s.pc.work.rest[0], s.pc.work.rest[1..];
      (match ReadManifest(s.handle, objects, next.manifest.id)
       case Ok(existing) => if existing == next.manifest then WorkOn(w, sid, Comparing(rest)) else Finish(w, sid)
       case Err(NotFound) => WorkOn(w, sid, Copying(next, rest))
       case Err(_) => Finish(w, sid))
    case CopyChunk(sid, id) =>
      if !s.purpose.Replicate? then Finish(w, sid) else (
        match ReadChunk(s.sourceHandle, w.repos[s.purpose.source], id)
        case Err(_) => Finish(w, sid)
        case Ok(data) => AddTask(w, sid, data))
    case PublishCopy(sid) =>
      PublishManifest(w, sid, s.pc.work.copy.manifest, s.pc.work.copy.origin, Comparing(s.pc.work.rest))
  }

  ghost function RotateStep(env: Env, w: World, step: Step): World
    requires Shape(env, w) && Enabled(env, w, step)
    requires step.FetchVersion? || step.Swap?
  {
    var s := w.sessions[step.sid];
    var objects := w.repos[s.repo];
    match step
    case FetchVersion(sid) =>
      if ConfigKey in objects then WorkOn(w, sid, Swapping(objects[ConfigKey].version)) else Finish(w, sid)
    case Swap(sid, salt) =>
      if && ConfigKey in objects && objects[ConfigKey].version == s.pc.work.seen
         && s.config.encryption.Some? && s.handle.key.Some?
      then
        var config := Keys.Rewrap(s.config, s.handle.key.value, s.purpose.passphrase, salt, w.clock);
        Finish(Put(w, s.repo, ConfigKey, ConfigContent(config)), sid)
      else Finish(w, sid)
  }

  ghost function Apply(env: Env, w: World, step: Step): World
    requires Shape(env, w) && Enabled(env, w, step)
  {
    match step
    case Begin(_, _, _, _, _, _) => BeginStep(env, w, step)
    case TryLock(_) => LockStep(env, w, step)
    case Inspect(_, _) => LockStep(env, w, step)
    case Evict(_) => LockStep(env, w, step)
    case Release(_) => LockStep(env, w, step)
    case Spawn(_, _) => TaskStep(env, w, step)
    case Advance(_, _) => TaskStep(env, w, step)
    case Publish(sid, m, origin) => PublishManifest(w, sid, m, origin, BackingUp)
    case ListManifests(_) => CollectStep(env, w, step)
    case ReadNext(_, _) => CollectStep(env, w, step)
    case ListChunks(_) => CollectStep(env, w, step)
    case SweepNext(_, _) => CollectStep(env, w, step)
    case Resolve(_, _) => DeleteStep(env, w, step)
    case Unpublish(_) => DeleteStep(env, w, step)
    case Compare(_) => CopyStep(env, w, step)
    case CopyChunk(_, _) => CopyStep(env, w, step)
    case PublishCopy(_) => CopyStep(env, w, step)
    case FetchVersion(_) => RotateStep(env, w, step)
    case Swap(_, _) => RotateStep(env, w, step)
    case Leave(sid) => Finish(w, sid)
    case Crash(sid) => Move(w, sid, Crashed)
  }

  /* ---- runs ---- */

  ghost predicate ConfigFits(spec: RepoSpec, config: RepositoryConfig) {
    Keys.Guards(config.encryption, spec.key) && CompressionOf(config.compression) == spec.compression
  }

  /** Every repository has just been initialized. */
  ghost predicate Initial(env: Env, w: World) {
    && |w.repos| == |env.repos| && w.sessions == map[] && w.origins == map[] && w.occurred == {}
    && forall r :: 0 <= r < |w.repos| ==>
         && w.repos[r].Keys == {ConfigKey}
         && w.repos[r][ConfigKey].version < w.clock
         && w.repos[r][ConfigKey].content.ConfigContent?
         && ConfigFits(env.repos[r], w.repos[r][ConfigKey].content.config)
  }

  ghost predicate IsRun(env: Env, ws: seq<World>, steps: seq<Step>) {
    && |ws| == |steps| + 1
    && Initial(env, ws[0])
    && forall i :: 0 <= i < |steps| ==>
         Shape(env, ws[i]) && Enabled(env, ws[i], steps[i]) && ws[i + 1] == Apply(env, ws[i], steps[i])
  }
}
