/** What every step of the protocol keeps, with no assumption about stale locks:
    stored chunks hash to their names, published manifests describe what they
    were taken of, and no two commands ever hold the same lock version. */
module Invariants {
  import opened Chunker
  import opened ChunkProperties
  import opened Model
  import opened Protocol
  import Keys

  /* ---- objects ---- */

  /** A manifest entry describes the file it was taken of. */
  ghost predicate EntryOk(p: Primitives, occurred: set<Bytes>, e: FileEntry, origin: Origin) {
    if e.kind.File? then
      && e.path in origin
      && Concat(origin[e.path].pieces) == origin[e.path].content
      && e.chunks == Refs(p, origin[e.path].pieces)
      && e.size == |origin[e.path].content|
      && forall d :: d in origin[e.path].pieces ==> d in occurred
    else e.chunks == []
  }

  ghost predicate CopyOk(p: Primitives, occurred: set<Bytes>, c: Copy) {
    && ValidManifest(c.manifest) && PlainId(c.manifest.id)
    && forall e :: e in c.manifest.files ==> EntryOk(p, occurred, e, c.origin)
  }

  ghost predicate ChunkOk(h: Handle, occurred: set<Bytes>, k: ObjKey, c: Content)
    requires k.ChunkKey?
  {
    && ValidChunkId(k.base) && k == ChunkKeyOf(k.base)
    && ChunkPlain(h, k.base, c).Some?
    && ChunkPlain(h, k.base, c).value in occurred
  }

  ghost predicate SnapshotOk(h: Handle, occurred: set<Bytes>, origins: map<(nat, string), Origin>, r: nat, k: ObjKey,
      c: Content)
    requires k.ManifestKey?
  {
    && k == ManifestKeyOf(h, k.id)
    && (r, k.id) in origins
    && ManifestPlain(h, k.id, c).Some?
    && CopyOk(h.prims, occurred, Copy(ManifestPlain(h, k.id, c).value, origins[(r, k.id)]))
  }

  ghost predicate ObjectOk(env: Env, occurred: set<Bytes>, origins: map<(nat, string), Origin>, clock: nat, r: nat,
      k: ObjKey, o: Object)
    requires r < |env.repos|
  {
    && o.version < clock
    && match k
       case ConfigKey => o.content.ConfigContent? && ConfigFits(env.repos[r], o.content.config)
       case LockKey => true
       case ChunkKey(_, _) => ChunkOk(HandleOf(env, r), occurred, k, o.content)
       case ManifestKey(_, _) => SnapshotOk(HandleOf(env, r), occurred, origins, r, k, o.content)
       case OtherKey(_) => false
  }

  ghost predicate RepoOk(env: Env, w: World, r: nat)
    requires r < |env.repos| && r < |w.repos|
  {
    && ConfigKey in w.repos[r]
    && forall k :: k in w.repos[r] ==> ObjectOk(env, w.occurred, w.origins, w.clock, r, k, w.repos[r][k])
  }

  /* ---- commands ---- */

  function LockVersion(pc: Pc): Option<nat> {
    match pc
    case Holding(v, _) => Some(v)
    case Releasing(v) => Some(v)
    case _ => None
  }

  /** The manifests a replication still has in hand. */
  function Copies(pc: Pc): seq<Copy> {
    match pc
    case Holding(_, SourceReading(_, got)) => got
    case Holding(_, Comparing(rest)) => rest
    case Holding(_, Copying(c, rest)) => [c] + rest
    case _ => []
  }

  ghost predicate SessionOk(env: Env, occurred: set<Bytes>, clock: nat, s: Session) {
    && s.repo < |env.repos|
    && (s.purpose.Replicate? ==> s.purpose.source < |env.repos|)
    && s.handle == HandleOf(env, s.repo)
    && s.sourceHandle == HandleOf(env, if s.purpose.Replicate? then s.purpose.source else s.repo)
    && ConfigFits(env.repos[s.repo], s.config)
    && (forall i :: 0 <= i < |s.tasks| ==> s.tasks[i].data in occurred)
    && (LockVersion(s.pc).Some? ==> LockVersion(s.pc).value < clock)
    && (forall c :: c in Copies(s.pc) ==> CopyOk(env.prims, occurred, c))
  }

  /** No two commands hold the same lock version. */
  ghost predicate Distinct(w: World) {
    forall a, b :: a in w.sessions && b in w.sessions && a != b && LockVersion(w.sessions[a].pc).Some? ==>
      LockVersion(w.sessions[a].pc) != LockVersion(w.sessions[b].pc)
  }

  ghost predicate Base(env: Env, w: World) {
    && |w.repos| == |env.repos|
    && (forall r :: 0 <= r < |w.repos| ==> RepoOk(env, w, r))
    && (forall sid :: sid in w.sessions ==> SessionOk(env, w.occurred, w.clock, w.sessions[sid]))
    && Distinct(w)
  }

  lemma BaseShape(env: Env, w: World)
    requires Base(env, w)
    ensures Shape(env, w)
  {
    forall sid | sid in w.sessions
      ensures w.sessions[sid].repo < |w.repos|
      ensures w.sessions[sid].purpose.Replicate? ==> w.sessions[sid].purpose.source < |w.repos|
    {
      assert SessionOk(env, w.occurred, w.clock, w.sessions[sid]);
    }
  }

  lemma InitialBase(env: Env, w: World)
    requires Initial(env, w)
    ensures Base(env, w)
  {}

  /* ---- growth ---- */

  lemma ObjectGrows(env: Env, w: World, w': World, r: nat, k: ObjKey, o: Object)
    requires r < |env.repos| && w.occurred <= w'.occurred && w.clock <= w'.clock
    requires k.ManifestKey? && (r, k.id) in w.origins ==>
               (r, k.id) in w'.origins && w'.origins[(r, k.id)] == w.origins[(r, k.id)]
    requires ObjectOk(env, w.occurred, w.origins, w.clock, r, k, o)
    ensures ObjectOk(env, w'.occurred, w'.origins, w'.clock, r, k, o)
  {
    hide ChunkPlain, ManifestPlain, ValidManifest, Keys.Guards, CompressionOf, Concat, Refs, ValidChunkId;
    if k.ManifestKey? {
      var c := Copy(ManifestPlain(HandleOf(env, r), k.id, o.content).value, w.origins[(r, k.id)]);
      CopyGrows(env.prims, w.occurred, w'.occurred, c);
    }
  }

  lemma CopyGrows(p: Primitives, occurred: set<Bytes>, occurred': set<Bytes>, c: Copy)
    requires occurred <= occurred' && CopyOk(p, occurred, c)
    ensures CopyOk(p, occurred', c)
  {
    hide ValidManifest, Concat, Refs;
    forall e | e in c.manifest.files
      ensures EntryOk(p, occurred', e, c.origin)
    {
      assert EntryOk(p, occurred, e, c.origin);
    }
  }

  lemma SessionGrows(env: Env, w: World, w': World, s: Session)
    requires w.occurred <= w'.occurred && w.clock <= w'.clock && SessionOk(env, w.occurred, w.clock, s)
    ensures SessionOk(env, w'.occurred, w'.clock, s)
  {
    hide Copies, CopyOk, ConfigFits;
    forall c | c in Copies(s.pc)
      ensures CopyOk(env.prims, w'.occurred, c)
    {
      CopyGrows(env.prims, w.occurred, w'.occurred, c);
    }
  }

  /** A step changes one command and at most one object; the rest is carried over. */
  lemma Carry(env: Env, w: World, w': World, sid: nat, r: nat)
    requires Base(env, w) && r < |w.repos| == |w'.repos|
    requires w'.repos == w.repos[r := w'.repos[r]] && w.occurred <= w'.occurred && w.clock <= w'.clock
    requires RepoOk(env, w', r)
    requires forall q: nat, id :: q != r && (q, id) in w.origins ==>
               (q, id) in w'.origins && w'.origins[(q, id)] == w.origins[(q, id)]
    requires sid in w'.sessions && w'.sessions == w.sessions[sid := w'.sessions[sid]]
    requires SessionOk(env, w'.occurred, w'.clock, w'.sessions[sid])
    requires LockVersion(w'.sessions[sid].pc).Some? ==>
               || LockVersion(w'.sessions[sid].pc).value >= w.clock
               || (sid in w.sessions && LockVersion(w.sessions[sid].pc) == LockVersion(w'.sessions[sid].pc))
    ensures Base(env, w')
  {
    hide ObjectOk, SessionOk, LockVersion;
    forall q | 0 <= q < |w'.repos|
      ensures RepoOk(env, w', q)
    {
      if q != r {
        assert RepoOk(env, w, q) && w'.repos[q] == w.repos[q];
        forall k | k in w'.repos[q]
          ensures ObjectOk(env, w'.occurred, w'.origins, w'.clock, q, k, w'.repos[q][k])
        {
          ObjectGrows(env, w, w', q, k, w.repos[q][k]);
        }
      }
    }
    forall a | a in w'.sessions
      ensures SessionOk(env, w'.occurred, w'.clock, w'.sessions[a])
    {
      if a != sid {
        SessionGrows(env, w, w', w.sessions[a]);
      }
    }
    CarryDistinct(env, w, w', sid);
  }

  lemma CarryDistinct(env: Env, w: World, w': World, sid: nat)
    requires Base(env, w)
    requires sid in w'.sessions && w'.sessions == w.sessions[sid := w'.sessions[sid]]
    requires LockVersion(w'.sessions[sid].pc).Some? ==>
               || LockVersion(w'.sessions[sid].pc).value >= w.clock
               || (sid in w.sessions && LockVersion(w.sessions[sid].pc) == LockVersion(w'.sessions[sid].pc))
    ensures Distinct(w')
  {
    hide LockVersion, ObjectOk, ConfigFits, CopyOk;
    forall a, b | a in w'.sessions && b in w'.sessions && a != b && LockVersion(w'.sessions[a].pc).Some?
      ensures LockVersion(w'.sessions[a].pc) != LockVersion(w'.sessions[b].pc)
    {
      if a != sid {
        assert SessionOk(env, w.occurred, w.clock, w.sessions[a]);
      }
      if b != sid {
        assert SessionOk(env, w.occurred, w.clock, w.sessions[b]);
      }
    }
  }

  /** Objects that stay where they are stay sound. */
  lemma RepoShrinks(env: Env, w: World, w': World, r: nat)
    requires Base(env, w) && r < |w.repos| == |w'.repos|
    requires ConfigKey in w'.repos[r] && forall k :: k in w'.repos[r] ==>
               k in w.repos[r] && w'.repos[r][k] == w.repos[r][k]
    requires w.occurred <= w'.occurred && w.clock <= w'.clock && w.origins == w'.origins
    ensures RepoOk(env, w', r)
  {
    hide ObjectOk;
    assert RepoOk(env, w, r);
    forall k | k in w'.repos[r]
      ensures ObjectOk(env, w'.occurred, w'.origins, w'.clock, r, k, w'.repos[r][k])
    {
      ObjectGrows(env, w, w', r, k, w.repos[r][k]);
    }
  }

  /** One new or replaced object that is sound leaves the repository sound. */
  lemma RepoGains(env: Env, w: World, w': World, r: nat, k: ObjKey, o: Object)
    requires Base(env, w) && r < |w.repos| == |w'.repos| && w'.repos[r] == w.repos[r][k := o]
    requires w.occurred <= w'.occurred && w.clock <= w'.clock
    requires forall id :: (r, id) in w.origins && !(k.ManifestKey? && k.id == id) ==>
               (r, id) in w'.origins && w'.origins[(r, id)] == w.origins[(r, id)]
    requires ObjectOk(env, w'.occurred, w'.origins, w'.clock, r, k, o)
    ensures RepoOk(env, w', r)
  {
    hide ObjectOk;
    assert RepoOk(env, w, r);
    forall j | j in w'.repos[r]
      ensures ObjectOk(env, w'.occurred, w'.origins, w'.clock, r, j, w'.repos[r][j])
    {
      if j != k {
        if j.ManifestKey? && k.ManifestKey? && j.id == k.id {
          OneKeyPerSnapshot(env, w, w', r, j, k, w.repos[r][j], o);
        }
        ObjectGrows(env, w, w', r, j, w.repos[r][j]);
      }
    }
  }

  lemma OneKeyPerSnapshot(env: Env, w: World, w': World, r: nat, j: ObjKey, k: ObjKey, a: Object, b: Object)
    requires r < |env.repos| && j.ManifestKey? && k.ManifestKey? && j.id == k.id
    requires ObjectOk(env, w.occurred, w.origins, w.clock, r, j, a)
    requires ObjectOk(env, w'.occurred, w'.origins, w'.clock, r, k, b)
    ensures j == k
  {
    hide ManifestPlain, CopyOk;
  }

  /* ---- what the writers write ---- */

  lemma OpeningYieldsTheKey(env: Env, w: World, r: nat, passphrase: string)
    requires Base(env, w) && r < |w.repos| && OpenRepository(env, w.repos[r], passphrase).Some?
    ensures OpenRepository(env, w.repos[r], passphrase).value == HandleOf(env, r)
    ensures ConfigFits(env.repos[r], w.repos[r][ConfigKey].content.config)
  {
    assert RepoOk(env, w, r);
    assert ObjectOk(env, w.occurred, w.origins, w.clock, r, ConfigKey, w.repos[r][ConfigKey]);
  }

  lemma NewChunkOk(env: Env, occurred: set<Bytes>, origins: map<(nat, string), Origin>, clock: nat, r: nat, data: Bytes)
    requires r < |env.repos| && data in occurred
    ensures var h := HandleOf(env, r);
            ObjectOk(env, occurred, origins, clock + 1, r, ChunkKeyOf(h.prims.hash(data)),
                     Object(StoredChunk(h, clock, data), clock))
  {
    StoredChunkReads(HandleOf(env, r), clock, data);
    hide ChunkPlain, StoredChunk;
  }

  lemma NewManifestOk(env: Env, occurred: set<Bytes>, origins: map<(nat, string), Origin>, clock: nat, r: nat, c: Copy)
    requires r < |env.repos| && CopyOk(env.prims, occurred, c)
    requires (r, c.manifest.id) in origins && origins[(r, c.manifest.id)] == c.origin
    ensures var h := HandleOf(env, r);
            ObjectOk(env, occurred, origins, clock + 1, r, ManifestKeyOf(h, c.manifest.id),
                     Object(StoredManifest(h, clock, c.manifest), clock))
  {
    hide CopyOk, ValidManifest;
    CopyIsValid(env.prims, occurred, c);
  }

  lemma CopyIsValid(p: Primitives, occurred: set<Bytes>, c: Copy)
    requires CopyOk(p, occurred, c)
    ensures ValidManifest(c.manifest) && PlainId(c.manifest.id)
  {}

  /** What a backup publishes describes the files it was taken of. */
  lemma BackupIsCopyOk(env: Env, occurred: set<Bytes>, clock: nat, s: Session, m: Manifest, origin: Origin)
    requires SessionOk(env, occurred, clock, s) && IsBackup(env, s, m, origin)
    ensures CopyOk(env.prims, occurred, Copy(m, origin))
  {
    forall e | e in m.files
      ensures EntryOk(env.prims, occurred, e, origin)
    {
      if e.kind.File? {
        BackupEntryOk(env, occurred, clock, s, m, origin, e);
      }
    }
  }

  lemma BackupEntryOk(env: Env, occurred: set<Bytes>, clock: nat, s: Session, m: Manifest, origin: Origin, e: FileEntry)
    requires SessionOk(env, occurred, clock, s) && IsBackup(env, s, m, origin) && e in m.files && e.kind.File?
    ensures EntryOk(env.prims, occurred, e, origin)
  {
    hide ValidManifest, Refs, Copies, CopyOk, ConfigFits;
    var f := origin[e.path];
    assert IsSplit(env, f);
    SplitConcat(env, f);
    forall d | d in f.pieces
      ensures d in occurred
    {
      assert d in DoneData(s);
    }
  }

  lemma SplitConcat(env: Env, f: Source)
    requires IsSplit(env, f)
    ensures Concat(f.pieces) == f.content
  {
    hide Config.Accepted, Pieces;
    var c: Config :| c.Accepted() && f.pieces == Chunks(c, env.table, f.content);
    PiecesShape(c, env.table, f.content, 0);
    assert f.content[0..] == f.content;
  }

  /* ---- one step ---- */

  lemma RepoIndex(env: Env, w: World, sid: nat)
    requires Base(env, w) && sid in w.sessions
    ensures w.sessions[sid].repo < |w.repos| == |env.repos| && RepoOk(env, w, w.sessions[sid].repo)
    ensures w.sessions[sid].handle == HandleOf(env, w.sessions[sid].repo)
    ensures SessionOk(env, w.occurred, w.clock, w.sessions[sid])
    ensures forall c :: c in Copies(w.sessions[sid].pc) ==> CopyOk(env.prims, w.occurred, c)
  {
    hide ObjectOk, CopyOk, ConfigFits;
    assert SessionOk(env, w.occurred, w.clock, w.sessions[sid]);
  }

  /** `pc` claims no lock version that `s` did not have and no other manifests. */
  ghost predicate Follows(env: Env, w: World, s: Session, pc: Pc) {
    && (LockVersion(pc).Some? ==> LockVersion(pc) == LockVersion(s.pc))
    && forall c :: c in Copies(pc) ==> CopyOk(env.prims, w.occurred, c)
  }

  /** A step that moves one command and touches no object. */
  lemma MoveKeeps(env: Env, w: World, sid: nat, pc: Pc)
    requires Base(env, w) && sid in w.sessions && Follows(env, w, w.sessions[sid], pc)
    ensures Base(env, Move(w, sid, pc))
  {
    hide ObjectOk, CopyOk, ConfigFits, LockVersion, Copies;
    var w', r := Move(w, sid, pc), w.sessions[sid].repo;
    RepoIndex(env, w, sid);
    RepoShrinks(env, w, w', r);
    Carry(env, w, w', sid, r);
  }

  /** A step that also removes an object other than the configuration. */
  lemma RemoveKeeps(env: Env, w: World, sid: nat, k: ObjKey, pc: Pc)
    requires Base(env, w) && sid in w.sessions && Follows(env, w, w.sessions[sid], pc)
    requires k != ConfigKey && w.sessions[sid].repo < |w.repos|
    ensures Base(env, Move(Remove(w, w.sessions[sid].repo, k), sid, pc))
  {
    hide ObjectOk, CopyOk, ConfigFits, LockVersion, Copies;
    var r := w.sessions[sid].repo;
    var w' := Move(Remove(w, r, k), sid, pc);
    RepoIndex(env, w, sid);
    RepoShrinks(env, w, w', r);
    Carry(env, w, w', sid, r);
  }

  /** A step that writes one sound object; `pc` may claim the new version. */
  lemma PutKeeps(env: Env, w: World, sid: nat, k: ObjKey, c: Content, origins: map<(nat, string), Origin>, s': Session)
    requires Base(env, w) && sid in w.sessions && w.sessions[sid].repo < |w.repos| == |env.repos|
    requires ObjectOk(env, w.occurred, origins, w.clock + 1, w.sessions[sid].repo, k, Object(c, w.clock))
    requires origins == w.origins
               || (k.ManifestKey?
                   && origins == w.origins[(w.sessions[sid].repo, k.id) := origins[(w.sessions[sid].repo, k.id)]])
    requires SessionOk(env, w.occurred, w.clock + 1, s')
    requires LockVersion(s'.pc).Some? ==>
               LockVersion(s'.pc).value == w.clock || LockVersion(s'.pc) == LockVersion(w.sessions[sid].pc)
    ensures Base(env, Put(w, w.sessions[sid].repo, k, c).(origins := origins, sessions := w.sessions[sid := s']))
  {
    hide ObjectOk, SessionOk, LockVersion;
    var r := w.sessions[sid].repo;
    var w' := Put(w, r, k, c).(origins := origins, sessions := w.sessions[sid := s']);
    RepoGains(env, w, w', r, k, Object(c, w.clock));
    Carry(env, w, w', sid, r);
  }

  /** A step that changes one command's tasks and touches no object. */
  lemma TasksKeep(env: Env, w: World, sid: nat, tasks: seq<Task>, occurred: set<Bytes>)
    requires Base(env, w) && sid in w.sessions && w.occurred <= occurred
    requires forall i :: 0 <= i < |tasks| ==> tasks[i].data in occurred
    ensures Base(env, w.(sessions := w.sessions[sid := w.sessions[sid].(tasks := tasks)], occurred := occurred))
  {
    hide ObjectOk, CopyOk, ConfigFits, LockVersion, Copies;
    var w' := w.(sessions := w.sessions[sid := w.sessions[sid].(tasks := tasks)], occurred := occurred);
    var r := w.sessions[sid].repo;
    RepoIndex(env, w, sid);
    SessionGrows(env, w, w', w.sessions[sid]);
    RepoShrinks(env, w, w', r);
    Carry(env, w, w', sid, r);
  }

  lemma BeginKeeps(env: Env, w: World, step: Step)
    requires Base(env, w) && Shape(env, w) && Enabled(env, w, step) && step.Begin?
    ensures Base(env, Apply(env, w, step))
  {
    hide ObjectOk, OpenRepository, ConfigFits;
    var w' := Apply(env, w, step);
    OpeningYieldsTheKey(env, w, step.repo, step.passphrase);
    if step.purpose.Replicate? {
      OpeningYieldsTheKey(env, w, step.purpose.source, step.sourcePassphrase);
    }
    assert RepoOk(env, w, step.repo);
    RepoShrinks(env, w, w', step.repo);
    Carry(env, w, w', step.sid, step.repo);
  }

  lemma LockKeeps(env: Env, w: World, step: Step)
    requires Base(env, w) && Shape(env, w) && Enabled(env, w, step)
    requires step.TryLock? || step.Inspect? || step.Evict? || step.Release?
    ensures Base(env, Apply(env, w, step))
  {
    hide Base, RepoOk, ConfigFits, CopyOk, SnapshotOk, ChunkOk;
    var sid, s := step.sid, w.sessions[step.sid];
    var objects := w.repos[s.repo];
    RepoIndex(env, w, sid);
    match step
    case TryLock(_) =>
      if LockKey !in objects {
        PutKeeps(env, w, sid, LockKey, LockContent(LockInfo(sid, None)), w.origins,
                 s.(pc := Holding(w.clock, FirstWork(s.purpose))));
      } else if !s.mayEvict {
        MoveKeeps(env, w, sid, Ended);
      } else {
        MoveKeeps(env, w, sid, Inspecting(s.pc.attempt));
      }
    case Inspect(_, stale) =>
      if LockKey !in objects {
        MoveKeeps(env, w, sid, Retry(s.pc.attempt));
      } else if !stale {
        MoveKeeps(env, w, sid, Ended);
      } else {
        MoveKeeps(env, w, sid, Evicting(s.pc.attempt, objects[LockKey].version));
      }
    case Evict(_) =>
      if LockKey in objects && objects[LockKey].version == s.pc.target {
        RemoveKeeps(env, w, sid, LockKey, Retry(s.pc.attempt));
      } else {
        MoveKeeps(env, w, sid, Retry(s.pc.attempt));
      }
    case Release(_) =>
      if LockKey in objects && objects[LockKey].version == s.pc.version {
        RemoveKeeps(env, w, sid, LockKey, Ended);
      } else {
        MoveKeeps(env, w, sid, Ended);
      }
  }

  lemma TaskKeeps(env: Env, w: World, step: Step)
    requires Base(env, w) && Shape(env, w) && Enabled(env, w, step)
    requires step.Spawn? || step.Advance?
    ensures Base(env, Apply(env, w, step))
  {
    hide Base, RepoOk, ConfigFits, CopyOk, ObjectOk, ReadChunk, StoredChunk, LockVersion, Copies;
    var sid, s := step.sid, w.sessions[step.sid];
    RepoIndex(env, w, sid);
    match step
    case Spawn(_, data) =>
      TasksKeep(env, w, sid, s.tasks + [Task(data, Fetch)], w.occurred + {data});
    case Advance(_, i) =>
      var data := s.tasks[i].data;
      var k := ChunkKeyOf(env.prims.hash(data));
      var w' := Apply(env, w, step);
      if s.tasks[i].phase.Store? && k !in w.repos[s.repo] {
        NewChunkOk(env, w.occurred, w.origins, w.clock, s.repo, data);
        SessionGrows(env, w, w.(clock := w.clock + 1), s);
        PutKeeps(env, w, sid, k, StoredChunk(s.handle, w.clock, data), w.origins,
                 s.(tasks := s.tasks[i := Task(data, Stored)]));
      } else if w' != w {
        TasksKeep(env, w, sid, w'.sessions[sid].tasks, w.occurred);
      }
  }

  lemma PublishKeeps(env: Env, w: World, sid: nat, c: Copy, after: Work)
    requires Base(env, w) && HasWork(w, sid) && CopyOk(env.prims, w.occurred, c)
    requires Follows(env, w, w.sessions[sid], Holding(w.sessions[sid].pc.version, after))
    ensures Base(env, PublishManifest(w, sid, c.manifest, c.origin, after))
  {
    hide Base, RepoOk, ConfigFits, ObjectOk, CopyOk, StoredManifest;
    var s := w.sessions[sid];
    RepoIndex(env, w, sid);
    var k := ManifestKeyOf(s.handle, c.manifest.id);
    if k in w.repos[s.repo] {
      LeaveKeeps(env, w, sid);
    } else {
      var origins := w.origins[(s.repo, c.manifest.id) := c.origin];
      NewManifestOk(env, w.occurred, origins, w.clock, s.repo, c);
      PutKeeps(env, w, sid, k, StoredManifest(s.handle, w.clock, c.manifest), origins,
               s.(pc := Holding(s.pc.version, after)));
    }
  }

  lemma LeaveKeeps(env: Env, w: World, sid: nat)
    requires Base(env, w) && HasWork(w, sid)
    ensures Base(env, Finish(w, sid))
  {
    hide Base, CopyOk;
    MoveKeeps(env, w, sid, Releasing(w.sessions[sid].pc.version));
  }

  lemma WorkKeeps(env: Env, w: World, sid: nat, work: Work)
    requires Base(env, w) && HasWork(w, sid)
    requires forall c :: c in Copies(Holding(w.sessions[sid].pc.version, work)) ==> CopyOk(env.prims, w.occurred, c)
    ensures Base(env, WorkOn(w, sid, work))
  {
    hide Base, CopyOk;
    MoveKeeps(env, w, sid, Holding(w.sessions[sid].pc.version, work));
  }

  lemma CollectKeeps(env: Env, w: World, step: Step)
    requires Base(env, w) && Shape(env, w) && Enabled(env, w, step)
    requires step.ListManifests? || step.ListChunks? || step.SweepNext?
    ensures Base(env, Apply(env, w, step))
  {
    hide Base, CopyOk, PublishedIds;
    var sid, s := step.sid, w.sessions[step.sid];
    var w', objects := Apply(env, w, step), w.repos[s.repo];
    LeaveKeeps(env, w, sid);
    if w'.sessions[sid].pc.Holding? {
      WorkKeeps(env, w, sid, w'.sessions[sid].pc.work);
      if step.SweepNext? && w'.repos != w.repos {
        RemoveKeeps(env, w, sid, step.key, w'.sessions[sid].pc);
      }
    }
  }

  lemma ReadKeeps(env: Env, w: World, step: Step)
    requires Base(env, w) && Shape(env, w) && Enabled(env, w, step) && step.ReadNext?
    ensures Base(env, Apply(env, w, step))
  {
    hide Base, CopyOk, ReadManifest, ConfigFits;
    var sid, s := step.sid, w.sessions[step.sid];
    var w' := Apply(env, w, step);
    RepoIndex(env, w, sid);
    LeaveKeeps(env, w, sid);
    if w'.sessions[sid].pc.Holding? {
      if s.pc.work.SourceReading? {
        ReadIsCopyOk(env, w, s.purpose.source, step.id);
      }
      WorkKeeps(env, w, sid, w'.sessions[sid].pc.work);
    }
  }

  lemma ReadIsCopyOk(env: Env, w: World, r: nat, id: string)
    requires Base(env, w) && r < |w.repos| && ReadManifest(HandleOf(env, r), w.repos[r], id).Ok?
    ensures (r, id) in w.origins
    ensures CopyOk(env.prims, w.occurred,
                   Copy(ReadManifest(HandleOf(env, r), w.repos[r], id).value, w.origins[(r, id)]))
  {
    hide CopyOk, ManifestPlain, ChunkOk, ConfigFits;
    var k := ManifestKeyOf(HandleOf(env, r), id);
    assert RepoOk(env, w, r);
    assert ObjectOk(env, w.occurred, w.origins, w.clock, r, k, w.repos[r][k]);
  }

  lemma DeleteKeeps(env: Env, w: World, step: Step)
    requires Base(env, w) && Shape(env, w) && Enabled(env, w, step)
    requires step.Resolve? || step.Unpublish?
    ensures Base(env, Apply(env, w, step))
  {
    hide Base, CopyOk, ReadManifest;
    var sid, s := step.sid, w.sessions[step.sid];
    LeaveKeeps(env, w, sid);
    match step
    case Resolve(_, id) => WorkKeeps(env, w, sid, Unpublishing(id));
    case Unpublish(_) => RemoveKeeps(env, w, sid, ManifestKeyOf(s.handle, s.pc.work.id), Releasing(s.pc.version));
  }

  lemma CopyKeeps(env: Env, w: World, step: Step)
    requires Base(env, w) && Shape(env, w) && Enabled(env, w, step)
    requires step.Compare? || step.CopyChunk? || step.PublishCopy?
    ensures Base(env, Apply(env, w, step))
  {
    hide Base, Shape, Enabled, CopyStep;
    if step.Compare? {
      CompareKeeps(env, w, step);
    } else if step.CopyChunk? {
      CopyChunkKeeps(env, w, step);
    } else {
      PublishCopyKeeps(env, w, step);
    }
  }

  lemma CompareKeeps(env: Env, w: World, step: Step)
    requires Base(env, w) && Shape(env, w) && Enabled(env, w, step) && step.Compare?
    ensures Base(env, CopyStep(env, w, step))
  {
    hide Base, CopyOk, ReadManifest;
    var sid, w' := step.sid, CopyStep(env, w, step);
    RepoIndex(env, w, sid);
    LeaveKeeps(env, w, sid);
    if w'.sessions[sid].pc.Holding? {
      WorkKeeps(env, w, sid, w'.sessions[sid].pc.work);
    }
  }

  lemma CopyChunkKeeps(env: Env, w: World, step: Step)
    requires Base(env, w) && Shape(env, w) && Enabled(env, w, step) && step.CopyChunk?
    ensures Base(env, CopyStep(env, w, step))
  {
    hide Base, CopyOk, ReadChunk, RefIds;
    var sid, w' := step.sid, CopyStep(env, w, step);
    RepoIndex(env, w, sid);
    LeaveKeeps(env, w, sid);
    if w'.sessions[sid].pc.Holding? {
      TasksKeep(env, w, sid, w'.sessions[sid].tasks, w'.occurred);
    }
  }

  lemma PublishCopyKeeps(env: Env, w: World, step: Step)
    requires Base(env, w) && Shape(env, w) && Enabled(env, w, step) && step.PublishCopy?
    ensures Base(env, CopyStep(env, w, step))
  {
    hide Base, CopyOk, RefIds, PublishManifest;
    var s := w.sessions[step.sid];
    RepoIndex(env, w, step.sid);
    assert s.pc.work.copy in Copies(s.pc);
    PublishKeeps(env, w, step.sid, s.pc.work.copy, Comparing(s.pc.work.rest));
  }

  lemma RotateKeeps(env: Env, w: World, step: Step)
    requires Base(env, w) && Shape(env, w) && Enabled(env, w, step)
    requires step.FetchVersion? || step.Swap?
    ensures Base(env, Apply(env, w, step))
  {
    hide Base, CopyOk, RepoOk, Copies;
    var sid, s := step.sid, w.sessions[step.sid];
    var w', objects := Apply(env, w, step), w.repos[s.repo];
    RepoIndex(env, w, sid);
    LeaveKeeps(env, w, sid);
    match step
    case FetchVersion(_) =>
      if w'.sessions[sid].pc.Holding? {
        RewrapKeeps(env, w, sid, objects[ConfigKey].version);
      }
    case Swap(_, salt) =>
      if w'.clock > w.clock {
        var updated := Keys.Rewrap(s.config, s.handle.key.value, s.purpose.passphrase, salt, w.clock);
        SwapKeeps(env, w, sid, updated);
      }
  }

  lemma RewrapKeeps(env: Env, w: World, sid: nat, version: nat)
    requires Base(env, w) && HasWork(w, sid)
    ensures Base(env, WorkOn(w, sid, Swapping(version)))
  {
    hide Base, CopyOk;
    WorkKeeps(env, w, sid, Swapping(version));
  }

  lemma SwapKeeps(env: Env, w: World, sid: nat, updated: RepositoryConfig)
    requires Base(env, w) && HasWork(w, sid) && w.sessions[sid].repo < |env.repos|
    requires ConfigFits(env.repos[w.sessions[sid].repo], updated)
    ensures Base(env, Finish(Put(w, w.sessions[sid].repo, ConfigKey, ConfigContent(updated)), sid))
  {
    hide Base, CopyOk, RepoOk, ConfigFits;
    var s := w.sessions[sid];
    RepoIndex(env, w, sid);
    PutKeeps(env, w, sid, ConfigKey, ConfigContent(updated), w.origins, s.(pc := Releasing(s.pc.version)));
  }

  /** Every step of every command keeps the base invariant. */
  lemma StepKeepsBase(env: Env, w: World, step: Step)
    requires Base(env, w) && Shape(env, w) && Enabled(env, w, step)
    ensures Base(env, Apply(env, w, step))
  {
    hide Base, IsBackup, CopyOk, SessionOk, LockStep, TaskStep, CollectStep, DeleteStep, CopyStep, RotateStep,
      PublishManifest;
    match step
    case Begin(_, _, _, _, _, _) => BeginKeeps(env, w, step);
    case TryLock(_) => LockKeeps(env, w, step);
    case Inspect(_, _) => LockKeeps(env, w, step);
    case Evict(_) => LockKeeps(env, w, step);
    case Release(_) => LockKeeps(env, w, step);
    case Spawn(_, _) => TaskKeeps(env, w, step);
    case Advance(_, _) => TaskKeeps(env, w, step);
    case Publish(sid, m, origin) =>
      RepoIndex(env, w, sid);
      BackupIsCopyOk(env, w.occurred, w.clock, w.sessions[sid], m, origin);
      PublishKeeps(env, w, sid, Copy(m, origin), BackingUp);
    case ListManifests(_) => CollectKeeps(env, w, step);
    case ReadNext(_, _) => ReadKeeps(env, w, step);
    case ListChunks(_) => CollectKeeps(env, w, step);
    case SweepNext(_, _) => CollectKeeps(env, w, step);
    case Resolve(_, _) => DeleteKeeps(env, w, step);
    case Unpublish(_) => DeleteKeeps(env, w, step);
    case Compare(_) => CopyKeeps(env, w, step);
    case CopyChunk(_, _) => CopyKeeps(env, w, step);
    case PublishCopy(_) => CopyKeeps(env, w, step);
    case FetchVersion(_) => RotateKeeps(env, w, step);
    case Swap(_, _) => RotateKeeps(env, w, step);
    case Leave(sid) => LeaveKeeps(env, w, sid);
    case Crash(sid) => CrashKeeps(env, w, sid);
  }

  lemma CrashKeeps(env: Env, w: World, sid: nat)
    requires Base(env, w) && sid in w.sessions
    ensures Base(env, Move(w, sid, Crashed))
  {
    hide Base, CopyOk;
    MoveKeeps(env, w, sid, Crashed);
  }

  /** The base invariant holds in every state of every run, however stale locks
      are treated. */
  lemma {:induction false} RunKeepsBase(env: Env, ws: seq<World>, steps: seq<Step>, n: nat)
    requires IsRun(env, ws, steps) && n < |ws|
    ensures Base(env, ws[n])
  {
    if n == 0 {
      InitialBase(env, ws[0]);
    } else {
      RunKeepsBase(env, ws, steps, n - 1);
      StepKeepsBase(env, ws[n - 1], steps[n - 1]);
    }
  }
}
