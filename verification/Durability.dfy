/** Durability over whole runs, assuming only that a stale recovery never takes
    the lock from a live writer: every chunk a published snapshot refers to is
    stored, is intact and has the recorded size, and every backed-up file can be
    restored byte for byte. */
module Durability {
  import opened Chunker
  import opened ChunkProperties
  import opened Model
  import opened Protocol
  import opened Invariants
  import opened Locks
  import Keys
  import Published
  import Repository
  import Nesting

  /** The one hypothesis: an eviction does not remove the version of a command
      that is still at work under it. */
  ghost predicate Respects(w: World, step: Step) {
    step.Evict? ==> forall b :: b in w.sessions && w.sessions[b].pc.Holding? ==>
                      !(Hits(w, step) && w.sessions[step.sid].repo == w.sessions[b].repo
                        && w.sessions[step.sid].pc.target == w.sessions[b].pc.version)
  }

  ghost predicate IsRespectfulRun(env: Env, ws: seq<World>, steps: seq<Step>) {
    IsRun(env, ws, steps) && forall i :: 0 <= i < |steps| ==> Respects(ws[i], steps[i])
  }

  /* ---- the invariant ---- */

  ghost predicate HasChunk(objects: Objects, id: string) {
    ValidChunkId(id) && ChunkKeyOf(id) in objects
  }

  /** The chunk IDs the manifest object under k refers to. */
  ghost function Marks(h: Handle, k: ObjKey, o: Object): set<string>
    requires k.ManifestKey?
  {
    match ManifestPlain(h, k.id, o.content)
    case None => {}
    case Some(m) => RefIds(m)
  }

  /** Every chunk a published manifest refers to is stored. */
  ghost predicate Complete(h: Handle, objects: Objects) {
    forall k :: k in objects && k.ManifestKey? ==> forall id :: id in Marks(h, k, objects[k]) ==> HasChunk(objects, id)
  }

  /** What the lock holder has established so far. */
  ghost predicate WorkSafe(h: Handle, objects: Objects, s: Session)
    requires s.pc.Holding?
  {
    && (forall i :: 0 <= i < |s.tasks| && s.tasks[i].phase.Stored? ==>
        ChunkKeyOf(h.prims.hash(s.tasks[i].data)) in objects)
    && (s.pc.work.Collecting? || s.pc.work.Marking? || s.pc.work.Sweeping? ==> s.purpose.Collect? && s.tasks == [])
    && match s.pc.work
       case Marking(todo, live) => forall k :: k in objects && k.ManifestKey? ==>
         k.id in todo || Marks(h, k, objects[k]) <= live
       case Sweeping(live, _) => forall k :: k in objects && k.ManifestKey? ==> Marks(h, k, objects[k]) <= live
       case _ => true
  }

  predicate BeforeLock(pc: Pc) {
    pc.Acquiring? || pc.Inspecting? || pc.Evicting?
  }

  ghost predicate SessionSafe(env: Env, w: World, sid: nat)
    requires sid in w.sessions && w.sessions[sid].repo < |w.repos| == |env.repos|
  {
    var s := w.sessions[sid];
    && (BeforeLock(s.pc) ==> s.tasks == [])
    && (s.pc.Holding? ==> Current(w, s.repo, sid) && WorkSafe(HandleOf(env, s.repo), w.repos[s.repo], s))
  }

  ghost predicate Safe(env: Env, w: World) {
    && Base(env, w) && Shape(env, w)
    && (forall r :: 0 <= r < |w.repos| ==> Complete(HandleOf(env, r), w.repos[r]))
    && (forall sid :: sid in w.sessions ==> SessionSafe(env, w, sid))
  }

  lemma InitialSafe(env: Env, w: World)
    requires Initial(env, w)
    ensures Safe(env, w)
  {}

  /* ---- interference ---- */

  /** A change the holder of the lock does not mind: chunk objects may appear,
      nothing else changes except the lock and the configuration. */
  ghost predicate Calm(objects: Objects, objects': Objects) {
    && (forall k :: k in objects && k.ChunkKey? ==> k in objects')
    && (forall k: ObjKey :: k.ManifestKey? ==> (k in objects <==> k in objects'))
    && (forall k :: k in objects && k.ManifestKey? ==> objects'[k] == objects[k])
  }

  lemma CalmKeepsWork(h: Handle, objects: Objects, objects': Objects, s: Session)
    requires s.pc.Holding? && WorkSafe(h, objects, s) && Calm(objects, objects')
    ensures WorkSafe(h, objects', s)
  {
    hide Marks, ValidChunkId;
  }

  lemma CalmKeepsComplete(h: Handle, objects: Objects, objects': Objects)
    requires Complete(h, objects) && Calm(objects, objects')
    ensures Complete(h, objects')
  {
    hide Marks, ValidChunkId;
    forall k, id | k in objects' && k.ManifestKey? && id in Marks(h, k, objects'[k])
      ensures HasChunk(objects', id)
    {
      assert HasChunk(objects, id);
    }
  }

  /** Two commands never work under the same repository's lock. */
  lemma OneWorker(env: Env, w: World, a: nat, b: nat)
    requires Safe(env, w) && a in w.sessions && b in w.sessions
    requires w.sessions[a].pc.Holding? && w.sessions[b].pc.Holding? && w.sessions[a].repo == w.sessions[b].repo
    ensures a == b
  {
    hide RepoOk, SessionOk, WorkSafe, Complete;
    assert SessionSafe(env, w, a) && SessionSafe(env, w, b);
  }

  /** The steps that change more than chunks, locks and configurations. */
  predicate Removes(step: Step) {
    step.SweepNext? || step.Unpublish? || step.Publish? || step.PublishCopy?
  }

  lemma MostStepsAreCalm(env: Env, w: World, step: Step, r: nat)
    requires Shape(env, w) && Enabled(env, w, step) && r < |w.repos|
    requires !Removes(step) || (step.sid in w.sessions && w.sessions[step.sid].repo != r)
    ensures |Apply(env, w, step).repos| == |w.repos| && Calm(w.repos[r], Apply(env, w, step).repos[r])
  {
    hide Enabled, Shape, BeginStep, LockStep, TaskStep, CollectStep, DeleteStep, CopyStep, RotateStep, PublishManifest,
      Calm;
    if step.Begin? || step.Leave? || step.Crash? {
      CalmSelf(w.repos[r]);
      BeginTouchesNothing(env, w, step);
    } else if IsLockStep(step) {
      LockIsCalm(env, w, step, r);
    } else if step.Spawn? || step.Advance? {
      TaskIsCalm(env, w, step, r);
    } else if step.ListManifests? || step.ReadNext? || step.ListChunks? || step.SweepNext? {
      CollectIsCalm(env, w, step, r);
    } else if step.Compare? || step.CopyChunk? {
      CopyIsCalm(env, w, step, r);
    } else if step.Publish? || step.PublishCopy? {
      PublishIsCalm(env, w, step, r);
    } else {
      DeleteOrRotateIsCalm(env, w, step, r);
    }
  }

  lemma CalmSelf(objects: Objects)
    ensures Calm(objects, objects)
  {}

  lemma BeginTouchesNothing(env: Env, w: World, step: Step)
    requires Shape(env, w) && Enabled(env, w, step) && (step.Begin? || step.Leave? || step.Crash?)
    ensures Apply(env, w, step).repos == w.repos
  {
    hide OpenRepository;
  }

  lemma LockIsCalm(env: Env, w: World, step: Step, r: nat)
    requires Shape(env, w) && Enabled(env, w, step) && IsLockStep(step) && r < |w.repos|
    ensures |LockStep(env, w, step).repos| == |w.repos| && Calm(w.repos[r], LockStep(env, w, step).repos[r])
  {}

  lemma TaskIsCalm(env: Env, w: World, step: Step, r: nat)
    requires Shape(env, w) && Enabled(env, w, step) && (step.Spawn? || step.Advance?) && r < |w.repos|
    ensures |TaskStep(env, w, step).repos| == |w.repos| && Calm(w.repos[r], TaskStep(env, w, step).repos[r])
  {
    hide ReadChunk, StoredChunk, ValidChunkId;
  }

  lemma CollectIsCalm(env: Env, w: World, step: Step, r: nat)
    requires Shape(env, w) && Enabled(env, w, step) && r < |w.repos|
    requires step.ListManifests? || step.ReadNext? || step.ListChunks?
               || (step.SweepNext? && w.sessions[step.sid].repo != r)
    ensures |CollectStep(env, w, step).repos| == |w.repos| && Calm(w.repos[r], CollectStep(env, w, step).repos[r])
  {
    hide Enabled, Calm, ReadManifest, RefIds, PublishedIds;
    CollectorWorks(env, w, step);
    CalmSelf(w.repos[r]);
  }

  lemma CopyIsCalm(env: Env, w: World, step: Step, r: nat)
    requires Shape(env, w) && Enabled(env, w, step) && r < |w.repos| && (step.Compare? || step.CopyChunk?)
    ensures |CopyStep(env, w, step).repos| == |w.repos| && Calm(w.repos[r], CopyStep(env, w, step).repos[r])
  {
    hide ReadManifest, ReadChunk, RefIds, PublishManifest;
  }

  lemma PublishIsCalm(env: Env, w: World, step: Step, r: nat)
    requires Shape(env, w) && Enabled(env, w, step) && r < |w.repos| && (step.Publish? || step.PublishCopy?)
    requires w.sessions[step.sid].repo != r
    ensures |Apply(env, w, step).repos| == |w.repos| && Calm(w.repos[r], Apply(env, w, step).repos[r])
  {
    hide IsBackup, RefIds, StoredManifest;
  }

  lemma DeleteOrRotateIsCalm(env: Env, w: World, step: Step, r: nat)
    requires Shape(env, w) && Enabled(env, w, step) && r < |w.repos|
    requires step.Resolve? || step.FetchVersion? || step.Swap? || (step.Unpublish? && w.sessions[step.sid].repo != r)
    ensures |Apply(env, w, step).repos| == |w.repos| && Calm(w.repos[r], Apply(env, w, step).repos[r])
  {
    hide Shape, Enabled, DeleteStep, RotateStep, Calm;
    if step.Resolve? || step.Unpublish? {
      DeleteIsCalm(env, w, step, r);
    } else {
      RotateIsCalm(env, w, step, r);
    }
  }

  lemma DeleteIsCalm(env: Env, w: World, step: Step, r: nat)
    requires Shape(env, w) && Enabled(env, w, step) && r < |w.repos|
    requires step.Resolve? || (step.Unpublish? && w.sessions[step.sid].repo != r)
    ensures |DeleteStep(env, w, step).repos| == |w.repos| && Calm(w.repos[r], DeleteStep(env, w, step).repos[r])
  {
    hide ReadManifest;
  }

  lemma RotateIsCalm(env: Env, w: World, step: Step, r: nat)
    requires Shape(env, w) && Enabled(env, w, step) && r < |w.repos| && (step.FetchVersion? || step.Swap?)
    ensures |RotateStep(env, w, step).repos| == |w.repos| && Calm(w.repos[r], RotateStep(env, w, step).repos[r])
  {
    hide Enabled, Calm, Keys.Rewrap;
    RotatorWorks(env, w, step);
    var objects, objects' := w.repos[r], RotateStep(env, w, step).repos[r];
    assert objects' == objects || (ConfigKey in objects' && objects' == objects[ConfigKey := objects'[ConfigKey]]);
    OnlyConfigIsCalm(objects, objects');
  }

  lemma OnlyConfigIsCalm(objects: Objects, objects': Objects)
    requires objects' == objects || (ConfigKey in objects' && objects' == objects[ConfigKey := objects'[ConfigKey]])
    ensures Calm(objects, objects')
  {}

  lemma RotatorWorks(env: Env, w: World, step: Step)
    requires Enabled(env, w, step) && (step.FetchVersion? || step.Swap?)
    ensures HasWork(w, step.sid) && w.sessions[step.sid].purpose.Rotate?
  {}

  /** A command that is not the actor stays safe: the actor is not the holder of
      its lock, or it is in another repository. */
  lemma BystanderStaysSafe(env: Env, w: World, step: Step, b: nat)
    requires Safe(env, w) && Enabled(env, w, step) && Respects(w, step)
    requires b in w.sessions && b != step.sid
    ensures var w' := Apply(env, w, step);
            b in w'.sessions && w'.sessions[b].repo < |w'.repos| == |env.repos| && SessionSafe(env, w', b)
  {
    hide Base, Complete, WorkSafe, Apply, Current, Calm;
    var r := w.sessions[b].repo;
    assert SessionSafe(env, w, b);
    NobodyElseMoves(env, w, step, b);
    if w.sessions[b].pc.Holding? {
      if Removes(step) && w.sessions[step.sid].repo == r {
        OneWorker(env, w, step.sid, b);
      }
      MostStepsAreCalm(env, w, step, r);
      CalmKeepsWork(HandleOf(env, r), w.repos[r], Apply(env, w, step).repos[r], w.sessions[b]);
      LockIsKept(env, w, step, b);
    }
  }

  lemma NobodyElseMoves(env: Env, w: World, step: Step, b: nat)
    requires Shape(env, w) && Enabled(env, w, step) && b in w.sessions && b != step.sid
    ensures b in Apply(env, w, step).sessions && Apply(env, w, step).sessions[b] == w.sessions[b]
    ensures |Apply(env, w, step).repos| == |w.repos|
  {
    hide Apply, Enabled, Shape, LockOf;
    if IsLockStep(step) {
      LockStepMovesOne(env, w, step, b);
    } else {
      OtherStepsLeaveLocksAlone(env, w, step);
    }
  }

  lemma LockStepMovesOne(env: Env, w: World, step: Step, b: nat)
    requires Shape(env, w) && Enabled(env, w, step) && IsLockStep(step) && b in w.sessions && b != step.sid
    ensures b in Apply(env, w, step).sessions && Apply(env, w, step).sessions[b] == w.sessions[b]
    ensures |Apply(env, w, step).repos| == |w.repos|
  {}

  lemma LockIsKept(env: Env, w: World, step: Step, b: nat)
    requires Safe(env, w) && Enabled(env, w, step) && Respects(w, step)
    requires b in w.sessions && b != step.sid && w.sessions[b].pc.Holding?
    ensures Current(Apply(env, w, step), w.sessions[b].repo, b)
  {
    hide Base, Complete, WorkSafe, Apply, Enabled;
    assert SessionSafe(env, w, b);
    OnlyEvictionTakesTheLock(env, w, step, w.sessions[b].repo, b);
  }

  /* ---- the actor ---- */

  /** The actor of a step that removes and publishes nothing stays safe. */
  lemma TaskActorSafe(env: Env, w: World, step: Step)
    requires Safe(env, w) && Enabled(env, w, step) && (step.Spawn? || step.Advance?)
    ensures var w' := Apply(env, w, step);
            && step.sid in w'.sessions && w'.sessions[step.sid].repo < |w'.repos| == |env.repos|
            && SessionSafe(env, w', step.sid)
  {
    hide Base, Complete, Enabled, TaskStep, Current, WorkSafe, Calm;
    TaskMovesTasks(env, w, step);
    var sid, s, w' := step.sid, w.sessions[step.sid], Apply(env, w, step);
    assert SessionSafe(env, w, sid);
    HandleIs(env, w, sid);
    OtherStepsLeaveLocksAlone(env, w, step);
    if s.pc.Holding? {
      TaskIsCalm(env, w, step, s.repo);
      CalmKeepsWork(s.handle, w.repos[s.repo], w'.repos[s.repo], s);
      StaysCurrent(env, w, w', sid);
      TasksStaySafe(env, w, step);
    }
  }

  lemma TaskMovesTasks(env: Env, w: World, step: Step)
    requires Shape(env, w) && Enabled(env, w, step) && (step.Spawn? || step.Advance?)
    ensures step.sid in w.sessions && step.sid in TaskStep(env, w, step).sessions
    ensures TaskStep(env, w, step).sessions[step.sid] ==
              w.sessions[step.sid].(tasks := TaskStep(env, w, step).sessions[step.sid].tasks)
    ensures BeforeLock(w.sessions[step.sid].pc) && w.sessions[step.sid].tasks == [] ==>
              TaskStep(env, w, step).sessions[step.sid].tasks == []
    ensures !w.sessions[step.sid].purpose.Backup? && w.sessions[step.sid].tasks == [] ==>
              TaskStep(env, w, step).sessions[step.sid].tasks == []
  {
    hide StoredChunk, ReadChunk, ValidChunkId;
  }

  lemma TasksStaySafe(env: Env, w: World, step: Step)
    requires Shape(env, w) && Enabled(env, w, step) && (step.Spawn? || step.Advance?)
    requires step.sid in w.sessions && w.sessions[step.sid].pc.Holding? && w.sessions[step.sid].repo < |env.repos|
    requires w.sessions[step.sid].repo < |TaskStep(env, w, step).repos| && step.sid in TaskStep(env, w, step).sessions
    requires TaskStep(env, w, step).sessions[step.sid].pc.Holding?
    requires w.sessions[step.sid].handle == HandleOf(env, w.sessions[step.sid].repo)
    requires var s, w' := w.sessions[step.sid], TaskStep(env, w, step);
             WorkSafe(s.handle, w'.repos[s.repo], s)
    ensures var s, w' := w.sessions[step.sid], TaskStep(env, w, step);
            WorkSafe(s.handle, w'.repos[s.repo], w'.sessions[step.sid])
  {
    hide Enabled, TaskStep, ValidChunkId, Marks;
    TaskMovesTasks(env, w, step);
    StoredTasksAreThere(env, w, step);
  }

  /** A task that is stored was so before the step, or its chunk is there now. */
  lemma StoredTasksAreThere(env: Env, w: World, step: Step)
    requires Shape(env, w) && Enabled(env, w, step) && (step.Spawn? || step.Advance?)
    requires step.sid in w.sessions && step.sid in TaskStep(env, w, step).sessions
    requires w.sessions[step.sid].repo < |TaskStep(env, w, step).repos|
    ensures var tasks, s := TaskStep(env, w, step).sessions[step.sid].tasks, w.sessions[step.sid];
            forall i :: 0 <= i < |tasks| && tasks[i].phase.Stored? ==>
              || (i < |s.tasks| && tasks[i] == s.tasks[i])
              || ChunkKeyOf(s.handle.prims.hash(tasks[i].data)) in TaskStep(env, w, step).repos[s.repo]
  {
    hide Enabled, TaskStep, ValidChunkId;
    if step.Advance? {
      TaskIsThere(env, w, step);
      var phase := AdvanceIs(env, w, step);
    } else {
      SpawnIs(env, w, step);
    }
  }

  lemma SpawnIs(env: Env, w: World, step: Step)
    requires Shape(env, w) && Enabled(env, w, step) && step.Spawn?
    ensures step.sid in w.sessions && step.sid in TaskStep(env, w, step).sessions
    ensures TaskStep(env, w, step).sessions[step.sid].tasks == w.sessions[step.sid].tasks + [Task(step.data, Fetch)]
  {}

  lemma AdvanceIs(env: Env, w: World, step: Step) returns (phase: Phase)
    requires Shape(env, w) && Enabled(env, w, step) && step.Advance?
    requires step.sid in w.sessions && step.task < |w.sessions[step.sid].tasks| && w.sessions[step.sid].repo < |w.repos|
    ensures var s, w' := w.sessions[step.sid], TaskStep(env, w, step);
            && step.sid in w'.sessions && |w'.repos| == |w.repos|
            && w'.sessions[step.sid].tasks == s.tasks[step.task := s.tasks[step.task].(phase := phase)]
            && (phase.Stored? ==> s.tasks[step.task].phase.Stored?
                                  || ChunkKeyOf(s.handle.prims.hash(s.tasks[step.task].data)) in w'.repos[s.repo])
  {
    hide Enabled, StoredChunk, ReadChunk, ValidChunkId;
    var s := w.sessions[step.sid];
    phase := TaskStep(env, w, step).sessions[step.sid].tasks[step.task].phase;
    DigestIsValid(s.handle.prims, s.tasks[step.task].data);
    ReadIsThere(s.handle, w.repos[s.repo], s.handle.prims.hash(s.tasks[step.task].data));
  }

  lemma TaskIsThere(env: Env, w: World, step: Step)
    requires Enabled(env, w, step) && step.Advance?
    ensures step.sid in w.sessions && step.task < |w.sessions[step.sid].tasks|
  {}

  lemma ReadIsThere(h: Handle, objects: Objects, id: string)
    requires ValidChunkId(id)
    ensures ReadChunk(h, objects, id).Ok? ==> ChunkKeyOf(id) in objects
  {
    hide ChunkPlain, ValidChunkId;
  }

  lemma HandleIs(env: Env, w: World, sid: nat)
    requires Base(env, w) && sid in w.sessions
    ensures w.sessions[sid].repo < |w.repos| == |env.repos|
    ensures w.sessions[sid].handle == HandleOf(env, w.sessions[sid].repo)
    ensures w.sessions[sid].purpose.Replicate? ==>
              && w.sessions[sid].purpose.source < |env.repos|
              && w.sessions[sid].sourceHandle == HandleOf(env, w.sessions[sid].purpose.source)
  {
    hide RepoOk, ConfigFits, CopyOk;
    assert SessionOk(env, w.occurred, w.clock, w.sessions[sid]);
  }

  lemma StaysCurrent(env: Env, w: World, w': World, sid: nat)
    requires sid in w.sessions && w.sessions[sid].repo < |w.repos| && Current(w, w.sessions[sid].repo, sid)
    requires LocksSame(w, w', sid) && sid in w'.sessions
    requires LockVersion(w'.sessions[sid].pc) == LockVersion(w.sessions[sid].pc)
    ensures Current(w', w.sessions[sid].repo, sid)
  {
    assert LockOf(w', w.sessions[sid].repo) == LockOf(w, w.sessions[sid].repo);
  }

  lemma LockActorSafe(env: Env, w: World, step: Step)
    requires Safe(env, w) && Enabled(env, w, step) && IsLockStep(step)
    ensures var w' := Apply(env, w, step);
            && step.sid in w'.sessions && w'.sessions[step.sid].repo < |w'.repos| == |env.repos|
            && SessionSafe(env, w', step.sid)
  {
    hide Base, Complete, Marks;
    assert SessionSafe(env, w, step.sid);
  }

  /** A step of the holder that is not a chunk store, a release or a crash. */
  lemma WorkActorSafe(env: Env, w: World, step: Step)
    requires Safe(env, w) && Enabled(env, w, step)
    requires !step.Begin? && !IsLockStep(step) && !step.Spawn? && !step.Advance? && !step.Crash?
    ensures var w' := Apply(env, w, step);
            && step.sid in w'.sessions && w'.sessions[step.sid].repo < |w'.repos| == |env.repos|
            && SessionSafe(env, w', step.sid)
  {
    hide Base, Complete, Apply, Current, WorkSafe, LocksSame;
    var sid, w' := step.sid, Apply(env, w, step);
    HolderOnly(env, w, step);
    assert SessionSafe(env, w, sid);
    OtherStepsLeaveLocksAlone(env, w, step);
    SameRepo(w, w', sid);
    StaysCurrent(env, w, w', sid);
    AfterHolding(env, w, step);
    if w'.sessions[sid].pc.Holding? {
      WorkStaysSafe(env, w, step);
    }
  }

  lemma HolderOnly(env: Env, w: World, step: Step)
    requires Enabled(env, w, step)
    requires !step.Begin? && !IsLockStep(step) && !step.Spawn? && !step.Advance? && !step.Crash?
    ensures HasWork(w, step.sid)
  {
    hide IsBackup, RefIds;
  }

  lemma SameRepo(w: World, w': World, sid: nat)
    requires LocksSame(w, w', sid) && sid in w.sessions
    ensures sid in w'.sessions && w'.sessions[sid].repo == w.sessions[sid].repo && |w'.repos| == |w.repos|
  {}

  lemma AfterHolding(env: Env, w: World, step: Step)
    requires Shape(env, w) && Enabled(env, w, step) && HasWork(w, step.sid)
    requires !step.Begin? && !IsLockStep(step) && !step.Spawn? && !step.Advance? && !step.Crash?
    ensures step.sid in Apply(env, w, step).sessions && !BeforeLock(Apply(env, w, step).sessions[step.sid].pc)
  {
    hide Apply, Enabled, Shape;
    OtherStepsLeaveLocksAlone(env, w, step);
  }

  lemma WorkStaysSafe(env: Env, w: World, step: Step)
    requires Safe(env, w) && Enabled(env, w, step) && HasWork(w, step.sid)
    requires !step.Begin? && !IsLockStep(step) && !step.Spawn? && !step.Advance? && !step.Crash?
    requires step.sid in Apply(env, w, step).sessions && Apply(env, w, step).sessions[step.sid].pc.Holding?
    requires w.sessions[step.sid].repo < |Apply(env, w, step).repos|
    ensures var r, w' := w.sessions[step.sid].repo, Apply(env, w, step);
            WorkSafe(HandleOf(env, r), w'.repos[r], w'.sessions[step.sid])
  {
    hide Base, Complete, Current, Marks, IsBackup, CollectStep, CopyStep, PublishManifest;
    assert SessionSafe(env, w, step.sid);
    HandleIs(env, w, step.sid);
    var s := w.sessions[step.sid];
    if step.ListManifests? || step.ReadNext? || step.ListChunks? {
      MarkStaysSafe(env, w, step);
    } else if step.SweepNext? {
      SweepStaysSafe(env, w, step);
    } else if step.Compare? || step.CopyChunk? {
      CopyStaysSafe(env, w, step);
    } else if step.Publish? {
      PublishStaysSafe(env, w, step.sid, step.manifest, step.origin, BackingUp);
    } else if step.PublishCopy? {
      PublishCopyIs(env, w, step);
      PublishStaysSafe(env, w, step.sid, s.pc.work.copy.manifest, s.pc.work.copy.origin, Comparing(s.pc.work.rest));
    }
  }

  lemma PublishCopyIs(env: Env, w: World, step: Step)
    requires Shape(env, w) && Enabled(env, w, step) && step.PublishCopy?
    ensures var work := w.sessions[step.sid].pc.work;
            Apply(env, w, step) == PublishManifest(w, step.sid, work.copy.manifest, work.copy.origin,
                                                   Comparing(work.rest))
  {
    hide RefIds, PublishManifest;
  }

  /** Published manifests are sound and sit under their own keys. */
  lemma ManifestsFit(env: Env, w: World, r: nat, k: ObjKey)
    requires Base(env, w) && r < |w.repos| && k in w.repos[r] && k.ManifestKey?
    ensures k == ManifestKeyOf(HandleOf(env, r), k.id) && PlainId(k.id)
    ensures k.id in PublishedIds(HandleOf(env, r), w.repos[r])
    ensures ManifestPlain(HandleOf(env, r), k.id, w.repos[r][k].content).Some?
  {
    hide ValidManifest, EntryOk, ChunkOk, ConfigFits;
    assert RepoOk(env, w, r);
    assert ObjectOk(env, w.occurred, w.origins, w.clock, r, k, w.repos[r][k]);
    assert NamesSnapshot(HandleOf(env, r), k);
  }

  lemma MarkStaysSafe(env: Env, w: World, step: Step)
    requires Safe(env, w) && Enabled(env, w, step) && HasWork(w, step.sid)
    requires step.ListManifests? || step.ReadNext? || step.ListChunks?
    requires CollectStep(env, w, step).sessions[step.sid].pc.Holding?
    ensures var r, w' := w.sessions[step.sid].repo, CollectStep(env, w, step);
            WorkSafe(HandleOf(env, r), w'.repos[r], w'.sessions[step.sid])
  {
    hide Base, Shape, Enabled, Complete, Current, WorkSafe, CollectStep, NamesSnapshot;
    if step.ReadNext? {
      ReadStaysSafe(env, w, step);
    } else {
      ListingStaysSafe(env, w, step);
    }
  }

  lemma ListingStaysSafe(env: Env, w: World, step: Step)
    requires Safe(env, w) && Enabled(env, w, step) && HasWork(w, step.sid) && (step.ListManifests? || step.ListChunks?)
    requires CollectStep(env, w, step).sessions[step.sid].pc.Holding?
    ensures var r, w' := w.sessions[step.sid].repo, CollectStep(env, w, step);
            WorkSafe(HandleOf(env, r), w'.repos[r], w'.sessions[step.sid])
  {
    hide Base, Complete, Current, Marks, PublishedIds;
    var sid, s := step.sid, w.sessions[step.sid];
    HandleIs(env, w, sid);
    assert SessionSafe(env, w, sid);
    forall k | k in w.repos[s.repo] && k.ManifestKey?
      ensures k.id in PublishedIds(HandleOf(env, s.repo), w.repos[s.repo])
    {
      ManifestsFit(env, w, s.repo, k);
    }
  }

  lemma ReadStaysSafe(env: Env, w: World, step: Step)
    requires Safe(env, w) && Enabled(env, w, step) && HasWork(w, step.sid) && step.ReadNext?
    requires CollectStep(env, w, step).sessions[step.sid].pc.Holding?
    ensures var r, w' := w.sessions[step.sid].repo, CollectStep(env, w, step);
            WorkSafe(HandleOf(env, r), w'.repos[r], w'.sessions[step.sid])
  {
    hide Base, Complete, Current, RefIds, ManifestPlain;
    var sid, s := step.sid, w.sessions[step.sid];
    var h, objects := HandleOf(env, s.repo), w.repos[s.repo];
    HandleIs(env, w, sid);
    assert SessionSafe(env, w, sid);
    forall k | k in objects && k.ManifestKey?
      ensures k == ManifestKeyOf(h, k.id)
    {
      ManifestsFit(env, w, s.repo, k);
    }
  }

  lemma SweepStaysSafe(env: Env, w: World, step: Step)
    requires Safe(env, w) && Enabled(env, w, step) && HasWork(w, step.sid) && step.SweepNext?
    requires CollectStep(env, w, step).sessions[step.sid].pc.Holding?
    ensures var r, w' := w.sessions[step.sid].repo, CollectStep(env, w, step);
            WorkSafe(HandleOf(env, r), w'.repos[r], w'.sessions[step.sid])
  {
    hide Base, Complete, Current, Marks;
    assert SessionSafe(env, w, step.sid);
  }

  lemma CopyStaysSafe(env: Env, w: World, step: Step)
    requires Safe(env, w) && Enabled(env, w, step) && HasWork(w, step.sid) && (step.Compare? || step.CopyChunk?)
    requires CopyStep(env, w, step).sessions[step.sid].pc.Holding?
    ensures var r, w' := w.sessions[step.sid].repo, CopyStep(env, w, step);
            WorkSafe(HandleOf(env, r), w'.repos[r], w'.sessions[step.sid])
  {
    hide Base, Complete, Current, Marks, Enabled, CopyStep, ValidChunkId;
    assert SessionSafe(env, w, step.sid);
    CopyMoves(env, w, step);
  }

  lemma CopyMoves(env: Env, w: World, step: Step)
    requires Shape(env, w) && Enabled(env, w, step) && HasWork(w, step.sid) && (step.Compare? || step.CopyChunk?)
    ensures var w', s := CopyStep(env, w, step), w.sessions[step.sid];
            && w'.repos == w.repos && step.sid in w'.sessions
            && (w'.sessions[step.sid].pc.Holding? ==>
                  && w'.sessions[step.sid].purpose == s.purpose
                  && (w'.sessions[step.sid].pc.work.Comparing? || w'.sessions[step.sid].pc.work.Copying?)
                  && (w'.sessions[step.sid].tasks == s.tasks
                      || exists d :: w'.sessions[step.sid].tasks == s.tasks + [Task(d, Fetch)]))
  {
    hide ReadManifest, ReadChunk, PublishManifest, RefIds;
  }

  lemma PublishStaysSafe(env: Env, w: World, sid: nat, m: Manifest, origin: Origin, after: Work)
    requires Safe(env, w) && HasWork(w, sid) && (after.BackingUp? || after.Comparing?)
    requires PublishManifest(w, sid, m, origin, after).sessions[sid].pc.Holding?
    ensures w.sessions[sid].repo < |env.repos|
    ensures var r, w' := w.sessions[sid].repo, PublishManifest(w, sid, m, origin, after);
            WorkSafe(HandleOf(env, r), w'.repos[r], w'.sessions[sid])
  {
    hide Base, Complete, Current, Marks, StoredManifest;
    assert SessionSafe(env, w, sid);
  }

  /* ---- completeness ---- */

  /** A sweep deletes only chunks that no published manifest refers to. */
  lemma SweepKeepsComplete(env: Env, w: World, step: Step)
    requires Safe(env, w) && Enabled(env, w, step) && step.SweepNext?
    ensures var r := w.sessions[step.sid].repo;
            && |CollectStep(env, w, step).repos| == |w.repos|
            && Complete(HandleOf(env, r), CollectStep(env, w, step).repos[r])
  {
    hide Base, Marks, Current, ValidChunkId;
    assert SessionSafe(env, w, step.sid);
    var r := w.sessions[step.sid].repo;
    var h, objects, objects' := HandleOf(env, r), w.repos[r], CollectStep(env, w, step).repos[r];
    forall k, id | k in objects' && k.ManifestKey? && id in Marks(h, k, objects'[k])
      ensures HasChunk(objects', id)
    {
      assert HasChunk(objects, id);
    }
  }

  lemma UnpublishKeepsComplete(env: Env, w: World, step: Step)
    requires Safe(env, w) && Enabled(env, w, step) && step.Unpublish?
    ensures var r := w.sessions[step.sid].repo;
            && |DeleteStep(env, w, step).repos| == |w.repos|
            && Complete(HandleOf(env, r), DeleteStep(env, w, step).repos[r])
  {
    hide Base, Marks, ValidChunkId;
    var r := w.sessions[step.sid].repo;
    var h, objects, objects' := HandleOf(env, r), w.repos[r], DeleteStep(env, w, step).repos[r];
    forall k, id | k in objects' && k.ManifestKey? && id in Marks(h, k, objects'[k])
      ensures HasChunk(objects', id)
    {
      assert HasChunk(objects, id);
    }
  }

  /** A manifest is published only when all its chunks are stored. */
  lemma PublishKeepsComplete(env: Env, w: World, sid: nat, m: Manifest, origin: Origin, after: Work)
    requires Safe(env, w) && HasWork(w, sid) && ValidManifest(m)
    requires forall id :: id in RefIds(m) ==> exists d :: d in DoneData(w.sessions[sid]) && env.prims.hash(d) == id
    ensures var r := w.sessions[sid].repo;
            && |PublishManifest(w, sid, m, origin, after).repos| == |w.repos| == |env.repos| && r < |w.repos|
            && Complete(HandleOf(env, r), PublishManifest(w, sid, m, origin, after).repos[r])
  {
    hide Base, Shape, WorkSafe, RefIds, ValidManifest, Current, Complete, StoredManifest, DoneData;
    HandleIs(env, w, sid);
    assert SessionSafe(env, w, sid);
    var s, r := w.sessions[sid], w.sessions[sid].repo;
    DoneIsStored(HandleOf(env, r), w.repos[r], s, RefIds(m));
    var k := ManifestKeyOf(s.handle, m.id);
    if k !in w.repos[r] {
      NewManifestKeepsComplete(HandleOf(env, r), w.repos[r], m, w.clock);
    }
  }

  /** What the holder has stored can be referred to. */
  lemma DoneIsStored(h: Handle, objects: Objects, s: Session, ids: set<string>)
    requires s.pc.Holding? && WorkSafe(h, objects, s)
    requires forall id :: id in ids ==> exists d :: d in DoneData(s) && h.prims.hash(d) == id
    ensures forall id :: id in ids ==> HasChunk(objects, id)
  {
    hide Marks, ValidChunkId;
    forall id | id in ids
      ensures HasChunk(objects, id)
    {
      var d :| d in DoneData(s) && h.prims.hash(d) == id;
      DigestIsValid(h.prims, d);
    }
  }

  lemma DigestIsValid(p: Primitives, d: Bytes)
    ensures ValidChunkId(p.hash(d))
  {}

  lemma NewManifestKeepsComplete(h: Handle, objects: Objects, m: Manifest, nonce: nat)
    requires Complete(h, objects) && ValidManifest(m) && ManifestKeyOf(h, m.id) !in objects
    requires forall id :: id in RefIds(m) ==> HasChunk(objects, id)
    ensures Complete(h, objects[ManifestKeyOf(h, m.id) := Object(StoredManifest(h, nonce, m), nonce)])
  {
    hide RefIds, ValidManifest, ValidChunkId, Marks, StoredManifest;
    var k' := ManifestKeyOf(h, m.id);
    var objects' := objects[k' := Object(StoredManifest(h, nonce, m), nonce)];
    PublishedMarks(h, m, nonce);
    forall k, id | k in objects' && k.ManifestKey? && id in Marks(h, k, objects'[k])
      ensures HasChunk(objects', id)
    {
      assert HasChunk(objects, id);
    }
  }

  lemma PublishedMarks(h: Handle, m: Manifest, nonce: nat)
    requires ValidManifest(m)
    ensures Marks(h, ManifestKeyOf(h, m.id), Object(StoredManifest(h, nonce, m), nonce)) == RefIds(m)
  {
    hide RefIds, ValidManifest;
  }

  /** The chunks a backup refers to are those it stored. */
  lemma BackupRefsAreDone(env: Env, s: Session, m: Manifest, origin: Origin, id: string)
    requires IsBackup(env, s, m, origin) && id in RefIds(m)
    ensures exists d :: d in DoneData(s) && env.prims.hash(d) == id
  {
    hide ValidManifest, IsSplit;
    var e, ref :| e in m.files && ref in e.chunks && ref.id == id;
    var pieces := origin[e.path].pieces;
    var k :| 0 <= k < |e.chunks| && e.chunks[k] == ref;
    assert pieces[k] in DoneData(s) && env.prims.hash(pieces[k]) == id;
  }

  lemma StepKeepsComplete(env: Env, w: World, step: Step, r: nat)
    requires Safe(env, w) && Enabled(env, w, step) && r < |w.repos|
    ensures |Apply(env, w, step).repos| == |w.repos| && Complete(HandleOf(env, r), Apply(env, w, step).repos[r])
  {
    hide Base, Complete, Calm, SessionSafe, RefIds, ValidManifest, IsBackup, PublishManifest, CollectStep, DeleteStep,
      CopyStep,
      TaskStep, LockStep, BeginStep, RotateStep;
    if Removes(step) && w.sessions[step.sid].repo == r {
      HolderOnly(env, w, step);
      if step.SweepNext? {
        SweepKeepsComplete(env, w, step);
      } else if step.Unpublish? {
        UnpublishKeepsComplete(env, w, step);
      } else if step.Publish? {
        PublishStepKeepsComplete(env, w, step);
      } else {
        CopyStepKeepsComplete(env, w, step);
      }
    } else {
      MostStepsAreCalm(env, w, step, r);
      CalmKeepsComplete(HandleOf(env, r), w.repos[r], Apply(env, w, step).repos[r]);
    }
  }

  lemma PublishStepKeepsComplete(env: Env, w: World, step: Step)
    requires Safe(env, w) && Enabled(env, w, step) && step.Publish? && HasWork(w, step.sid)
    ensures var r := w.sessions[step.sid].repo;
            && |Apply(env, w, step).repos| == |w.repos| == |env.repos| && r < |w.repos|
            && Complete(HandleOf(env, r), Apply(env, w, step).repos[r])
  {
    hide Base, Complete, SessionSafe, RefIds, PublishManifest, DoneData;
    var s := w.sessions[step.sid];
    assert IsBackup(env, s, step.manifest, step.origin);
    forall id | id in RefIds(step.manifest)
      ensures exists d :: d in DoneData(s) && env.prims.hash(d) == id
    {
      BackupRefsAreDone(env, s, step.manifest, step.origin, id);
    }
    PublishKeepsComplete(env, w, step.sid, step.manifest, step.origin, BackingUp);
  }

  lemma CopyStepKeepsComplete(env: Env, w: World, step: Step)
    requires Safe(env, w) && Enabled(env, w, step) && step.PublishCopy? && HasWork(w, step.sid)
    ensures var r := w.sessions[step.sid].repo;
            && |Apply(env, w, step).repos| == |w.repos| == |env.repos| && r < |w.repos|
            && Complete(HandleOf(env, r), Apply(env, w, step).repos[r])
  {
    hide Base, Complete, SessionSafe, RefIds, PublishManifest, ValidManifest, DoneData;
    PublishCopyIs(env, w, step);
    var work := w.sessions[step.sid].pc.work;
    CopyInHandIsValid(env, w, step.sid);
    PublishKeepsComplete(env, w, step.sid, work.copy.manifest, work.copy.origin, Comparing(work.rest));
  }

  lemma CopyInHandIsValid(env: Env, w: World, sid: nat)
    requires Base(env, w) && HasWork(w, sid) && w.sessions[sid].pc.work.Copying?
    ensures ValidManifest(w.sessions[sid].pc.work.copy.manifest)
  {
    hide RepoOk, ConfigFits, ValidManifest;
    assert SessionOk(env, w.occurred, w.clock, w.sessions[sid]);
    assert w.sessions[sid].pc.work.copy in Copies(w.sessions[sid].pc);
  }

  /* ---- runs ---- */

  lemma ActorStaysSafe(env: Env, w: World, step: Step)
    requires Safe(env, w) && Enabled(env, w, step)
    ensures var w' := Apply(env, w, step);
            && step.sid in w'.sessions && w'.sessions[step.sid].repo < |w'.repos| == |env.repos|
            && SessionSafe(env, w', step.sid)
  {
    hide Safe, Apply, Enabled, SessionSafe;
    if step.Begin? || step.Crash? {
      BeginOrCrashSafe(env, w, step);
    } else if IsLockStep(step) {
      LockActorSafe(env, w, step);
    } else if step.Spawn? || step.Advance? {
      TaskActorSafe(env, w, step);
    } else {
      WorkActorSafe(env, w, step);
    }
  }

  lemma BeginOrCrashSafe(env: Env, w: World, step: Step)
    requires Safe(env, w) && Enabled(env, w, step) && (step.Begin? || step.Crash?)
    ensures var w' := Apply(env, w, step);
            && step.sid in w'.sessions && w'.sessions[step.sid].repo < |w'.repos| == |env.repos|
            && SessionSafe(env, w', step.sid)
  {
    hide Base, Complete, SessionSafe, OpenRepository;
    if step.Crash? {
      assert SessionSafe(env, w, step.sid);
    }
    BeginOrCrashIs(env, w, step);
  }

  lemma BeginOrCrashIs(env: Env, w: World, step: Step)
    requires Shape(env, w) && Enabled(env, w, step) && (step.Begin? || step.Crash?)
    ensures var w' := Apply(env, w, step);
            && step.sid in w'.sessions && w'.sessions[step.sid].repo < |w'.repos| == |env.repos|
            && SessionSafe(env, w', step.sid)
  {
    hide OpenRepository, WorkSafe, Current;
  }

  /** Every step that respects live writers keeps the whole invariant. */
  lemma StepKeepsSafe(env: Env, w: World, step: Step)
    requires Safe(env, w) && Enabled(env, w, step) && Respects(w, step)
    ensures Safe(env, Apply(env, w, step))
  {
    hide Base, Shape, Enabled, Apply, Complete, SessionSafe, Respects;
    var w' := Apply(env, w, step);
    StepKeepsBase(env, w, step);
    BaseShape(env, w');
    SameLength(env, w, w');
    forall r | 0 <= r < |w'.repos|
      ensures Complete(HandleOf(env, r), w'.repos[r])
    {
      StepKeepsComplete(env, w, step, r);
    }
    forall sid | sid in w'.sessions
      ensures w'.sessions[sid].repo < |w'.repos| == |env.repos| && SessionSafe(env, w', sid)
    {
      if sid == step.sid {
        ActorStaysSafe(env, w, step);
      } else {
        NobodyAppears(env, w, step, sid);
        BystanderStaysSafe(env, w, step, sid);
      }
    }
  }

  lemma SameLength(env: Env, w: World, w': World)
    requires Base(env, w) && Base(env, w')
    ensures |w.repos| == |w'.repos| == |env.repos|
  {}

  lemma NobodyAppears(env: Env, w: World, step: Step, b: nat)
    requires Shape(env, w) && Enabled(env, w, step) && b in Apply(env, w, step).sessions && b != step.sid
    ensures b in w.sessions
  {
    hide Apply, LockOf;
    if IsLockStep(step) {
      LockStepEffect(env, w, step);
    } else {
      OtherStepsLeaveLocksAlone(env, w, step);
    }
  }

  lemma {:induction false} RunKeepsSafe(env: Env, ws: seq<World>, steps: seq<Step>, n: nat)
    requires IsRespectfulRun(env, ws, steps) && n < |ws|
    ensures Safe(env, ws[n])
  {
    hide Safe, Shape, Enabled, Apply, Respects;
    if n == 0 {
      InitialSafe(env, ws[0]);
    } else {
      RunKeepsSafe(env, ws, steps, n - 1);
      StepKeepsSafe(env, ws[n - 1], steps[n - 1]);
    }
  }

  /* ---- the theorems ---- */

  /** A stored chunk of a content that occurred reads back as that content. */
  lemma StoredContentReads(env: Env, w: World, r: nat, d: Bytes)
    requires Base(env, w) && r < |w.repos| && d in w.occurred && NoCollision(env.prims, w.occurred)
    requires HasChunk(w.repos[r], env.prims.hash(d))
    ensures ReadChunk(HandleOf(env, r), w.repos[r], env.prims.hash(d)) == Ok(d)
  {
    hide SnapshotOk, ConfigFits, SessionOk, DecodeChunk, ValidChunkId;
    var k := ChunkKeyOf(env.prims.hash(d));
    assert RepoOk(env, w, r);
    assert ObjectOk(env, w.occurred, w.origins, w.clock, r, k, w.repos[r][k]);
  }

  lemma {:induction false} RefsReadBack(env: Env, w: World, r: nat, pieces: seq<Bytes>)
    requires Base(env, w) && r < |w.repos| && NoCollision(env.prims, w.occurred)
    requires forall d :: d in pieces ==> d in w.occurred && HasChunk(w.repos[r], env.prims.hash(d))
    ensures ReadAll(HandleOf(env, r), w.repos[r], Refs(env.prims, pieces)) == Ok(Concat(pieces))
  {
    hide Base, ReadChunk, ValidChunkId;
    if pieces != [] {
      var front, last := pieces[..|pieces| - 1], pieces[|pieces| - 1];
      RefsReadBack(env, w, r, front);
      StoredContentReads(env, w, r, last);
      assert Refs(env.prims, pieces)[..|pieces| - 1] == Refs(env.prims, front);
      assert pieces == front + [last];
      ConcatAppend(front, [last]);
      assert Concat([last]) == last;
    }
  }

  /** A published snapshot can be read, and its entries describe their files. */
  lemma PublishedReads(env: Env, w: World, r: nat, id: string)
    requires Base(env, w) && r < |w.repos| && id in PublishedIds(HandleOf(env, r), w.repos[r])
    ensures (r, id) in w.origins
    ensures ManifestKeyOf(HandleOf(env, r), id) in w.repos[r]
    ensures var read := ReadManifest(HandleOf(env, r), w.repos[r], id);
            && read.Ok? && CopyOk(env.prims, w.occurred, Copy(read.value, w.origins[(r, id)]))
            && Marks(HandleOf(env, r), ManifestKeyOf(HandleOf(env, r), id),
                     w.repos[r][ManifestKeyOf(HandleOf(env, r), id)]) == RefIds(read.value)
  {
    hide ConfigFits, SessionOk, RefIds, ValidManifest, EntryOk;
    var k := ManifestKeyOf(HandleOf(env, r), id);
    assert RepoOk(env, w, r);
    assert k in w.repos[r];
    assert ObjectOk(env, w.occurred, w.origins, w.clock, r, k, w.repos[r][k]);
  }

  lemma EntryChunksStored(env: Env, w: World, r: nat, id: string, e: FileEntry, d: Bytes)
    requires Safe(env, w) && r < |w.repos| && id in PublishedIds(HandleOf(env, r), w.repos[r])
    requires (r, id) in w.origins && ReadManifest(HandleOf(env, r), w.repos[r], id).Ok?
    requires e in ReadManifest(HandleOf(env, r), w.repos[r], id).value.files && e.kind.File?
    requires e.path in w.origins[(r, id)] && e.chunks == Refs(env.prims, w.origins[(r, id)][e.path].pieces)
    requires d in w.origins[(r, id)][e.path].pieces
    ensures HasChunk(w.repos[r], env.prims.hash(d))
  {
    hide Base, ReadManifest, ManifestPlain, SessionSafe, ValidChunkId;
    PublishedReads(env, w, r, id);
    var pieces := w.origins[(r, id)][e.path].pieces;
    var i :| 0 <= i < |pieces| && pieces[i] == d;
    assert e.chunks[i] in e.chunks && e.chunks[i].id == env.prims.hash(d);
    assert env.prims.hash(d) in RefIds(ReadManifest(HandleOf(env, r), w.repos[r], id).value);
  }

  /** Durability and restorability in one state: every file entry of every
      published snapshot reads back, chunk by chunk and of the recorded sizes, as
      the file the snapshot was taken of. */
  lemma SafeStateRestores(env: Env, w: World, r: nat, id: string, e: FileEntry)
    requires Safe(env, w) && NoCollision(env.prims, w.occurred)
    requires r < |w.repos| && id in PublishedIds(HandleOf(env, r), w.repos[r])
    ensures ReadManifest(HandleOf(env, r), w.repos[r], id).Ok?
    ensures (r, id) in w.origins
    ensures e in ReadManifest(HandleOf(env, r), w.repos[r], id).value.files ==>
              if e.kind.File? then
                && e.path in w.origins[(r, id)]
                && ReadAll(HandleOf(env, r), w.repos[r], e.chunks) == Ok(w.origins[(r, id)][e.path].content)
                && e.size == |w.origins[(r, id)][e.path].content|
              else e.chunks == []
  {
    hide Base, Complete, SessionSafe, ReadManifest, ReadAll, Refs, ValidChunkId;
    PublishedReads(env, w, r, id);
    var m := ReadManifest(HandleOf(env, r), w.repos[r], id).value;
    if e in m.files {
      assert EntryOk(env.prims, w.occurred, e, w.origins[(r, id)]);
      if e.kind.File? {
        var pieces := w.origins[(r, id)][e.path].pieces;
        forall d | d in pieces
          ensures d in w.occurred && HasChunk(w.repos[r], env.prims.hash(d))
        {
          EntryChunksStored(env, w, r, id, e, d);
        }
        RefsReadBack(env, w, r, pieces);
      }
    }
  }

  lemma {:induction false} ReadAllMeansEach(h: Handle, objects: Objects, refs: seq<ChunkRef>, i: nat)
    requires ReadAll(h, objects, refs).Ok? && i < |refs|
    ensures ReadChunk(h, objects, refs[i].id).Ok? && |ReadChunk(h, objects, refs[i].id).value| == refs[i].size
  {
    hide ReadChunk;
    if i < |refs| - 1 {
      ReadAllMeansEach(h, objects, refs[..|refs| - 1], i);
    }
  }

  /** Durability, over every run of any number of commands with crashes anywhere
      and with stray chunk stores of failed backups: every chunk a published
      snapshot refers to is stored, decodes to bytes that hash to its ID, and has
      the recorded size. */
  lemma PublishedChunksAreDurable(env: Env, ws: seq<World>, steps: seq<Step>, n: nat, r: nat, id: string, e: FileEntry,
      i: nat)
    requires IsRespectfulRun(env, ws, steps) && n < |ws| && NoCollision(env.prims, ws[n].occurred)
    requires r < |ws[n].repos| == |env.repos| && id in PublishedIds(HandleOf(env, r), ws[n].repos[r])
    ensures var h, objects := HandleOf(env, r), ws[n].repos[r];
            && ReadManifest(h, objects, id).Ok?
            && (e in ReadManifest(h, objects, id).value.files && i < |e.chunks| ==>
                  && ReadChunk(h, objects, e.chunks[i].id).Ok?
                  && |ReadChunk(h, objects, e.chunks[i].id).value| == e.chunks[i].size)
  {
    hide Safe, IsRespectfulRun, ReadManifest, ReadChunk, ReadAll, NoCollision;
    RunKeepsSafe(env, ws, steps, n);
    SafeStateRestores(env, ws[n], r, id, e);
    if e in ReadManifest(HandleOf(env, r), ws[n].repos[r], id).value.files && i < |e.chunks| {
      ReadAllMeansEach(HandleOf(env, r), ws[n].repos[r], e.chunks, i);
    }
  }

  /** A snapshot that stays published keeps its manifest and its origin. */
  lemma PublicationStays(env: Env, w: World, step: Step, r: nat, id: string)
    requires Base(env, w) && Shape(env, w) && Enabled(env, w, step) && r < |w.repos|
    requires var k := ManifestKeyOf(HandleOf(env, r), id);
             k in w.repos[r] && |Apply(env, w, step).repos| == |w.repos| && k in Apply(env, w, step).repos[r]
               && (r, id) in w.origins
    ensures var k, w' := ManifestKeyOf(HandleOf(env, r), id), Apply(env, w, step);
            w'.repos[r][k] == w.repos[r][k] && (r, id) in w'.origins && w'.origins[(r, id)] == w.origins[(r, id)]
  {
    hide Base, BeginStep, LockStep, TaskStep, CollectStep, DeleteStep, CopyStep, RotateStep, IsBackup, PublishManifest,
      Calm;
    if step.Publish? {
      HandleIs(env, w, step.sid);
      PublishTouchesOne(env, w, step.sid, step.manifest, step.origin, BackingUp, r, id);
    } else if step.PublishCopy? {
      HandleIs(env, w, step.sid);
      PublishCopyIs(env, w, step);
      var work := w.sessions[step.sid].pc.work;
      PublishTouchesOne(env, w, step.sid, work.copy.manifest, work.copy.origin, Comparing(work.rest), r, id);
    } else {
      OriginsStay(env, w, step);
      if step.SweepNext? || step.Unpublish? {
        RemovalTouchesNoOther(env, w, step, r, ManifestKeyOf(HandleOf(env, r), id));
      } else {
        MostStepsAreCalm(env, w, step, r);
        CalmIs(w.repos[r], Apply(env, w, step).repos[r], ManifestKeyOf(HandleOf(env, r), id));
      }
    }
  }

  lemma CalmIs(objects: Objects, objects': Objects, k: ObjKey)
    requires Calm(objects, objects') && k in objects && k.ManifestKey?
    ensures k in objects' && objects'[k] == objects[k]
  {}

  lemma PublishTouchesOne(env: Env, w: World, sid: nat, m: Manifest, origin: Origin, after: Work, r: nat, id: string)
    requires HasWork(w, sid) && r < |w.repos| == |env.repos|
    requires w.sessions[sid].handle == HandleOf(env, w.sessions[sid].repo)
    requires ManifestKeyOf(HandleOf(env, r), id) in w.repos[r] && (r, id) in w.origins
    ensures var k, w' := ManifestKeyOf(HandleOf(env, r), id), PublishManifest(w, sid, m, origin, after);
            && |w'.repos| == |w.repos| && k in w'.repos[r] && w'.repos[r][k] == w.repos[r][k]
            && (r, id) in w'.origins && w'.origins[(r, id)] == w.origins[(r, id)]
  {
    hide StoredManifest;
  }

  lemma OriginsStay(env: Env, w: World, step: Step)
    requires Shape(env, w) && Enabled(env, w, step) && !step.Publish? && !step.PublishCopy?
    ensures Apply(env, w, step).origins == w.origins
  {
    hide Shape, Enabled, LockStep, TaskStep, CollectStep, DeleteStep, CopyStep, RotateStep, OpenRepository;
    if IsLockStep(step) {
      LockOriginsStay(env, w, step);
    } else if step.Spawn? || step.Advance? {
      TaskOriginsStay(env, w, step);
    } else if step.ListManifests? || step.ReadNext? || step.ListChunks? || step.SweepNext? {
      CollectOriginsStay(env, w, step);
    } else if step.Compare? || step.CopyChunk? {
      CopyOriginsStay(env, w, step);
    } else if step.Resolve? || step.Unpublish? {
      DeleteOriginsStay(env, w, step);
    } else if step.FetchVersion? || step.Swap? {
      RotateOriginsStay(env, w, step);
    }
  }

  lemma LockOriginsStay(env: Env, w: World, step: Step)
    requires Shape(env, w) && Enabled(env, w, step) && IsLockStep(step)
    ensures LockStep(env, w, step).origins == w.origins
  {}

  lemma TaskOriginsStay(env: Env, w: World, step: Step)
    requires Shape(env, w) && Enabled(env, w, step) && (step.Spawn? || step.Advance?)
    ensures TaskStep(env, w, step).origins == w.origins
  {
    hide ReadChunk, StoredChunk, ValidChunkId;
  }

  lemma CollectOriginsStay(env: Env, w: World, step: Step)
    requires Shape(env, w) && Enabled(env, w, step)
    requires step.ListManifests? || step.ReadNext? || step.ListChunks? || step.SweepNext?
    ensures CollectStep(env, w, step).origins == w.origins
  {
    hide ReadManifest, RefIds, PublishedIds;
  }

  lemma CopyOriginsStay(env: Env, w: World, step: Step)
    requires Shape(env, w) && Enabled(env, w, step) && (step.Compare? || step.CopyChunk?)
    ensures CopyStep(env, w, step).origins == w.origins
  {
    hide ReadManifest, ReadChunk, RefIds, PublishManifest;
  }

  lemma DeleteOriginsStay(env: Env, w: World, step: Step)
    requires Shape(env, w) && Enabled(env, w, step) && (step.Resolve? || step.Unpublish?)
    ensures DeleteStep(env, w, step).origins == w.origins
  {
    hide ReadManifest;
  }

  lemma RotateOriginsStay(env: Env, w: World, step: Step)
    requires Shape(env, w) && Enabled(env, w, step) && (step.FetchVersion? || step.Swap?)
    ensures RotateStep(env, w, step).origins == w.origins
  {
    hide Keys.Rewrap;
  }

  lemma RemovalTouchesNoOther(env: Env, w: World, step: Step, r: nat, k: ObjKey)
    requires Shape(env, w) && Enabled(env, w, step) && (step.SweepNext? || step.Unpublish?) && r < |w.repos|
    ensures |Apply(env, w, step).repos| == |w.repos|
    ensures k in w.repos[r] && k in Apply(env, w, step).repos[r] ==> Apply(env, w, step).repos[r][k] == w.repos[r][k]
  {}

  /** What a publication leaves behind. */
  ghost predicate IsPublished(env: Env, w: World, r: nat, m: Manifest, origin: Origin) {
    && r < |w.repos| == |env.repos|
    && ManifestKeyOf(HandleOf(env, r), m.id) in w.repos[r]
    && ReadManifest(HandleOf(env, r), w.repos[r], m.id) == Ok(m)
    && (r, m.id) in w.origins && w.origins[(r, m.id)] == origin
  }

  lemma PublicationIsVisible(env: Env, w: World, step: Step)
    requires Base(env, w) && Shape(env, w) && Enabled(env, w, step) && step.Publish?
    requires ManifestKeyOf(w.sessions[step.sid].handle, step.manifest.id) !in w.repos[w.sessions[step.sid].repo]
    ensures IsPublished(env, Apply(env, w, step), w.sessions[step.sid].repo, step.manifest, step.origin)
  {
    hide Base, ValidManifest;
    HandleIs(env, w, step.sid);
    assert IsBackup(env, w.sessions[step.sid], step.manifest, step.origin);
  }

  /** The step that deletes this snapshot: the only way for its manifest to go. */
  predicate Deletes(w: World, step: Step, r: nat, id: string) {
    && step.Unpublish? && HasWork(w, step.sid) && w.sessions[step.sid].repo == r
    && w.sessions[step.sid].pc.work.Unpublishing? && w.sessions[step.sid].pc.work.id == id
  }

  lemma SweepSparesManifests(env: Env, w: World, step: Step, r: nat, k: ObjKey)
    requires Shape(env, w) && Enabled(env, w, step) && step.SweepNext? && r < |w.repos|
    requires k.ManifestKey? && k in w.repos[r]
    ensures |Apply(env, w, step).repos| == |w.repos| && k in Apply(env, w, step).repos[r]
  {}

  lemma UnpublishSparesOthers(env: Env, w: World, step: Step, r: nat, id: string)
    requires Shape(env, w) && Enabled(env, w, step) && step.Unpublish? && !Deletes(w, step, r, id)
    requires r < |w.repos| == |env.repos| && ManifestKeyOf(HandleOf(env, r), id) in w.repos[r]
    requires w.sessions[step.sid].handle == HandleOf(env, w.sessions[step.sid].repo)
    ensures |Apply(env, w, step).repos| == |w.repos|
    ensures ManifestKeyOf(HandleOf(env, r), id) in Apply(env, w, step).repos[r]
  {}

  /** A manifest stays in the store through every step that is not its own
      deletion: sweeps, rotations, replications, crashes, the deletion of other
      snapshots and everything else. */
  lemma OnlyDeletionRemoves(env: Env, w: World, step: Step, r: nat, id: string)
    requires Base(env, w) && Shape(env, w) && Enabled(env, w, step) && r < |w.repos| && (r, id) in w.origins
    requires ManifestKeyOf(HandleOf(env, r), id) in w.repos[r] && !Deletes(w, step, r, id)
    ensures |Apply(env, w, step).repos| == |w.repos|
    ensures ManifestKeyOf(HandleOf(env, r), id) in Apply(env, w, step).repos[r]
  {
    hide Base, BeginStep, LockStep, TaskStep, CollectStep, DeleteStep, CopyStep, RotateStep, IsBackup, PublishManifest,
      Calm, Deletes;
    var k := ManifestKeyOf(HandleOf(env, r), id);
    if step.Publish? {
      HandleIs(env, w, step.sid);
      PublishTouchesOne(env, w, step.sid, step.manifest, step.origin, BackingUp, r, id);
    } else if step.PublishCopy? {
      HandleIs(env, w, step.sid);
      PublishCopyIs(env, w, step);
      var work := w.sessions[step.sid].pc.work;
      PublishTouchesOne(env, w, step.sid, work.copy.manifest, work.copy.origin, Comparing(work.rest), r, id);
    } else if step.SweepNext? {
      SweepSparesManifests(env, w, step, r, k);
    } else if step.Unpublish? {
      HandleIs(env, w, step.sid);
      UnpublishSparesOthers(env, w, step, r, id);
    } else {
      MostStepsAreCalm(env, w, step, r);
      CalmIs(w.repos[r], Apply(env, w, step).repos[r], k);
    }
  }

  /** A snapshot that nobody deletes stays published, with the same manifest. */
  lemma {:induction false} StillPublished(env: Env, ws: seq<World>, steps: seq<Step>, i: nat, n: nat, r: nat,
      m: Manifest, origin: Origin)
    requires IsRun(env, ws, steps) && i <= n < |ws| && IsPublished(env, ws[i], r, m, origin)
    requires forall j :: i <= j < n ==> !Deletes(ws[j], steps[j], r, m.id)
    ensures IsPublished(env, ws[n], r, m, origin)
    decreases n - i
  {
    hide Base, Enabled, Apply, ManifestPlain, Deletes;
    if i < n {
      StillPublished(env, ws, steps, i, n - 1, r, m, origin);
      RunKeepsBase(env, ws, steps, n - 1);
      RunKeepsBase(env, ws, steps, n);
      SameLength(env, ws[n - 1], ws[n]);
      OnlyDeletionRemoves(env, ws[n - 1], steps[n - 1], r, m.id);
      PublicationStays(env, ws[n - 1], steps[n - 1], r, m.id);
    }
  }

  /** End-to-end round trip: once a backup has published its manifest, as long as
      nobody deletes that snapshot, and whatever other backups, deletions,
      collections, replications, rotations and crashes follow, reading the
      snapshot gives that manifest, and what `RestoreFile` writes of a regular
      file in it on success is exactly what was backed up; its chunks can all be
      read. */
  lemma BackupsRestore(env: Env, ws: seq<World>, steps: seq<Step>, i: nat, n: nat, r: nat, e: FileEntry)
    requires IsRespectfulRun(env, ws, steps) && i < n < |ws| && NoCollision(env.prims, ws[n].occurred)
    requires steps[i].Publish? && r == ws[i].sessions[steps[i].sid].repo < |env.repos|
    requires ManifestKeyOf(ws[i].sessions[steps[i].sid].handle, steps[i].manifest.id) !in ws[i].repos[r]
    requires forall j :: i < j < n ==> !Deletes(ws[j], steps[j], r, steps[i].manifest.id)
    requires e in steps[i].manifest.files && e.kind.File?
    ensures r < |ws[n].repos| && e.path in steps[i].origin
    ensures var h, objects, m := HandleOf(env, r), ws[n].repos[r], steps[i].manifest;
            var content := steps[i].origin[e.path].content;
            && ReadManifest(h, objects, m.id) == Ok(m)
            && ReadAll(h, objects, e.chunks) == Ok(content) && e.size == |content|
            && forall written :: Repository.RestoredFile(h, objects, m.id, e.path, written) <==> written == content
  {
    hide Safe, Base, Enabled, Apply, ReadManifest, ReadAll, NoCollision, Respects, Deletes, Repository.RestoredFile;
    var m, origin := steps[i].manifest, steps[i].origin;
    RunKeepsBase(env, ws, steps, i);
    PublicationIsVisible(env, ws[i], steps[i]);
    StillPublished(env, ws, steps, i + 1, n, r, m, origin);
    RunKeepsSafe(env, ws, steps, n);
    Published.ReadHasId(HandleOf(env, r), ws[n].repos[r], m.id);
    SafeStateRestores(env, ws[n], r, m.id, e);
    Repository.RestoredIs(HandleOf(env, r), ws[n].repos[r], m, e, origin[e.path].content);
  }

  /** No command of this program stores anything under the selector's name: in every
      reachable state of every run every listed manifest can be read, so `Snapshots`
      returns them. */
  lemma SnapshotsAlwaysReturn(env: Env, ws: seq<World>, steps: seq<Step>, n: nat, r: nat, listings: seq<seq<string>>)
    requires IsRun(env, ws, steps) && n < |ws| && r < |ws[n].repos| == |env.repos| && listings != []
    requires Nesting.AreOrders(HandleOf(env, r), ws[n].repos[r], listings)
    ensures Published.AllReadable(HandleOf(env, r), ws[n].repos[r])
    ensures LATEST !in PublishedIds(HandleOf(env, r), ws[n].repos[r])
    ensures Nesting.SnapshotsNested(HandleOf(env, r), ws[n].repos[r], listings).Ok?
  {
    hide IsRun, ReadManifest, PublishedIds, Base, Nesting.SnapshotsNested;
    RunKeepsBase(env, ws, steps, n);
    forall id | id in PublishedIds(HandleOf(env, r), ws[n].repos[r])
      ensures ReadManifest(HandleOf(env, r), ws[n].repos[r], id).Ok?
    {
      PublishedReads(env, ws[n], r, id);
    }
    Published.ReadableIsListable(HandleOf(env, r), ws[n].repos[r]);
    Nesting.AnswersExactly(HandleOf(env, r), ws[n].repos[r], listings);
  }
}
