/** A chunk pipeline inside a run of the protocol. Each store operation of its
    workers is one step of the session, so the session has recorded what the
    pipeline has stored. */
module Traces {
  import opened Chunker
  import opened Model
  import opened Pool
  import opened ChunkPipeline
  import P = Protocol
  import Durability
  import Invariants

  /* ---- one store operation ---- */

  /** The phase of a `PutChunk` after its next operation, and the store. */
  ghost function NextPhase(h: Handle, d: Bytes, p: P.Phase, objects: Objects): P.Phase {
    match p
    case Fetch => if KeyOf(h, d) in objects then P.Recheck else P.Store
    case Store => if KeyOf(h, d) in objects then P.Recheck else P.Stored
    case Recheck => if ReadChunk(h, objects, h.prims.hash(d)).Ok? then P.Stored else P.Failed
    case _ => p
  }

  ghost function NextStore(h: Handle, d: Bytes, p: P.Phase, objects: Objects, clock: nat): Objects {
    if p.Store? && KeyOf(h, d) !in objects
    then objects[KeyOf(h, d) := Object(StoredChunk(h, clock, d), clock)] else objects
  }

  lemma AdvanceIsNext(env: P.Env, w: P.World, sid: nat, k: nat)
    requires P.Shape(env, w) && P.Enabled(env, w, P.Advance(sid, k))
    ensures var w', s, t := P.Apply(env, w, P.Advance(sid, k)), w.sessions[sid], w.sessions[sid].tasks[k];
            var phase := NextPhase(s.handle, t.data, t.phase, w.repos[s.repo]);
            sid in w'.sessions && w'.sessions[sid] == s.(tasks := s.tasks[k := P.Task(t.data, phase)])
  {
    hide ReadChunk, StoredChunk, ValidChunkId;
  }

  lemma AdvanceStores(env: P.Env, w: P.World, sid: nat, k: nat)
    requires P.Shape(env, w) && P.Enabled(env, w, P.Advance(sid, k))
    ensures var w', s, t := P.Apply(env, w, P.Advance(sid, k)), w.sessions[sid], w.sessions[sid].tasks[k];
            && s.repo < |w.repos| == |w'.repos|
            && w'.repos[s.repo] == NextStore(s.handle, t.data, t.phase, w.repos[s.repo], w.clock)
  {
    hide ReadChunk, StoredChunk, ValidChunkId;
  }

  /** Every step of a `PutChunk` in the protocol is an operation of the pipeline,
      and the task ends stored exactly when that operation reports a stored chunk. */
  lemma AdvanceIsAnOperation(env: P.Env, w: P.World, sid: nat, k: nat, e: Surroundings)
    requires P.Shape(env, w) && P.Enabled(env, w, P.Advance(sid, k))
    requires !w.sessions[sid].tasks[k].phase.Stored? && !w.sessions[sid].tasks[k].phase.Failed?
    ensures var w', s, t := P.Apply(env, w, P.Advance(sid, k)), w.sessions[sid], w.sessions[sid].tasks[k];
            && sid in w'.sessions && k < |w'.sessions[sid].tasks| && s.repo < |w.repos| == |w'.repos|
            && var objects, objects', phase := w.repos[s.repo], w'.repos[s.repo], w'.sessions[sid].tasks[k].phase;
               || (objects' == objects && Act(s.handle, t.data, t.phase, objects, phase))
               || exists o: Outcome ::
                    End(s.handle, e, t.data, t.phase, objects, o, objects') && (o.Put? <==> phase.Stored?)
  {
    hide P.Shape, P.Apply, ReadChunk, StoredChunk, ValidChunkId, ChunkKeyOf, Act, End, NextPhase, NextStore;
    AdvanceIsNext(env, w, sid, k);
    AdvanceStores(env, w, sid, k);
    var s, t := w.sessions[sid], w.sessions[sid].tasks[k];
    NextIsAnOperation(s.handle, e, t.data, t.phase, w.repos[s.repo], w.clock);
  }

  lemma NextIsAnOperation(h: Handle, e: Surroundings, d: Bytes, p: P.Phase, objects: Objects, clock: nat)
    requires !p.Stored? && !p.Failed?
    ensures var phase, objects' := NextPhase(h, d, p, objects), NextStore(h, d, p, objects, clock);
            || (objects' == objects && Act(h, d, p, objects, phase))
            || exists o: Outcome :: End(h, e, d, p, objects, o, objects') && (o.Put? <==> phase.Stored?)
  {
    hide ReadChunk, StoredChunk, ValidChunkId, ChunkKeyOf;
    var objects' := NextStore(h, d, p, objects, clock);
    if p.Store? && KeyOf(h, d) !in objects {
      var stored := StoredChunk(h, clock, d);
      var o := Put(RefOf(h, d), true, Size(stored));
      assert CreatesWith(h, e, d, objects, o, objects', clock, clock);
      assert End(h, e, d, p, objects, o, objects');
    } else if p.Recheck? {
      var o := if ReadChunk(h, objects, h.prims.hash(d)).Ok? then Put(RefOf(h, d), false, 0) else Unstored;
      assert End(h, e, d, p, objects, o, objects');
    }
  }

  /** The converse: an operation of the pipeline on the store of the protocol moves
      the task as it moves the worker. */
  lemma OperationIsNext(h: Handle, e: Surroundings, d: Bytes, p: P.Phase, objects: Objects)
    ensures forall p' :: Act(h, d, p, objects, p') ==> p' == NextPhase(h, d, p, objects)
    ensures forall o, objects' :: End(h, e, d, p, objects, o, objects') && o.Put? ==>
              NextPhase(h, d, p, objects) == P.Stored
  {
    hide ReadChunk, StoredChunk, ValidChunkId, ChunkKeyOf;
  }

  /* ---- what other steps leave alone ---- */

  /** The session has gone on: its tasks are the same or more, no task has changed
      but this one, and stored ones stay stored. */
  ghost predicate GoesOn(s: P.Session, s': P.Session, step: P.Step, sid: nat) {
    && s'.repo == s.repo && s'.handle == s.handle && |s.tasks| <= |s'.tasks|
    && (forall k :: 0 <= k < |s.tasks| && step != P.Advance(sid, k) ==> s'.tasks[k] == s.tasks[k])
    && (forall k :: 0 <= k < |s.tasks| && s.tasks[k].phase.Stored? ==> s'.tasks[k] == s.tasks[k])
  }

  /** Apart from `PutChunk` and replications, steps do not touch tasks at all. */
  ghost predicate SameTasks(w: P.World, w': P.World, sid: nat) {
    && sid in w.sessions && sid in w'.sessions && w'.sessions[sid].repo == w.sessions[sid].repo
    && w'.sessions[sid].handle == w.sessions[sid].handle && w'.sessions[sid].tasks == w.sessions[sid].tasks
  }

  lemma MoveKeepsTasks(w: P.World, sid: nat, other: nat)
    requires sid in w.sessions && other in w.sessions
    ensures forall pc :: SameTasks(w, P.Move(w, sid, pc), other)
  {}

  lemma TryLockKeepsTasks(env: P.Env, w: P.World, step: P.Step, sid: nat)
    requires P.Shape(env, w) && P.Enabled(env, w, step) && step.TryLock? && sid in w.sessions
    ensures SameTasks(w, P.LockStep(env, w, step), sid)
  {}

  lemma InspectKeepsTasks(env: P.Env, w: P.World, step: P.Step, sid: nat)
    requires P.Shape(env, w) && P.Enabled(env, w, step) && step.Inspect? && sid in w.sessions
    ensures SameTasks(w, P.LockStep(env, w, step), sid)
  {}

  lemma UnlockKeepsTasks(env: P.Env, w: P.World, step: P.Step, sid: nat)
    requires P.Shape(env, w) && P.Enabled(env, w, step) && (step.Evict? || step.Release?) && sid in w.sessions
    ensures SameTasks(w, P.LockStep(env, w, step), sid)
  {}

  lemma ListKeepsTasks(env: P.Env, w: P.World, step: P.Step, sid: nat)
    requires P.Shape(env, w) && P.Enabled(env, w, step) && (step.ListManifests? || step.ListChunks?)
    requires sid in w.sessions
    ensures SameTasks(w, P.CollectStep(env, w, step), sid)
  {
    hide PublishedIds;
  }

  lemma ReadKeepsTasks(env: P.Env, w: P.World, step: P.Step, sid: nat)
    requires P.Shape(env, w) && P.Enabled(env, w, step) && step.ReadNext? && sid in w.sessions
    ensures SameTasks(w, P.CollectStep(env, w, step), sid)
  {
    hide ReadManifest, RefIds, P.Move, SameTasks, P.IsBackup;
    MoveKeepsTasks(w, step.sid, sid);
  }

  lemma SweepKeepsTasks(env: P.Env, w: P.World, step: P.Step, sid: nat)
    requires P.Shape(env, w) && P.Enabled(env, w, step) && step.SweepNext? && sid in w.sessions
    ensures SameTasks(w, P.CollectStep(env, w, step), sid)
  {}

  lemma DeleteKeepsTasks(env: P.Env, w: P.World, step: P.Step, sid: nat)
    requires P.Shape(env, w) && P.Enabled(env, w, step) && (step.Resolve? || step.Unpublish?) && sid in w.sessions
    ensures SameTasks(w, P.DeleteStep(env, w, step), sid)
  {
    hide ReadManifest;
  }

  lemma CompareKeepsTasks(env: P.Env, w: P.World, step: P.Step, sid: nat)
    requires P.Shape(env, w) && P.Enabled(env, w, step) && step.Compare? && sid in w.sessions
    ensures SameTasks(w, P.CopyStep(env, w, step), sid)
  {
    hide ReadManifest, RefIds, P.PublishManifest, P.Move, SameTasks, P.IsBackup;
    MoveKeepsTasks(w, step.sid, sid);
  }

  lemma PublishKeepsTasks(w: P.World, sid: nat, m: Manifest, origin: P.Origin, after: P.Work, other: nat)
    requires P.HasWork(w, sid) && other in w.sessions
    ensures SameTasks(w, P.PublishManifest(w, sid, m, origin, after), other)
  {
    hide StoredManifest;
  }

  lemma RotateKeepsTasks(env: P.Env, w: P.World, step: P.Step, sid: nat)
    requires P.Shape(env, w) && P.Enabled(env, w, step) && (step.FetchVersion? || step.Swap?) && sid in w.sessions
    ensures SameTasks(w, P.RotateStep(env, w, step), sid)
  {
    hide P.Keys.Rewrap;
  }

  lemma MovesKeepTasks(env: P.Env, w: P.World, step: P.Step, sid: nat)
    requires P.Shape(env, w) && P.Enabled(env, w, step) && (step.Begin? || step.Leave? || step.Crash?)
    requires sid in w.sessions
    ensures SameTasks(w, P.Apply(env, w, step), sid)
  {
    hide P.OpenRepository;
  }

  lemma MostStepsKeepTasks(env: P.Env, w: P.World, step: P.Step, sid: nat)
    requires P.Shape(env, w) && P.Enabled(env, w, step) && sid in w.sessions
    requires !step.Spawn? && !step.Advance? && !step.CopyChunk?
    ensures SameTasks(w, P.Apply(env, w, step), sid)
  {
    hide SameTasks, P.Shape, P.LockStep, P.TaskStep, P.CollectStep, P.DeleteStep, P.CopyStep, P.RotateStep, P.BeginStep,
      P.PublishManifest, P.Finish, P.Move, P.IsBackup, RefIds;
    if step.Begin? || step.Leave? || step.Crash? {
      MovesKeepTasks(env, w, step, sid);
    } else if step.TryLock? {
      TryLockKeepsTasks(env, w, step, sid);
    } else if step.Inspect? {
      InspectKeepsTasks(env, w, step, sid);
    } else if step.Evict? || step.Release? {
      UnlockKeepsTasks(env, w, step, sid);
    } else if step.Publish? {
      PublishKeepsTasks(w, step.sid, step.manifest, step.origin, P.BackingUp, sid);
    } else if step.PublishCopy? {
      Durability.PublishCopyIs(env, w, step);
      var work := w.sessions[step.sid].pc.work;
      PublishKeepsTasks(w, step.sid, work.copy.manifest, work.copy.origin, P.Comparing(work.rest), sid);
    } else if step.Compare? {
      CompareKeepsTasks(env, w, step, sid);
    } else if step.Resolve? || step.Unpublish? {
      DeleteKeepsTasks(env, w, step, sid);
    } else if step.FetchVersion? || step.Swap? {
      RotateKeepsTasks(env, w, step, sid);
    } else if step.ReadNext? {
      ReadKeepsTasks(env, w, step, sid);
    } else if step.SweepNext? {
      SweepKeepsTasks(env, w, step, sid);
    } else {
      ListKeepsTasks(env, w, step, sid);
    }
  }

  lemma CopyChunkGoesOn(env: P.Env, w: P.World, step: P.Step, sid: nat)
    requires P.Shape(env, w) && P.Enabled(env, w, step) && step.CopyChunk? && sid in w.sessions
    ensures sid in P.CopyStep(env, w, step).sessions
    ensures GoesOn(w.sessions[sid], P.CopyStep(env, w, step).sessions[sid], step, sid)
  {
    hide ReadChunk, RefIds, P.PublishManifest;
  }

  lemma SpawnGoesOn(env: P.Env, w: P.World, step: P.Step, sid: nat)
    requires P.Shape(env, w) && P.Enabled(env, w, step) && step.Spawn? && sid in w.sessions
    ensures sid in P.Apply(env, w, step).sessions
    ensures GoesOn(w.sessions[sid], P.Apply(env, w, step).sessions[sid], step, sid)
  {}

  lemma AdvanceSparesOthers(env: P.Env, w: P.World, sid: nat, k: nat, other: nat)
    requires P.Shape(env, w) && P.Enabled(env, w, P.Advance(sid, k)) && other in w.sessions && other != sid
    ensures SameTasks(w, P.Apply(env, w, P.Advance(sid, k)), other)
  {
    hide ReadChunk, StoredChunk, ValidChunkId;
  }

  lemma AdvanceGoesOn(env: P.Env, w: P.World, sid: nat, k: nat)
    requires P.Shape(env, w) && P.Enabled(env, w, P.Advance(sid, k)) && sid in w.sessions
    ensures sid in P.Apply(env, w, P.Advance(sid, k)).sessions
    ensures GoesOn(w.sessions[sid], P.Apply(env, w, P.Advance(sid, k)).sessions[sid], P.Advance(sid, k), sid)
  {
    hide P.Shape, P.Apply, NextStore;
    AdvanceIsNext(env, w, sid, k);
  }

  lemma SameTasksGoOn(w: P.World, w': P.World, step: P.Step, sid: nat)
    requires SameTasks(w, w', sid)
    ensures GoesOn(w.sessions[sid], w'.sessions[sid], step, sid)
  {}

  /** No step undoes what a session has recorded. */
  lemma EveryStepGoesOn(env: P.Env, w: P.World, step: P.Step, sid: nat)
    requires P.Shape(env, w) && P.Enabled(env, w, step) && sid in w.sessions
    ensures sid in P.Apply(env, w, step).sessions
    ensures GoesOn(w.sessions[sid], P.Apply(env, w, step).sessions[sid], step, sid)
  {
    hide GoesOn, P.Shape, P.Enabled, P.LockStep, P.TaskStep, P.CollectStep, P.DeleteStep, P.CopyStep, P.RotateStep,
      P.BeginStep, P.PublishManifest, P.Finish, P.Move;
    var w' := P.Apply(env, w, step);
    if step.Spawn? {
      SpawnGoesOn(env, w, step, sid);
    } else if step.CopyChunk? {
      CopyChunkGoesOn(env, w, step, sid);
    } else if step.Advance? && step.sid == sid {
      AdvanceGoesOn(env, w, sid, step.task);
    } else {
      if step.Advance? {
        AdvanceSparesOthers(env, w, step.sid, step.task, sid);
      } else {
        MostStepsKeepTasks(env, w, step, sid);
      }
      SameTasksGoOn(w, w', step, sid);
    }
  }

  /* ---- a pipeline in a run ---- */

  type PipelineState = State<P.Phase, Outcome, Objects>
  type PipelineStep = Step<P.Phase, Outcome, Objects>

  /** Where the steps of a pipeline happen: the i-th at time at[i], and chunk j is
      the session's task task(j). */
  datatype Trace = Trace(at: seq<nat>, task: nat -> nat)

  /** A run of the protocol up to time n, and one of its sessions. */
  datatype History = History(env: P.Env, ws: seq<P.World>, steps: seq<P.Step>, sid: nat, n: nat)

  ghost predicate IsHistory(x: History) {
    P.IsRun(x.env, x.ws, x.steps) && x.n < |x.ws|
  }

  /** The session at a time of the run. */
  ghost predicate Lives(x: History, t: nat, h: Handle) {
    && IsHistory(x) && t <= x.n && x.sid in x.ws[t].sessions && x.ws[t].sessions[x.sid].repo < |x.ws[t].repos|
    && x.ws[t].sessions[x.sid].handle == h
  }

  function SessionAt(x: History, t: nat): P.Session
    requires t < |x.ws| && x.sid in x.ws[t].sessions
  {
    x.ws[t].sessions[x.sid]
  }

  function StoreAt(x: History, t: nat): Objects
    requires t < |x.ws| && x.sid in x.ws[t].sessions && x.ws[t].sessions[x.sid].repo < |x.ws[t].repos|
  {
    x.ws[t].repos[x.ws[t].sessions[x.sid].repo]
  }

  /** This step of a pipeline happens at time t of the run: taking a chunk starts a
      task of the session, and an operation of a worker is an operation of its task
      on the store of the protocol. An operation that fails may be anything. */
  ghost predicate Happens(x: History, h: Handle, chunks: seq<Bytes>, e: Surroundings, s: PipelineState,
      step: PipelineStep, task: nat -> nat, t: nat) {
    match step
    case Take(w) =>
      && t < x.n && Lives(x, t, h) && s.work != [] && s.work[0] < |chunks|
      && x.steps[t] == P.Spawn(x.sid, chunks[s.work[0]]) && task(s.work[0]) == |SessionAt(x, t).tasks|
    case Proceed(w, phase, objects) =>
      && t < x.n && Lives(x, t, h) && Works(s, chunks, w)
      && x.steps[t] == P.Advance(x.sid, task(s.workers[w].job))
      && objects == StoreAt(x, t)
    case Complete(w, o, objects) => o.Put? ==>
      && t < x.n && Lives(x, t, h) && Works(s, chunks, w)
      && x.steps[t] == P.Advance(x.sid, task(s.workers[w].job))
      && End(h, e, chunks[s.workers[w].job], s.workers[w].phase, StoreAt(x, t), o, objects)
    case _ => true
  }

  predicate Works(s: PipelineState, chunks: seq<Bytes>, w: nat) {
    w < |s.workers| && s.workers[w].Busy? && s.workers[w].job < |chunks|
  }

  /** Such a step takes one step of the run. */
  predicate Operates(step: PipelineStep) {
    step.Take? || step.Proceed? || (step.Complete? && step.outcome.Put?)
  }

  /** Nobody else works on the task of a busy worker. */
  ghost predicate Spares(x: History, s: PipelineState, task: nat -> nat, t: nat) {
    t < |x.steps| && forall w :: 0 <= w < |s.workers| && s.workers[w].Busy? ==>
      x.steps[t] != P.Advance(x.sid, task(s.workers[w].job))
  }

  ghost predicate Waits(x: History, s: PipelineState, task: nat -> nat, from: nat, to: nat) {
    forall t: nat :: from <= t < to ==> Spares(x, s, task, t)
  }

  /** The pipeline runs within the history: its steps happen there in order. */
  ghost predicate Traced(x: History, h: Handle, chunks: seq<Bytes>, e: Surroundings, ss: ChunkRun, steps: ChunkSteps,
      tr: Trace) {
    && |tr.at| == |ss| == |steps| + 1
    && Lives(x, tr.at[0], h) && tr.at[|steps|] <= x.n
    && forall i :: 0 <= i < |steps| ==>
         && tr.at[i] + (if Operates(steps[i]) then 1 else 0) <= tr.at[i + 1]
         && Happens(x, h, chunks, e, ss[i], steps[i], tr.task, tr.at[i])
         && Waits(x, ss[i + 1], tr.task, tr.at[i] + (if Operates(steps[i]) then 1 else 0), tr.at[i + 1])
  }

  /** The session knows what the workers are doing and what they have stored. */
  ghost predicate Mirrors(s: P.Session, chunks: seq<Bytes>, task: nat -> nat, p: PipelineState) {
    && (forall w :: 0 <= w < |p.workers| && Works(p, chunks, w) ==>
        && task(p.workers[w].job) < |s.tasks|
        && s.tasks[task(p.workers[w].job)] == P.Task(chunks[p.workers[w].job], p.workers[w].phase))
    && (forall v, w :: 0 <= v < w < |p.workers| && Works(p, chunks, v) && Works(p, chunks, w) ==>
        task(p.workers[v].job) != task(p.workers[w].job))
    && (forall w :: 0 <= w < |p.workers| && p.workers[w].Reporting? ==>
        IsRecorded(s, chunks, Item(p.workers[w].job, p.workers[w].outcome)))
    && (forall r :: r in p.results ==> IsRecorded(s, chunks, r))
    && (forall r :: r in p.collected ==> IsRecorded(s, chunks, r))
  }

  predicate IsRecorded(s: P.Session, chunks: seq<Bytes>, r: Item<Outcome>) {
    r.outcome.Put? && r.job < |chunks| ==> P.Task(chunks[r.job], P.Stored) in s.tasks
  }

  lemma RecordsStay(s: P.Session, s': P.Session, step: P.Step, sid: nat, chunks: seq<Bytes>)
    requires GoesOn(s, s', step, sid)
    ensures forall r :: IsRecorded(s, chunks, r) ==> IsRecorded(s', chunks, r)
  {
    forall t | t in s.tasks && t.phase.Stored?
      ensures t in s'.tasks
    {
      var k :| 0 <= k < |s.tasks| && s.tasks[k] == t;
      assert s'.tasks[k] == t;
    }
  }

  /** Steps of the run that are not the pipeline's own. */
  lemma OthersKeepMirror(x: History, h: Handle, chunks: seq<Bytes>, task: nat -> nat,
      p: PipelineState, t: nat)
    requires Lives(x, t, h) && t < x.n && Mirrors(SessionAt(x, t), chunks, task, p) && Spares(x, p, task, t)
    ensures Lives(x, t + 1, h) && Mirrors(SessionAt(x, t + 1), chunks, task, p)
  {
    hide P.Shape, P.Enabled, P.Apply, IsRecorded;
    LivesOn(x, h, t);
    RecordsStay(SessionAt(x, t), SessionAt(x, t + 1), x.steps[t], x.sid, chunks);
  }

  lemma LivesOn(x: History, h: Handle, t: nat)
    requires Lives(x, t, h) && t < x.n
    ensures P.Shape(x.env, x.ws[t]) && P.Enabled(x.env, x.ws[t], x.steps[t])
    ensures x.ws[t + 1] == P.Apply(x.env, x.ws[t], x.steps[t])
    ensures Lives(x, t + 1, h) && GoesOn(SessionAt(x, t), SessionAt(x, t + 1), x.steps[t], x.sid)
  {
    hide P.Shape, P.Enabled, P.Apply, P.Initial, GoesOn, Invariants.Base;
    EveryStepGoesOn(x.env, x.ws[t], x.steps[t], x.sid);
    Invariants.RunKeepsBase(x.env, x.ws, x.steps, t + 1);
    Durability.HandleIs(x.env, x.ws[t + 1], x.sid);
    SameHandle(SessionAt(x, t), x.ws[t + 1].sessions[x.sid], x.steps[t], x.sid);
  }

  lemma SameHandle(s: P.Session, s': P.Session, step: P.Step, sid: nat)
    requires GoesOn(s, s', step, sid)
    ensures s'.handle == s.handle && s'.repo == s.repo
  {}

  /** The pipeline's own steps. */
  lemma OwnStepKeepsMirror(x: History, h: Handle, chunks: seq<Bytes>, e: Surroundings, workers: nat,
      p: PipelineState, step: PipelineStep, task: nat -> nat, t: nat)
    requires Lives(x, t, h) && Mirrors(SessionAt(x, t), chunks, task, p)
    requires Enabled(ChunkPool(h, e, chunks, workers), p, step) && Happens(x, h, chunks, e, p, step, task, t)
    ensures var p', t' := Apply(ChunkPool(h, e, chunks, workers), p, step), t + if Operates(step) then 1 else 0;
            Lives(x, t', h) && Mirrors(SessionAt(x, t'), chunks, task, p')
  {
    hide P.Shape, P.Enabled, P.Apply, Mirrors, Apply, Happens, GoesOn;
    if step.Take? {
      TakeKeepsMirror(x, h, chunks, e, workers, p, step.w, task, t);
    } else if step.Proceed? {
      ProceedKeepsMirror(x, h, chunks, e, workers, p, step, task, t);
    } else if step.Complete? && step.outcome.Put? {
      CompleteKeepsMirror(x, h, chunks, e, workers, p, step, task, t);
    } else {
      MoveKeepsMirror(SessionAt(x, t), h, chunks, e, workers, p, step, task);
    }
  }

  lemma SpawnIs(env: P.Env, w: P.World, sid: nat, d: Bytes)
    requires P.Shape(env, w) && P.Enabled(env, w, P.Spawn(sid, d)) && sid in w.sessions
    ensures var w' := P.Apply(env, w, P.Spawn(sid, d));
            sid in w'.sessions && w'.sessions[sid].tasks == w.sessions[sid].tasks + [P.Task(d, P.Fetch)]
  {}

  lemma TakeKeepsMirror(x: History, h: Handle, chunks: seq<Bytes>, e: Surroundings, workers: nat,
      p: PipelineState, w: nat, task: nat -> nat, t: nat)
    requires Lives(x, t, h) && Mirrors(SessionAt(x, t), chunks, task, p)
    requires Enabled(ChunkPool(h, e, chunks, workers), p, Take(w)) && Happens(x, h, chunks, e, p, Take(w), task, t)
    ensures Lives(x, t + 1, h)
    ensures Mirrors(SessionAt(x, t + 1), chunks, task, Apply(ChunkPool(h, e, chunks, workers), p, Take(w)))
  {
    hide P.Shape, P.Enabled, P.Apply, GoesOn, IsRecorded, ActInWorld, EndInWorld;
    LivesOn(x, h, t);
    SpawnIs(x.env, x.ws[t], x.sid, chunks[p.work[0]]);
    RecordsStay(SessionAt(x, t), SessionAt(x, t + 1), x.steps[t], x.sid, chunks);
  }

  lemma ProceedKeepsMirror(x: History, h: Handle, chunks: seq<Bytes>, e: Surroundings, workers: nat,
      p: PipelineState, step: PipelineStep, task: nat -> nat, t: nat)
    requires Lives(x, t, h) && Mirrors(SessionAt(x, t), chunks, task, p) && step.Proceed?
    requires Enabled(ChunkPool(h, e, chunks, workers), p, step) && Happens(x, h, chunks, e, p, step, task, t)
    ensures Lives(x, t + 1, h)
    ensures Mirrors(SessionAt(x, t + 1), chunks, task, Apply(ChunkPool(h, e, chunks, workers), p, step))
  {
    hide P.Shape, P.Enabled, P.Apply, GoesOn, IsRecorded, EndInWorld, Act, NextPhase;
    LivesOn(x, h, t);
    var k, worker := task(p.workers[step.w].job), p.workers[step.w];
    AdvanceIsNext(x.env, x.ws[t], x.sid, k);
    OperationIsNext(h, e, chunks[worker.job], worker.phase, StoreAt(x, t));
    RecordsStay(SessionAt(x, t), SessionAt(x, t + 1), x.steps[t], x.sid, chunks);
  }

  lemma CompleteKeepsMirror(x: History, h: Handle, chunks: seq<Bytes>, e: Surroundings, workers: nat,
      p: PipelineState, step: PipelineStep, task: nat -> nat, t: nat)
    requires Lives(x, t, h) && Mirrors(SessionAt(x, t), chunks, task, p) && step.Complete? && step.outcome.Put?
    requires Enabled(ChunkPool(h, e, chunks, workers), p, step) && Happens(x, h, chunks, e, p, step, task, t)
    ensures Lives(x, t + 1, h)
    ensures Mirrors(SessionAt(x, t + 1), chunks, task, Apply(ChunkPool(h, e, chunks, workers), p, step))
  {
    hide P.Shape, P.Enabled, P.Apply, GoesOn, ActInWorld, EndInWorld, End, NextPhase;
    LivesOn(x, h, t);
    var k, worker := task(p.workers[step.w].job), p.workers[step.w];
    AdvanceIsNext(x.env, x.ws[t], x.sid, k);
    OperationIsNext(h, e, chunks[worker.job], worker.phase, StoreAt(x, t));
    RecordsStay(SessionAt(x, t), SessionAt(x, t + 1), x.steps[t], x.sid, chunks);
    assert SessionAt(x, t + 1).tasks[k] == P.Task(chunks[worker.job], P.Stored);
  }

  lemma MoveKeepsMirror(s: P.Session, h: Handle, chunks: seq<Bytes>, e: Surroundings, workers: nat,
      p: PipelineState, step: PipelineStep, task: nat -> nat)
    requires Mirrors(s, chunks, task, p) && Enabled(ChunkPool(h, e, chunks, workers), p, step) && !Operates(step)
    ensures Mirrors(s, chunks, task, Apply(ChunkPool(h, e, chunks, workers), p, step))
  {
    hide ActInWorld, EndInWorld, AllExited;
  }

  /** While the run goes on to the next step of the pipeline. */
  lemma {:induction false} WaitKeepsMirror(x: History, h: Handle, chunks: seq<Bytes>, task: nat -> nat,
      p: PipelineState, t: nat, t': nat)
    requires Lives(x, t, h) && t <= t' <= x.n && Mirrors(SessionAt(x, t), chunks, task, p)
    requires Waits(x, p, task, t, t')
    ensures Lives(x, t', h) && Mirrors(SessionAt(x, t'), chunks, task, p)
    decreases t' - t
  {
    hide Lives, Mirrors, Spares, IsHistory;
    if t < t' {
      assert Spares(x, p, task, t);
      OthersKeepMirror(x, h, chunks, task, p, t);
      WaitKeepsMirror(x, h, chunks, task, p, t + 1, t');
    }
  }

  /** At every step of the pipeline the session has recorded what it has done. */
  lemma {:induction false} RunKeepsMirror(x: History, h: Handle, chunks: seq<Bytes>, e: Surroundings, workers: nat,
      ss: ChunkRun, steps: ChunkSteps, tr: Trace, i: nat)
    requires Pool.IsRun(ChunkPool(h, e, chunks, workers), ss, steps) && Traced(x, h, chunks, e, ss, steps, tr)
    requires i <= |steps|
    ensures Lives(x, tr.at[i], h) && Mirrors(SessionAt(x, tr.at[i]), chunks, tr.task, ss[i])
  {
    hide Lives, Mirrors, Happens, Waits, Enabled, Apply;
    if i == 0 {
      NothingMirrored(x, h, chunks, e, workers, ss[0], tr.task, tr.at[0]);
    } else {
      RunKeepsMirror(x, h, chunks, e, workers, ss, steps, tr, i - 1);
      TimesGrow(x, h, chunks, e, ss, steps, tr, i);
      OwnStepKeepsMirror(x, h, chunks, e, workers, ss[i - 1], steps[i - 1], tr.task, tr.at[i - 1]);
      WaitKeepsMirror(x, h, chunks, tr.task, ss[i], tr.at[i - 1] + (if Operates(steps[i - 1]) then 1 else 0), tr.at[i]);
    }
  }

  lemma NothingMirrored(x: History, h: Handle, chunks: seq<Bytes>, e: Surroundings, workers: nat,
      p: PipelineState, task: nat -> nat, t: nat)
    requires Lives(x, t, h) && Initial(ChunkPool(h, e, chunks, workers), p)
    ensures Mirrors(SessionAt(x, t), chunks, task, p)
  {}

  lemma {:induction false} TimesGrow(x: History, h: Handle, chunks: seq<Bytes>, e: Surroundings, ss: ChunkRun,
      steps: ChunkSteps, tr: Trace, i: nat)
    requires Traced(x, h, chunks, e, ss, steps, tr) && i <= |steps|
    ensures tr.at[i] <= x.n
    decreases |steps| - i
  {
    hide Happens, Waits, Lives;
    if i < |steps| {
      TimesGrow(x, h, chunks, e, ss, steps, tr, i + 1);
    }
  }

  /** When a pipeline has come to its end without a failure, the session has
      recorded a stored task for every chunk. */
  lemma TracedIsStored(x: History, h: Handle, chunks: seq<Bytes>, e: Surroundings, workers: nat, ss: ChunkRun,
      steps: ChunkSteps, tr: Trace, d: Bytes)
    requires workers >= 1 && Pool.IsRun(ChunkPool(h, e, chunks, workers), ss, steps) && Final(ss[|steps|])
    requires Traced(x, h, chunks, e, ss, steps, tr) && !AnyFailed(ss[|steps|].collected) && d in chunks
    ensures Lives(x, tr.at[|steps|], h) && P.Task(d, P.Stored) in SessionAt(x, tr.at[|steps|]).tasks
  {
    hide WellFormed, Inv, Enabled, Apply, Happens, Waits;
    var sys, end := ChunkPool(h, e, chunks, workers), ss[|steps|];
    ChunkPoolWellFormed(h, e, chunks, workers);
    RunKeepsInv(sys, ss, steps, |steps|);
    FinalCollectsAll(sys, end);
    CollectedOnce(chunks, end.collected);
    RunKeepsMirror(x, h, chunks, e, workers, ss, steps, tr, |steps|);
    var i :| 0 <= i < |chunks| && chunks[i] == d;
    assert i in JobSet(end.collected);
    var r :| r in end.collected && r.job == i;
    assert IsRecorded(SessionAt(x, tr.at[|steps|]), chunks, r);
  }

  /** What is recorded stays recorded until the end of the history. */
  lemma {:induction false} RecordedUntilTheEnd(x: History, h: Handle, t: nat, task: P.Task)
    requires Lives(x, t, h) && task.phase.Stored? && task in SessionAt(x, t).tasks
    ensures Lives(x, x.n, h) && task in SessionAt(x, x.n).tasks
    decreases x.n - t
  {
    hide P.Shape, P.Enabled, P.Apply;
    if t < x.n {
      LivesOn(x, h, t);
      var k :| 0 <= k < |SessionAt(x, t).tasks| && SessionAt(x, t).tasks[k] == task;
      assert SessionAt(x, t + 1).tasks[k] == task;
      RecordedUntilTheEnd(x, h, t + 1, task);
    }
  }
}
