/** The writer lock over whole runs, with nothing assumed about which locks are
    judged stale: exclusion, and exactly how it can be lost. */
module Locks {
  import opened Chunker
  import opened Model
  import opened Protocol
  import opened Invariants
  import Keys

  /** The command `sid` holds the version now stored under `write.lock`. */
  ghost predicate Current(w: World, r: nat, sid: nat) {
    && sid in w.sessions && w.sessions[sid].repo == r < |w.repos|
    && LockKey in w.repos[r]
    && LockVersion(w.sessions[sid].pc) == Some(w.repos[r][LockKey].version)
  }

  /** Mutual exclusion: in every state of every run at most one command holds
      the stored version. */
  lemma AtMostOneHoldsTheLock(env: Env, ws: seq<World>, steps: seq<Step>, n: nat, r: nat, a: nat, b: nat)
    requires IsRun(env, ws, steps) && n < |ws|
    requires Current(ws[n], r, a) && Current(ws[n], r, b)
    ensures a == b
  {
    hide IsRun;
    RunKeepsBase(env, ws, steps, n);
  }

  predicate IsLockStep(step: Step) {
    step.TryLock? || step.Inspect? || step.Evict? || step.Release?
  }

  /** The lock objects are the same, and so are all claims but the actor's,
      which may be dropped. */
  ghost predicate LocksSame(w: World, w': World, actor: nat) {
    && |w'.repos| == |w.repos| && w.clock <= w'.clock
    && (forall r :: 0 <= r < |w.repos| ==> LockOf(w', r) == LockOf(w, r))
    && w'.sessions.Keys <= w.sessions.Keys + {actor}
    && (forall b :: b in w.sessions ==> b in w'.sessions && w'.sessions[b].repo == w.sessions[b].repo)
    && (forall b :: b in w'.sessions && b !in w.sessions ==> LockVersion(w'.sessions[b].pc) == None)
    && (forall b :: b in w.sessions && b != actor ==> w'.sessions[b] == w.sessions[b])
  }

  ghost function LockOf(w: World, r: nat): Option<nat>
    requires r < |w.repos|
  {
    if LockKey in w.repos[r] then Some(w.repos[r][LockKey].version) else None
  }

  /** The steps outside the lock protocol leave locks and claims alone. */
  lemma OtherStepsLeaveLocksAlone(env: Env, w: World, step: Step)
    requires Shape(env, w) && Enabled(env, w, step) && !IsLockStep(step)
    ensures LocksSame(w, Apply(env, w, step), step.sid)
    ensures step.sid in Apply(env, w, step).sessions
    ensures step.sid in w.sessions ==>
              LockVersion(Apply(env, w, step).sessions[step.sid].pc) ==
                if step.Crash? then None else LockVersion(w.sessions[step.sid].pc)
  {
    hide Enabled, Shape, BeginStep, TaskStep, CollectStep, DeleteStep, CopyStep, RotateStep, PublishManifest;
    if step.Begin? {
      BeginLeavesLocksAlone(env, w, step);
    } else if step.Spawn? || step.Advance? {
      TaskLeavesLocksAlone(env, w, step);
    } else if step.ListManifests? || step.ReadNext? || step.ListChunks? || step.SweepNext? {
      CollectLeavesLocksAlone(env, w, step);
    } else if step.Resolve? || step.Unpublish? {
      DeleteLeavesLocksAlone(env, w, step);
    } else if step.FetchVersion? || step.Swap? {
      RotateLeavesLocksAlone(env, w, step);
    } else if step.Compare? || step.CopyChunk? || step.PublishCopy? {
      CopyLeavesLocksAlone(env, w, step);
    } else {
      PublishOrLeaveLeavesLocksAlone(env, w, step);
    }
  }

  lemma BeginLeavesLocksAlone(env: Env, w: World, step: Step)
    requires Shape(env, w) && Enabled(env, w, step) && step.Begin?
    ensures step.sid !in w.sessions && step.sid in BeginStep(env, w, step).sessions
    ensures LocksSame(w, BeginStep(env, w, step), step.sid)
  {
    hide OpenRepository;
  }

  lemma CollectLeavesLocksAlone(env: Env, w: World, step: Step)
    requires Shape(env, w) && Enabled(env, w, step)
    requires step.ListManifests? || step.ReadNext? || step.ListChunks? || step.SweepNext?
    ensures step.sid in w.sessions && LocksSame(w, CollectStep(env, w, step), step.sid)
    ensures LockVersion(CollectStep(env, w, step).sessions[step.sid].pc) == LockVersion(w.sessions[step.sid].pc)
  {
    hide Shape, CollectStep, LocksSame, LockVersion;
    if step.SweepNext? {
      SweepLeavesLocksAlone(env, w, step);
    } else if step.ReadNext? {
      ReadLeavesLocksAlone(env, w, step);
    } else {
      ListLeavesLocksAlone(env, w, step);
    }
  }

  lemma MoveLeavesLocksAlone(w: World, sid: nat, pc: Pc)
    requires sid in w.sessions
    ensures LocksSame(w, Move(w, sid, pc), sid)
  {}

  lemma CollectorWorks(env: Env, w: World, step: Step)
    requires Enabled(env, w, step) && (step.ListManifests? || step.ReadNext? || step.ListChunks? || step.SweepNext?)
    ensures HasWork(w, step.sid)
  {}

  lemma SweepLeavesLocksAlone(env: Env, w: World, step: Step)
    requires Shape(env, w) && Enabled(env, w, step) && step.SweepNext?
    ensures LocksSame(w, CollectStep(env, w, step), step.sid)
    ensures LockVersion(CollectStep(env, w, step).sessions[step.sid].pc) == LockVersion(w.sessions[step.sid].pc)
  {}

  lemma ReadLeavesLocksAlone(env: Env, w: World, step: Step)
    requires Shape(env, w) && Enabled(env, w, step) && step.ReadNext?
    ensures LocksSame(w, CollectStep(env, w, step), step.sid)
    ensures LockVersion(CollectStep(env, w, step).sessions[step.sid].pc) == LockVersion(w.sessions[step.sid].pc)
  {
    hide ReadManifest, RefIds, Enabled, Shape, LocksSame;
    CollectorWorks(env, w, step);
    var s := w.sessions[step.sid];
    var pc := CollectStep(env, w, step).sessions[step.sid].pc;
    assert CollectStep(env, w, step) == Move(w, step.sid, pc);
    MoveLeavesLocksAlone(w, step.sid, pc);
  }

  lemma ListLeavesLocksAlone(env: Env, w: World, step: Step)
    requires Shape(env, w) && Enabled(env, w, step) && (step.ListManifests? || step.ListChunks?)
    ensures LocksSame(w, CollectStep(env, w, step), step.sid)
    ensures LockVersion(CollectStep(env, w, step).sessions[step.sid].pc) == LockVersion(w.sessions[step.sid].pc)
  {
    hide PublishedIds, Enabled, Shape, LocksSame;
    CollectorWorks(env, w, step);
    var pc := CollectStep(env, w, step).sessions[step.sid].pc;
    assert CollectStep(env, w, step) == Move(w, step.sid, pc);
    MoveLeavesLocksAlone(w, step.sid, pc);
  }

  lemma DeleteLeavesLocksAlone(env: Env, w: World, step: Step)
    requires Shape(env, w) && Enabled(env, w, step) && (step.Resolve? || step.Unpublish?)
    ensures step.sid in w.sessions && LocksSame(w, DeleteStep(env, w, step), step.sid)
    ensures LockVersion(DeleteStep(env, w, step).sessions[step.sid].pc) == LockVersion(w.sessions[step.sid].pc)
  {
    hide ReadManifest, Enabled;
    DeleterWorks(env, w, step);
  }

  lemma DeleterWorks(env: Env, w: World, step: Step)
    requires Enabled(env, w, step) && (step.Resolve? || step.Unpublish?)
    ensures HasWork(w, step.sid) && (step.Unpublish? ==> w.sessions[step.sid].pc.work.Unpublishing?)
  {}

  lemma RotateLeavesLocksAlone(env: Env, w: World, step: Step)
    requires Shape(env, w) && Enabled(env, w, step) && (step.FetchVersion? || step.Swap?)
    ensures step.sid in w.sessions && LocksSame(w, RotateStep(env, w, step), step.sid)
    ensures LockVersion(RotateStep(env, w, step).sessions[step.sid].pc) == LockVersion(w.sessions[step.sid].pc)
  {
    hide Keys.Rewrap;
  }

  lemma CopyLeavesLocksAlone(env: Env, w: World, step: Step)
    requires Shape(env, w) && Enabled(env, w, step)
    requires step.Compare? || step.CopyChunk? || step.PublishCopy?
    ensures step.sid in w.sessions && LocksSame(w, CopyStep(env, w, step), step.sid)
    ensures LockVersion(CopyStep(env, w, step).sessions[step.sid].pc) == LockVersion(w.sessions[step.sid].pc)
  {
    hide Shape, Enabled, LocksSame, PublishManifest, ReadManifest, ReadChunk;
    CopierWorks(env, w, step);
    var s := w.sessions[step.sid];
    if step.PublishCopy? {
      PublishLeavesLocksAlone(w, step.sid, s.pc.work.copy.manifest, s.pc.work.copy.origin, Comparing(s.pc.work.rest));
    } else {
      var w' := CopyStep(env, w, step);
      var s' := w'.sessions[step.sid];
      assert w' == w.(sessions := w.sessions[step.sid := s'], occurred := w'.occurred);
      SessionLeavesLocksAlone(w, step.sid, s', w'.occurred);
    }
  }

  lemma CopierWorks(env: Env, w: World, step: Step)
    requires Enabled(env, w, step) && (step.Compare? || step.CopyChunk? || step.PublishCopy?)
    ensures HasWork(w, step.sid)
    ensures step.Compare? ==> w.sessions[step.sid].pc.work.Comparing?
    ensures step.PublishCopy? ==> w.sessions[step.sid].pc.work.Copying?
  {
    hide RefIds;
  }

  lemma SessionLeavesLocksAlone(w: World, sid: nat, s: Session, occurred: set<Bytes>)
    requires sid in w.sessions && s.repo == w.sessions[sid].repo
    ensures LocksSame(w, w.(sessions := w.sessions[sid := s], occurred := occurred), sid)
  {}

  lemma PublishOrLeaveLeavesLocksAlone(env: Env, w: World, step: Step)
    requires Shape(env, w) && Enabled(env, w, step)
    requires step.Publish? || step.Leave? || step.Crash?
    ensures step.sid in w.sessions && LocksSame(w, Apply(env, w, step), step.sid)
    ensures LockVersion(Apply(env, w, step).sessions[step.sid].pc) ==
              if step.Crash? then None else LockVersion(w.sessions[step.sid].pc)
  {
    hide IsBackup, PublishManifest;
    if step.Publish? {
      PublishLeavesLocksAlone(w, step.sid, step.manifest, step.origin, BackingUp);
    }
  }

  lemma TaskLeavesLocksAlone(env: Env, w: World, step: Step)
    requires Shape(env, w) && Enabled(env, w, step) && (step.Spawn? || step.Advance?)
    ensures step.sid in w.sessions && LocksSame(w, TaskStep(env, w, step), step.sid)
    ensures LockVersion(TaskStep(env, w, step).sessions[step.sid].pc) == LockVersion(w.sessions[step.sid].pc)
  {
    hide ReadChunk, StoredChunk, ValidChunkId, LockVersion;
  }

  lemma PublishLeavesLocksAlone(w: World, sid: nat, m: Manifest, origin: Origin, after: Work)
    requires HasWork(w, sid)
    ensures LocksSame(w, PublishManifest(w, sid, m, origin, after), sid)
    ensures LockVersion(PublishManifest(w, sid, m, origin, after).sessions[sid].pc) == LockVersion(w.sessions[sid].pc)
  {
    hide StoredManifest;
  }

  /** The eviction finds the version it was told to remove. */
  ghost predicate Hits(w: World, step: Step) {
    && step.Evict? && step.sid in w.sessions && w.sessions[step.sid].pc.Evicting?
    && w.sessions[step.sid].repo < |w.repos|
    && LockKey in w.repos[w.sessions[step.sid].repo]
    && w.repos[w.sessions[step.sid].repo][LockKey].version == w.sessions[step.sid].pc.target
  }

  /** No step of another command takes the lock from its holder, except a stale
      recovery that removes exactly that version. In particular the `release` of
      a superseded holder never does. */
  lemma OnlyEvictionTakesTheLock(env: Env, w: World, step: Step, r: nat, b: nat)
    requires Base(env, w) && Shape(env, w) && Enabled(env, w, step)
    requires Current(w, r, b) && step.sid != b
    requires !(Hits(w, step) && w.sessions[step.sid].repo == r)
    ensures Current(Apply(env, w, step), r, b)
    ensures Apply(env, w, step).sessions[b] == w.sessions[b]
  {
    hide RepoOk, SessionOk;
    hide Apply, Shape, Enabled;
    if IsLockStep(step) {
      var base, pc := LockStepIs(env, w, step);
    } else {
      OtherStepsLeaveLocksAlone(env, w, step);
      assert LockOf(Apply(env, w, step), r) == LockOf(w, r);
    }
  }

  /** Its own steps end a holder's claim only by releasing or crashing. */
  lemma HolderKeepsTheLock(env: Env, w: World, step: Step, r: nat)
    requires Shape(env, w) && Enabled(env, w, step)
    requires Current(w, r, step.sid) && !step.Release? && !step.Crash?
    ensures Current(Apply(env, w, step), r, step.sid)
  {
    hide Apply;
    if !IsLockStep(step) {
      OtherStepsLeaveLocksAlone(env, w, step);
      assert LockOf(Apply(env, w, step), r) == LockOf(w, r);
    }
  }

  /** Whoever claims a version obtained it by creating that very lock object. */
  lemma ClaimsAreCreated(env: Env, w: World, step: Step, b: nat)
    requires Shape(env, w) && Enabled(env, w, step)
    requires b in Apply(env, w, step).sessions && LockVersion(Apply(env, w, step).sessions[b].pc).Some?
    requires !(b in w.sessions && LockVersion(w.sessions[b].pc) == LockVersion(Apply(env, w, step).sessions[b].pc))
    ensures step == TryLock(b) && b in w.sessions
    ensures Current(Apply(env, w, step), w.sessions[b].repo, b)
    ensures LockVersion(Apply(env, w, step).sessions[b].pc) == Some(w.clock)
  {
    hide Apply, Enabled, Shape;
    if IsLockStep(step) {
      var base, pc := LockStepIs(env, w, step);
    } else {
      OtherStepsLeaveLocksAlone(env, w, step);
    }
  }

  /** Some earlier step evicted version v of repository r. */
  ghost predicate Evicted(ws: seq<World>, steps: seq<Step>, n: nat, r: nat, v: nat) {
    exists j :: 0 <= j < n && j < |steps| && j < |ws| && EvictsAt(ws[j], steps[j], r, v)
  }

  ghost predicate EvictsAt(w: World, step: Step, r: nat, v: nat) {
    Hits(w, step) && w.sessions[step.sid].repo == r && w.sessions[step.sid].pc.target == v
  }

  /** Exclusivity is lost in exactly one way: a command that still claims version
      v holds the lock, or a stale recovery removed v earlier in the run. */
  lemma {:induction false} LostOnlyByEviction(env: Env, ws: seq<World>, steps: seq<Step>, n: nat, b: nat)
    requires IsRun(env, ws, steps) && n < |ws|
    requires b in ws[n].sessions && LockVersion(ws[n].sessions[b].pc).Some?
    ensures Current(ws[n], ws[n].sessions[b].repo, b)
         || Evicted(ws, steps, n, ws[n].sessions[b].repo, LockVersion(ws[n].sessions[b].pc).value)
  {
    hide Base, Shape, Enabled, Apply, Current, LockVersion, EvictsAt;
    if n > 0 {
      var w, step := ws[n - 1], steps[n - 1];
      RunKeepsBase(env, ws, steps, n - 1);
      if b in w.sessions && LockVersion(w.sessions[b].pc) == LockVersion(ws[n].sessions[b].pc) {
        RepoStays(env, w, step, b);
        LostOnlyByEviction(env, ws, steps, n - 1, b);
        var r, v := ws[n].sessions[b].repo, LockVersion(ws[n].sessions[b].pc).value;
        if Current(w, r, b) {
          LostNow(env, w, step, r, b);
        } else {
          assert Evicted(ws, steps, n - 1, r, v);
        }
      } else {
        ClaimsAreCreated(env, w, step, b);
        RepoStays(env, w, step, b);
      }
    }
  }

  lemma LockStepEffect(env: Env, w: World, step: Step)
    requires Shape(env, w) && Enabled(env, w, step) && IsLockStep(step)
    ensures var w' := Apply(env, w, step);
            && |w'.repos| == |w.repos| && w.clock <= w'.clock
            && w'.sessions.Keys <= w.sessions.Keys
            && (forall b :: b in w.sessions ==> b in w'.sessions && w'.sessions[b].repo == w.sessions[b].repo)
            && (forall r :: 0 <= r < |w.repos| ==> LockOf(w', r) in {LockOf(w, r), None, Some(w.clock)})
  {
    hide Enabled, Shape, LockStep, LockVersion;
    var base, pc := LockStepIs(env, w, step);
  }

  /** A lock step moves its own command and at most creates or removes the lock. */
  lemma LockStepIs(env: Env, w: World, step: Step) returns (base: World, pc: Pc)
    requires Shape(env, w) && Enabled(env, w, step) && IsLockStep(step)
    ensures step.sid in w.sessions && w.sessions[step.sid].repo < |w.repos| && base.sessions == w.sessions
    ensures Apply(env, w, step) == LockStep(env, w, step) == Move(base, step.sid, pc)
    ensures LockVersion(pc).Some? ==> step.TryLock? && LockVersion(pc) == Some(w.clock) && base != w
    ensures var r := w.sessions[step.sid].repo;
            || base == w
            || (step.TryLock? && LockKey !in w.repos[r]
                && base == Put(w, r, LockKey, LockContent(LockInfo(step.sid, None))))
            || (Hits(w, step) && base == Remove(w, r, LockKey))
            || (step.Release? && Current(w, r, step.sid) && base == Remove(w, r, LockKey))
  {
    pc := LockStep(env, w, step).sessions[step.sid].pc;
    var r := w.sessions[step.sid].repo;
    base := LockStep(env, w, step).(sessions := w.sessions);
  }

  lemma RepoStays(env: Env, w: World, step: Step, b: nat)
    requires Base(env, w) && Shape(env, w) && Enabled(env, w, step) && b in w.sessions
    ensures b in Apply(env, w, step).sessions && Apply(env, w, step).sessions[b].repo == w.sessions[b].repo
  {
    hide Apply;
    if IsLockStep(step) {
      LockStepEffect(env, w, step);
    } else {
      OtherStepsLeaveLocksAlone(env, w, step);
    }
  }

  lemma LostNow(env: Env, w: World, step: Step, r: nat, b: nat)
    requires Base(env, w) && Shape(env, w) && Enabled(env, w, step) && Current(w, r, b)
    requires b in Apply(env, w, step).sessions
    requires LockVersion(Apply(env, w, step).sessions[b].pc) == LockVersion(w.sessions[b].pc)
    ensures Current(Apply(env, w, step), r, b) || EvictsAt(w, step, r, LockVersion(w.sessions[b].pc).value)
  {
    hide Base, Shape, Enabled;
    if step.sid == b {
      if step.Release? || step.Crash? {
        EndsTheClaim(env, w, step);
      } else {
        HolderKeepsTheLock(env, w, step, r);
      }
    } else if !(Hits(w, step) && w.sessions[step.sid].repo == r) {
      OnlyEvictionTakesTheLock(env, w, step, r, b);
    }
  }

  lemma EndsTheClaim(env: Env, w: World, step: Step)
    requires Shape(env, w) && Enabled(env, w, step) && (step.Release? || step.Crash?)
    ensures step.sid in Apply(env, w, step).sessions && LockVersion(Apply(env, w, step).sessions[step.sid].pc) == None
  {}

  /* ---- versions never come back ---- */

  /** Version v is not stored under the lock of r and can never be again. */
  ghost predicate Retired(w: World, r: nat, v: nat) {
    && r < |w.repos| && v < w.clock
    && (LockKey in w.repos[r] ==> w.repos[r][LockKey].version != v)
  }

  lemma StaysRetired(env: Env, w: World, step: Step, r: nat, v: nat)
    requires Shape(env, w) && Enabled(env, w, step) && Retired(w, r, v)
    ensures Retired(Apply(env, w, step), r, v)
  {
    hide Apply;
    assert LockOf(w, r) != Some(v);
    if IsLockStep(step) {
      LockStepEffect(env, w, step);
    } else {
      OtherStepsLeaveLocksAlone(env, w, step);
    }
    assert LockOf(Apply(env, w, step), r) != Some(v);
  }

  lemma {:induction false} RetiredForever(env: Env, ws: seq<World>, steps: seq<Step>, m: nat, n: nat, r: nat, v: nat)
    requires IsRun(env, ws, steps) && m <= n < |ws| && Retired(ws[m], r, v)
    ensures Retired(ws[n], r, v)
    decreases n - m
  {
    hide Shape, Enabled, Apply, Retired;
    if m < n {
      RetiredForever(env, ws, steps, m, n - 1, r, v);
      StaysRetired(env, ws[n - 1], steps[n - 1], r, v);
    }
  }

  lemma EvictionRetires(env: Env, w: World, step: Step, r: nat, v: nat)
    requires Base(env, w) && Shape(env, w) && Enabled(env, w, step) && EvictsAt(w, step, r, v)
    ensures Retired(Apply(env, w, step), r, v)
  {
    hide ConfigFits, ChunkOk, SnapshotOk;
    assert RepoOk(env, w, r);
    assert ObjectOk(env, w.occurred, w.origins, w.clock, r, LockKey, w.repos[r][LockKey]);
  }

  /** Of all recoverers of one stale lock at most one removes it: every later
      one finds it changed or gone, and its eviction changes no object. */
  lemma OneRecovererWins(env: Env, ws: seq<World>, steps: seq<Step>, i: nat, j: nat, r: nat, v: nat)
    requires IsRun(env, ws, steps) && i < j < |steps|
    requires EvictsAt(ws[i], steps[i], r, v)
    requires steps[j].Evict? && ws[j].sessions[steps[j].sid].repo == r && ws[j].sessions[steps[j].sid].pc.target == v
    ensures !Hits(ws[j], steps[j])
    ensures ws[j + 1].repos == ws[j].repos
  {
    hide Base, EvictsAt, Retired;
    RunKeepsBase(env, ws, steps, i);
    EvictionRetires(env, ws[i], steps[i], r, v);
    RetiredForever(env, ws, steps, i + 1, j, r, v);
    LateEviction(env, ws[j], steps[j], r, v);
  }

  lemma LateEviction(env: Env, w: World, step: Step, r: nat, v: nat)
    requires Shape(env, w) && Enabled(env, w, step) && Retired(w, r, v)
    requires step.Evict? && w.sessions[step.sid].repo == r && w.sessions[step.sid].pc.target == v
    ensures !Hits(w, step) && Apply(env, w, step).repos == w.repos
  {}

  /** A lock version belongs to one command for the whole run. */
  lemma VersionsAreNeverShared(env: Env, ws: seq<World>, steps: seq<Step>, m: nat, n: nat, a: nat, b: nat)
    requires IsRun(env, ws, steps) && m <= n < |ws|
    requires a in ws[m].sessions && b in ws[n].sessions
    requires LockVersion(ws[m].sessions[a].pc).Some?
    requires LockVersion(ws[m].sessions[a].pc) == LockVersion(ws[n].sessions[b].pc)
    ensures a == b
  {
    hide IsRun, RepoOk, LockVersion, ConfigFits, CopyOk;
    RunKeepsBase(env, ws, steps, m);
    assert SessionOk(env, ws[m].occurred, ws[m].clock, ws[m].sessions[a]);
    if a != b {
      NeverClaims(env, ws, steps, m, n, b, LockVersion(ws[m].sessions[a].pc).value);
    }
  }

  ghost predicate Claims(w: World, b: nat, v: nat) {
    b in w.sessions && LockVersion(w.sessions[b].pc) == Some(v)
  }

  lemma {:induction false} NeverClaims(env: Env, ws: seq<World>, steps: seq<Step>, m: nat, n: nat, b: nat, v: nat)
    requires IsRun(env, ws, steps) && m <= n < |ws| && v < ws[m].clock && !Claims(ws[m], b, v)
    ensures !Claims(ws[n], b, v) && v < ws[n].clock
    decreases n - m
  {
    hide Base, Shape, Enabled, Apply, LockVersion;
    if m < n {
      NeverClaims(env, ws, steps, m, n - 1, b, v);
      RunKeepsBase(env, ws, steps, n - 1);
      ClockGrows(env, ws[n - 1], steps[n - 1]);
      if Claims(ws[n], b, v) {
        ClaimsAreCreated(env, ws[n - 1], steps[n - 1], b);
      }
    }
  }

  lemma ClockGrows(env: Env, w: World, step: Step)
    requires Shape(env, w) && Enabled(env, w, step)
    ensures w.clock <= Apply(env, w, step).clock
  {
    hide Apply;
    if IsLockStep(step) {
      LockStepEffect(env, w, step);
    } else {
      OtherStepsLeaveLocksAlone(env, w, step);
    }
  }
}
