/** The write lock over a store that deletes conditionally in two steps, as the
    local store does: it reads and compares, and then removes whatever is there. */
module LocalLock {
  import opened Model

  /** One command: trying to create the lock, looking at an existing one, about to
      compare or to remove it, at work, or about to compare and remove its own. */
  datatype Pc =
    | Trying(attempt: nat)
    | Inspecting(attempt: nat)
    | Comparing(attempt: nat, target: nat)
    | Removing(attempt: nat, target: nat)
    | Working(version: nat)
    | Releasing(version: nat)
    | Unlinking(version: nat)
    | Ended
    | Crashed

  /** The version under write.lock, the next version, who created which, and the
      commands. */
  datatype State = State(lock: Option<nat>, clock: nat, owners: map<nat, nat>, pcs: seq<Pc>)

  datatype Step =
    | TryLock(i: nat)
    | Inspect(i: nat, stale: bool)
    | Compare(i: nat)
    | Remove(i: nat)
    | Leave(i: nat)
    | CompareOwn(i: nat)
    | Unlink(i: nat)
    | Crash(i: nat)

  /** Which commands may recover a stale lock, and whether a conditional delete is
      one step. */
  datatype Setting = Setting(atomic: bool, may: seq<bool>)

  function Retry(attempt: nat): Pc {
    if attempt + 1 < 2 then Trying(attempt + 1) else Ended
  }

  function Move(s: State, i: nat, pc: Pc): State
    requires i < |s.pcs|
  {
    s.(pcs := s.pcs[i := pc])
  }

  predicate Enabled(x: Setting, s: State, step: Step) {
    && step.i < |s.pcs| == |x.may|
    && match step
       case TryLock(i) => s.pcs[i].Trying?
       case Inspect(i, _) => s.pcs[i].Inspecting?
       case Compare(i) => s.pcs[i].Comparing?
       case Remove(i) => s.pcs[i].Removing?
       case Leave(i) => s.pcs[i].Working?
       case CompareOwn(i) => s.pcs[i].Releasing?
       case Unlink(i) => s.pcs[i].Unlinking?
       case Crash(i) => true
  }

  /** A delete after the comparison. In one step it can only remove what was
      compared. */
  function Deleted(x: Setting, s: State, target: nat): Option<nat> {
    if x.atomic && s.lock != Some(target) then s.lock else None
  }

  function Apply(x: Setting, s: State, step: Step): State
    requires Enabled(x, s, step)
  {
    var pc := s.pcs[step.i];
    match step
    case TryLock(i) =>
      if s.lock.None? then
        Move(s.(lock := Some(s.clock), clock := s.clock + 1, owners := s.owners[s.clock := i]), i, Working(s.clock))
      else Move(s, i, if x.may[i] then Inspecting(pc.attempt) else Ended)
    case Inspect(i, stale) =>
      if s.lock.None? then Move(s, i, Retry(pc.attempt))
      else Move(s, i, if stale then Comparing(pc.attempt, s.lock.value) else Ended)
    case Compare(i) =>
      Move(s, i, if s.lock == Some(pc.target) then Removing(pc.attempt, pc.target) else Retry(pc.attempt))
    case Remove(i) => Move(s.(lock := Deleted(x, s, pc.target)), i, Retry(pc.attempt))
    case Leave(i) => Move(s, i, Releasing(pc.version))
    case CompareOwn(i) => Move(s, i, if s.lock == Some(pc.version) then Unlinking(pc.version) else Ended)
    case Unlink(i) => Move(s.(lock := Deleted(x, s, pc.version)), i, Ended)
    case Crash(i) => Move(s, i, Crashed)
  }

  /** A lock is taken for stale only when its writer has crashed. */
  predicate Respects(s: State, step: Step) {
    step.Inspect? && step.stale && s.lock.Some? ==>
      && s.lock.value in s.owners && s.owners[s.lock.value] < |s.pcs|
      && s.pcs[s.owners[s.lock.value]].Crashed?
  }

  predicate Initial(x: Setting, s: State) {
    s.lock.None? && s.owners == map[] && |s.pcs| == |x.may| && forall i :: 0 <= i < |s.pcs| ==> s.pcs[i] == Trying(0)
  }

  predicate IsRun(x: Setting, ss: seq<State>, steps: seq<Step>) {
    && |ss| == |steps| + 1 && Initial(x, ss[0])
    && forall k :: 0 <= k < |steps| ==>
         Enabled(x, ss[k], steps[k]) && Respects(ss[k], steps[k]) && ss[k + 1] == Apply(x, ss[k], steps[k])
  }

  /** The command believes that it holds the lock. */
  predicate Holds(s: State, i: nat) {
    i < |s.pcs| && (s.pcs[i].Working? || s.pcs[i].Releasing? || s.pcs[i].Unlinking?)
  }

  predicate Exclusive(s: State) {
    forall i, j :: 0 <= i < j < |s.pcs| ==> !(Holds(s, i) && Holds(s, j))
  }

  /** No two commands may recover. */
  predicate OneRecovers(x: Setting) {
    forall i, j :: 0 <= i < j < |x.may| ==> !(x.may[i] && x.may[j])
  }

  /* ---- where the lock excludes ---- */

  predicate CrashedOwner(s: State, version: nat) {
    version in s.owners && s.owners[version] < |s.pcs| && s.pcs[s.owners[version]].Crashed?
  }

  /** Who believes to hold the lock holds it; what a recovery is after belongs to a
      crashed command, and in two steps is still there when it is removed. */
  predicate Fits(x: Setting, s: State, i: nat)
    requires i < |s.pcs| == |x.may|
  {
    match s.pcs[i]
    case Inspecting(_) => x.may[i]
    case Comparing(_, target) => x.may[i] && CrashedOwner(s, target)
    case Removing(_, target) => x.may[i] && CrashedOwner(s, target) && (x.atomic || s.lock == Some(target))
    case Working(version) => Owns(s, i, version)
    case Releasing(version) => Owns(s, i, version)
    case Unlinking(version) => Owns(s, i, version)
    case _ => true
  }

  predicate Owns(s: State, i: nat, version: nat) {
    s.lock == Some(version) && version in s.owners && s.owners[version] == i
  }

  predicate Inv(x: Setting, s: State) {
    && |s.pcs| == |x.may| && (forall v :: v in s.owners ==> v < s.clock)
    && forall i: nat :: i < |s.pcs| ==> Fits(x, s, i)
  }

  /** A command that has not moved still fits, if the lock has not either. */
  lemma OthersFit(x: Setting, s: State, s': State, i: nat, j: nat)
    requires i < |s.pcs| == |x.may| == |s'.pcs| && j < |s.pcs| && i != j && s'.pcs == s.pcs[i := s'.pcs[i]]
    requires (s.pcs[i].Crashed? ==> s'.pcs[i].Crashed?) && s'.owners == s.owners
    requires Fits(x, s, j) && (s'.lock == s.lock || (!Holds(s, j) && (x.atomic || !s.pcs[j].Removing?)))
    ensures Fits(x, s', j)
  {}

  /** Steps that leave the lock alone. */
  lemma MoveKeepsInv(x: Setting, s: State, step: Step)
    requires Inv(x, s) && Enabled(x, s, step) && Respects(s, step)
    requires Apply(x, s, step).lock == s.lock && Apply(x, s, step).owners == s.owners
    ensures Inv(x, Apply(x, s, step))
  {
    hide Fits;
    var s' := Apply(x, s, step);
    forall j: nat | j < |s'.pcs|
      ensures Fits(x, s', j)
    {
      assert Fits(x, s, j);
      if j == step.i {
        MoverFits(x, s, step);
      } else {
        OthersFit(x, s, s', step.i, j);
      }
    }
  }

  lemma MoverFits(x: Setting, s: State, step: Step)
    requires Inv(x, s) && Enabled(x, s, step) && Respects(s, step)
    requires Apply(x, s, step).lock == s.lock && Apply(x, s, step).owners == s.owners
    ensures Fits(x, Apply(x, s, step), step.i)
  {
    assert Fits(x, s, step.i);
  }

  /** Creating the lock, where nobody holds one. */
  lemma AcquireKeepsInv(x: Setting, s: State, i: nat)
    requires Inv(x, s) && Enabled(x, s, TryLock(i)) && s.lock.None?
    ensures Inv(x, Apply(x, s, TryLock(i)))
  {
    var s' := Apply(x, s, TryLock(i));
    forall j: nat | j < |s'.pcs|
      ensures Fits(x, s', j)
    {
      assert Fits(x, s, j);
    }
  }

  /** Removing the lock, which belongs to a crashed command or to the one that
      removes it. */
  lemma DeleteKeepsInv(x: Setting, s: State, step: Step)
    requires Inv(x, s) && Enabled(x, s, step) && (x.atomic || OneRecovers(x))
    requires (step.Remove? || step.Unlink?) && Apply(x, s, step).lock != s.lock
    ensures Inv(x, Apply(x, s, step))
  {
    hide Fits, OneRecovers;
    var s' := Apply(x, s, step);
    forall j: nat | j < |s'.pcs|
      ensures Fits(x, s', j)
    {
      assert Fits(x, s, j) && Fits(x, s, step.i);
      if j == step.i {
        DeleterFits(x, s, step);
      } else {
        OthersDoNotHold(x, s, step, j);
        OthersFit(x, s, s', step.i, j);
      }
    }
  }

  lemma DeleterFits(x: Setting, s: State, step: Step)
    requires Enabled(x, s, step) && (step.Remove? || step.Unlink?)
    ensures Fits(x, Apply(x, s, step), step.i)
  {}

  lemma OthersDoNotHold(x: Setting, s: State, step: Step, j: nat)
    requires Enabled(x, s, step) && j < |s.pcs| && j != step.i && (x.atomic || OneRecovers(x))
    requires (step.Remove? || step.Unlink?) && Apply(x, s, step).lock != s.lock && Fits(x, s, j) && Fits(x, s, step.i)
    ensures !Holds(s, j) && (x.atomic || !s.pcs[j].Removing?)
  {}

  lemma StepKeepsInv(x: Setting, s: State, step: Step)
    requires Inv(x, s) && Enabled(x, s, step) && Respects(s, step) && (x.atomic || OneRecovers(x))
    ensures Inv(x, Apply(x, s, step))
  {
    hide Inv, Respects, OneRecovers;
    if step.TryLock? && s.lock.None? {
      AcquireKeepsInv(x, s, step.i);
    } else if Apply(x, s, step).lock != s.lock {
      DeleteKeepsInv(x, s, step);
    } else {
      MoveKeepsInv(x, s, step);
    }
  }

  lemma {:induction false} RunKeepsInv(x: Setting, ss: seq<State>, steps: seq<Step>, n: nat)
    requires IsRun(x, ss, steps) && n < |ss| && (x.atomic || OneRecovers(x))
    ensures Inv(x, ss[n])
  {
    hide Inv, Enabled, Apply, Respects, OneRecovers;
    if n == 0 {
      InitialInv(x, ss[0]);
    } else {
      RunKeepsInv(x, ss, steps, n - 1);
      StepKeepsInv(x, ss[n - 1], steps[n - 1]);
    }
  }

  lemma InitialInv(x: Setting, s: State)
    requires Initial(x, s)
    ensures Inv(x, s)
  {}

  lemma InvExcludes(x: Setting, s: State)
    requires Inv(x, s)
    ensures Exclusive(s)
  {
    forall i: nat, j: nat | i < j < |s.pcs|
      ensures !(Holds(s, i) && Holds(s, j))
    {
      assert Fits(x, s, i) && Fits(x, s, j);
    }
  }

  /* ---- where it does not ---- */

  /** One more step of a run. */
  lemma Extend(x: Setting, ss: seq<State>, steps: seq<Step>, step: Step) returns (ss': seq<State>, steps': seq<Step>)
    requires IsRun(x, ss, steps) && Enabled(x, ss[|steps|], step) && Respects(ss[|steps|], step)
    ensures IsRun(x, ss', steps') && |ss'| == |steps'| + 1 == |steps| + 2
    ensures ss'[|steps'|] == Apply(x, ss[|steps|], step)
  {
    hide Enabled, Respects, Apply, Initial;
    ss', steps' := ss + [Apply(x, ss[|steps|], step)], steps + [step];
  }

  /** What the three commands of the failing run are doing. */
  predicate Stands(x: Setting, s: State, i: nat, j: nat, k: nat, lock: Option<nat>, clock: nat, a: Pc, b: Pc, c: Pc) {
    && |s.pcs| == |x.may| && i < |s.pcs| && j < |s.pcs| && k < |s.pcs|
    && s.lock == lock && s.clock == clock && s.pcs[i] == a && s.pcs[j] == b && s.pcs[k] == c
    && (clock > 0 ==> 0 in s.owners && s.owners[0] == k)
  }

  /** A command crashes with the lock, and two others find it stale. */
  lemma BothFindItStale(x: Setting, i: nat, j: nat, k: nat) returns (ss: seq<State>, steps: seq<Step>)
    requires !x.atomic && i < |x.may| && j < |x.may| && k < |x.may| && i != j && j != k && i != k
    requires x.may[i] && x.may[j]
    ensures IsRun(x, ss, steps)
    ensures Stands(x, ss[|steps|], i, j, k, Some(0), 1, Removing(0, 0), Removing(0, 0), Crashed)
  {
    hide IsRun;
    ss, steps := [State(None, 0, map[], seq(|x.may|, n => Trying(0)))], [];
    StartIsRun(x, ss[0]);
    ss, steps := Extend(x, ss, steps, TryLock(k));
    ss, steps := Extend(x, ss, steps, Crash(k));
    ss, steps := Extend(x, ss, steps, TryLock(i));
    ss, steps := Extend(x, ss, steps, TryLock(j));
    assert Stands(x, ss[|steps|], i, j, k, Some(0), 1, Inspecting(0), Inspecting(0), Crashed);
    ss, steps := Extend(x, ss, steps, Inspect(i, true));
    ss, steps := Extend(x, ss, steps, Inspect(j, true));
    assert Stands(x, ss[|steps|], i, j, k, Some(0), 1, Comparing(0, 0), Comparing(0, 0), Crashed);
    ss, steps := Extend(x, ss, steps, Compare(i));
    ss, steps := Extend(x, ss, steps, Compare(j));
  }

  lemma StartIsRun(x: Setting, s: State)
    requires Initial(x, s)
    ensures IsRun(x, [s], [])
  {}

  /** The first of them takes the lock, and the second then removes that lock instead
      of the stale one, and takes it too. */
  lemma RecoveryRemovesAnother(x: Setting, i: nat, j: nat, k: nat) returns (ss: seq<State>, steps: seq<Step>)
    requires !x.atomic && i < |x.may| && j < |x.may| && k < |x.may| && i != j && j != k && i != k
    requires x.may[i] && x.may[j]
    ensures IsRun(x, ss, steps) && Holds(ss[|steps|], i) && Holds(ss[|steps|], j)
  {
    hide IsRun;
    ss, steps := BothFindItStale(x, i, j, k);
    ss, steps := Extend(x, ss, steps, Remove(i));
    ss, steps := Extend(x, ss, steps, TryLock(i));
    assert Stands(x, ss[|steps|], i, j, k, Some(1), 2, Working(1), Removing(0, 0), Crashed);
    ss, steps := Extend(x, ss, steps, Remove(j));
    ss, steps := Extend(x, ss, steps, TryLock(j));
  }

  /** Among three or more commands the lock excludes in every run, if and only if a
      conditional delete is one step or no two commands may recover. */
  lemma ExclusiveExactly(x: Setting)
    requires |x.may| >= 3
    ensures (forall ss, steps, n: nat :: IsRun(x, ss, steps) && n < |ss| ==> Exclusive(ss[n])) <==>
              x.atomic || OneRecovers(x)
  {
    hide IsRun, Exclusive, Holds;
    if x.atomic || OneRecovers(x) {
      forall ss, steps, n: nat | IsRun(x, ss, steps) && n < |ss|
        ensures Exclusive(ss[n])
      {
        RunKeepsInv(x, ss, steps, n);
        InvExcludes(x, ss[n]);
      }
    } else {
      var i: nat, j: nat :| i < j < |x.may| && x.may[i] && x.may[j];
      var k := if i != 0 then 0 else if j != 1 then 1 else 2;
      var ss, steps := RecoveryRemovesAnother(x, i, j, k);
      RunLength(x, ss, steps);
      BothHold(ss[|steps|], i, j);
    }
  }

  lemma RunLength(x: Setting, ss: seq<State>, steps: seq<Step>)
    requires IsRun(x, ss, steps)
    ensures |ss| == |steps| + 1
  {}

  lemma BothHold(s: State, i: nat, j: nat)
    requires i < j && Holds(s, i) && Holds(s, j)
    ensures !Exclusive(s)
  {}
}
