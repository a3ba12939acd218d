/** A bounded worker pool over two channels, as a state machine over every
    interleaving of its goroutines: a producer, the workers, the goroutine that
    closes the result channel, and a collector that may stop early. Both pools of
    a backup are instances. */
module Pool {

  /** What a worker is doing: waiting, working on job i, or sending its result. */
  datatype Worker<P, O> = Idle | Busy(job: nat, phase: P) | Reporting(job: nat, outcome: O) | Exited

  /** The pool: its jobs, its sizes, and how one job proceeds. `step` and `finish`
      relate a job, its phase and the shared state before and after; `rank` bounds
      the steps left; `good` is what every outcome of a job satisfies. */
  datatype System<!D, !P, !O, !S> = System(
    jobs: seq<D>, workers: nat, workCap: nat, resultCap: nat, quitOnError: bool,
    first: P, step: (D, P, S, P, S) -> bool, finish: (D, P, S, O, S) -> bool,
    rank: P -> nat, good: (D, O) -> bool, failed: O -> bool)

  datatype Item<O> = Item(job: nat, outcome: O)

  datatype State<P, O, S> = State(
    sent: nat, workClosed: bool, work: seq<nat>, workers: seq<Worker<P, O>>,
    results: seq<Item<O>>, resultsClosed: bool, collected: seq<Item<O>>, stopped: bool, shared: S)

  datatype Step<P, O, S> =
    | Send
    | CloseWork
    | Take(w: nat)
    | Exit(w: nat)
    | Proceed(w: nat, phase: P, shared: S)
    | Complete(w: nat, outcome: O, shared: S)
    | Report(w: nat)
    | CloseResults
    | Collect
    | Stop

  /** The pool makes sense: someone works, the channels can hold something, and a
      collector that stops early leaves room for every result. Every job can go
      on in every phase, and comes nearer to its end when it does. */
  ghost predicate WellFormed<D(!new), P(!new), O(!new), S(!new)>(sys: System<D, P, O, S>) {
    && sys.workers >= 1 && sys.workCap >= 1
    && (sys.resultCap >= 1 || sys.jobs == [])
    && (sys.quitOnError ==> sys.resultCap >= |sys.jobs|)
    && (forall d, p, s :: CanGoOn(sys, d, p, s))
    && (forall d, p, s, p', s' :: sys.step(d, p, s, p', s') ==> sys.rank(p') < sys.rank(p))
    && (forall d, p, s, o, s' :: sys.finish(d, p, s, o, s') ==> sys.good(d, o))
  }

  ghost predicate CanGoOn<D, P(!new), O(!new), S(!new)>(sys: System<D, P, O, S>, d: D, p: P, s: S) {
    (exists p', s' :: sys.step(d, p, s, p', s')) || (exists o, s' :: sys.finish(d, p, s, o, s'))
  }

  ghost predicate Initial<D, P, O, S>(sys: System<D, P, O, S>, s: State<P, O, S>) {
    && s.sent == 0 && !s.workClosed && s.work == []
    && |s.workers| == sys.workers && (forall w :: 0 <= w < |s.workers| ==> s.workers[w].Idle?)
    && s.results == [] && !s.resultsClosed && s.collected == [] && !s.stopped
  }

  predicate AllExited<P, O>(workers: seq<Worker<P, O>>) {
    forall w :: 0 <= w < |workers| ==> workers[w].Exited?
  }

  ghost predicate Enabled<D, P, O, S>(sys: System<D, P, O, S>, s: State<P, O, S>, step: Step<P, O, S>) {
    match step
    case Send => !s.workClosed && s.sent < |sys.jobs| && |s.work| < sys.workCap
    case CloseWork => !s.workClosed && s.sent == |sys.jobs|
    case Take(w) => w < |s.workers| && s.workers[w].Idle? && s.work != []
    case Exit(w) => w < |s.workers| && s.workers[w].Idle? && s.work == [] && s.workClosed
    case Proceed(w, p, sh) =>
      && w < |s.workers| && s.workers[w].Busy? && s.workers[w].job < |sys.jobs|
      && sys.step(sys.jobs[s.workers[w].job], s.workers[w].phase, s.shared, p, sh)
    case Complete(w, o, sh) =>
      && w < |s.workers| && s.workers[w].Busy? && s.workers[w].job < |sys.jobs|
      && sys.finish(sys.jobs[s.workers[w].job], s.workers[w].phase, s.shared, o, sh)
    case Report(w) => w < |s.workers| && s.workers[w].Reporting? && |s.results| < sys.resultCap && !s.resultsClosed
    case CloseResults => s.workClosed && AllExited(s.workers) && !s.resultsClosed
    case Collect => s.results != [] && !s.stopped
    case Stop => s.results == [] && s.resultsClosed && !s.stopped
  }

  ghost function Apply<D, P, O, S>(sys: System<D, P, O, S>, s: State<P, O, S>, step: Step<P, O, S>): State<P, O, S>
    requires Enabled(sys, s, step)
  {
    match step
    case Send => s.(work := s.work + [s.sent], sent := s.sent + 1)
    case CloseWork => s.(workClosed := true)
    case Take(w) => s.(work := s.work[1..], workers := s.workers[w := Busy(s.work[0], sys.first)])
    case Exit(w) => s.(workers := s.workers[w := Exited])
    case Proceed(w, p, sh) => s.(workers := s.workers[w := s.workers[w].(phase := p)], shared := sh)
    case Complete(w, o, sh) => s.(workers := s.workers[w := Reporting(s.workers[w].job, o)], shared := sh)
    case Report(w) =>
      s.(results := s.results + [Item(s.workers[w].job, s.workers[w].outcome)], workers := s.workers[w := Idle])
    case CloseResults => s.(resultsClosed := true)
    case Collect =>
      s.(results := s.results[1..], collected := s.collected + [s.results[0]],
         stopped := sys.quitOnError && sys.failed(s.results[0].outcome))
    case Stop => s.(stopped := true)
  }

  /** Every goroutine has come to its end. */
  ghost predicate Final<P, O, S>(s: State<P, O, S>) {
    s.workClosed && AllExited(s.workers) && s.resultsClosed && s.stopped
  }

  /* ---- where the jobs are ---- */

  function JobsOf<O>(results: seq<Item<O>>): seq<nat> {
    seq(|results|, i requires 0 <= i < |results| => results[i].job)
  }

  /** The jobs in the workers' hands. */
  function Held<P, O>(workers: seq<Worker<P, O>>): multiset<nat> {
    if workers == [] then multiset{} else HeldBy(workers[0]) + Held(workers[1..])
  }

  function HeldBy<P, O>(w: Worker<P, O>): multiset<nat> {
    match w
    case Busy(j, _) => multiset{j}
    case Reporting(j, _) => multiset{j}
    case _ => multiset{}
  }

  function Range(n: nat): seq<nat> {
    seq(n, i => i)
  }

  ghost function Places<P, O, S>(s: State<P, O, S>): multiset<nat> {
    Together(multiset(s.work), Held(s.workers), multiset(JobsOf(s.results)), multiset(JobsOf(s.collected)))
  }

  ghost function Together(a: multiset<nat>, b: multiset<nat>, c: multiset<nat>, d: multiset<nat>): multiset<nat> {
    a + b + c + d
  }

  ghost predicate GoodOutcome<D, P, O, S>(sys: System<D, P, O, S>, j: nat, o: O) {
    j < |sys.jobs| && sys.good(sys.jobs[j], o)
  }

  /** Every job sent is in exactly one place, every outcome is good, and the
      flags follow the order of the goroutines. */
  ghost predicate Inv<D, P, O, S>(sys: System<D, P, O, S>, s: State<P, O, S>) {
    && |s.workers| == sys.workers
    && s.sent <= |sys.jobs|
    && |s.results| <= sys.resultCap
    && Places(s) == multiset(Range(s.sent))
    && (s.workClosed ==> s.sent == |sys.jobs|)
    && (forall w :: 0 <= w < |s.workers| && s.workers[w].Exited? ==> s.workClosed && s.work == [])
    && (s.resultsClosed ==> s.workClosed && AllExited(s.workers))
    && (s.stopped && !sys.quitOnError ==> s.resultsClosed && s.results == [])
    && (s.stopped && sys.quitOnError ==>
        (s.resultsClosed && s.results == []) || exists r :: r in s.collected && sys.failed(r.outcome))
    && (!s.stopped && sys.quitOnError ==> forall r :: r in s.collected ==> !sys.failed(r.outcome))
    && (forall w :: 0 <= w < |s.workers| && s.workers[w].Busy? ==> s.workers[w].job < |sys.jobs|)
    && (forall w :: 0 <= w < |s.workers| && s.workers[w].Reporting? ==>
        GoodOutcome(sys, s.workers[w].job, s.workers[w].outcome))
    && (forall r :: r in s.results ==> GoodOutcome(sys, r.job, r.outcome))
    && (forall r :: r in s.collected ==> GoodOutcome(sys, r.job, r.outcome))
  }

  lemma {:induction false} HeldUpdate<P, O>(workers: seq<Worker<P, O>>, w: nat, x: Worker<P, O>)
    requires w < |workers|
    ensures HeldBy(workers[w]) <= Held(workers)
    ensures Held(workers[w := x]) == Held(workers) - HeldBy(workers[w]) + HeldBy(x)
  {
    var updated := workers[w := x];
    if w == 0 {
      assert updated[1..] == workers[1..];
    } else {
      assert updated[1..] == workers[1..][w - 1 := x];
      HeldUpdate(workers[1..], w - 1, x);
    }
  }

  lemma {:induction false} HeldNothing<P, O>(workers: seq<Worker<P, O>>)
    requires forall w :: 0 <= w < |workers| ==> HeldBy(workers[w]) == multiset{}
    ensures Held(workers) == multiset{}
  {
    if workers != [] {
      HeldNothing(workers[1..]);
    }
  }

  lemma JobsOfSnoc<O>(results: seq<Item<O>>, r: Item<O>)
    ensures multiset(JobsOf(results + [r])) == multiset(JobsOf(results)) + multiset{r.job}
  {
    assert JobsOf(results + [r]) == JobsOf(results) + [r.job];
  }

  lemma JobsOfTail<O>(results: seq<Item<O>>)
    requires results != []
    ensures multiset(JobsOf(results)) == multiset{results[0].job} + multiset(JobsOf(results[1..]))
  {
    assert JobsOf(results) == [results[0].job] + JobsOf(results[1..]);
  }

  lemma WorkTail(work: seq<nat>)
    requires work != []
    ensures multiset(work) == multiset{work[0]} + multiset(work[1..])
  {
    assert work == [work[0]] + work[1..];
  }

  lemma RangeSnoc(n: nat)
    ensures multiset(Range(n + 1)) == multiset(Range(n)) + multiset{n}
  {
    assert Range(n + 1) == Range(n) + [n];
  }

  lemma InitialInv<D, P, O, S>(sys: System<D, P, O, S>, s: State<P, O, S>)
    requires Initial(sys, s)
    ensures Inv(sys, s)
  {
    HeldNothing(s.workers);
    assert Range(0) == [];
    assert JobsOf(s.results) == [] && JobsOf(s.collected) == [];
  }

  /** Replacing worker w by one that holds the same jobs, one job more or one less. */
  lemma HeldChange<P, O>(workers: seq<Worker<P, O>>, w: nat, x: Worker<P, O>)
    requires w < |workers|
    ensures HeldBy(x) == HeldBy(workers[w]) ==> Held(workers[w := x]) == Held(workers)
    ensures HeldBy(workers[w]) == multiset{} ==> Held(workers[w := x]) == Held(workers) + HeldBy(x)
    ensures HeldBy(x) == multiset{} ==> Held(workers) == Held(workers[w := x]) + HeldBy(workers[w])
  {
    hide Held, HeldBy;
    HeldUpdate(workers, w, x);
    Exchange(Held(workers), HeldBy(workers[w]), HeldBy(x));
  }

  lemma Exchange(h: multiset<nat>, a: multiset<nat>, b: multiset<nat>)
    requires a <= h
    ensures a == b ==> h - a + b == h
    ensures a == multiset{} ==> h - a + b == h + b
    ensures b == multiset{} ==> h == (h - a + b) + a
  {}

  /** Every step moves at most one job from one place to the next. */
  lemma StepKeepsPlaces<D, P, O, S>(sys: System<D, P, O, S>, s: State<P, O, S>, step: Step<P, O, S>)
    requires Inv(sys, s) && Enabled(sys, s, step)
    ensures Places(Apply(sys, s, step)) == multiset(Range(Apply(sys, s, step).sent))
  {
    hide Places, Range, Inv, Apply, Enabled;
    PlacesFit(sys, s);
    if step.Send? {
      SendKeepsPlaces(sys, s);
    } else {
      SentStays(sys, s, step);
      if step.Take? {
        TakeKeepsPlaces(sys, s, step.w);
      } else if step.Report? {
        ReportKeepsPlaces(sys, s, step.w);
      } else if step.Collect? {
        CollectKeepsPlaces(sys, s);
      } else {
        OthersKeepPlaces(sys, s, step);
      }
    }
  }

  lemma SentStays<D, P, O, S>(sys: System<D, P, O, S>, s: State<P, O, S>, step: Step<P, O, S>)
    requires Enabled(sys, s, step) && !step.Send?
    ensures Apply(sys, s, step).sent == s.sent
  {}

  lemma OthersKeepPlaces<D, P, O, S>(sys: System<D, P, O, S>, s: State<P, O, S>, step: Step<P, O, S>)
    requires Enabled(sys, s, step) && !step.Send? && !step.Take? && !step.Report? && !step.Collect?
    ensures Places(Apply(sys, s, step)) == Places(s)
  {
    hide AllExited, Held, JobsOf, Together;
    if step.Exit? || step.Proceed? || step.Complete? {
      SameHolding(s, Apply(sys, s, step), step.w);
    }
  }

  lemma SameHolding<P, O, S>(s: State<P, O, S>, s': State<P, O, S>, w: nat)
    requires w < |s.workers| == |s'.workers| && s'.workers == s.workers[w := s'.workers[w]]
    requires HeldBy(s'.workers[w]) == HeldBy(s.workers[w])
    requires s'.work == s.work && s'.results == s.results && s'.collected == s.collected
    ensures Places(s') == Places(s)
  {
    hide Held, JobsOf, Together, HeldBy;
    HeldChange(s.workers, w, s'.workers[w]);
  }

  lemma PlacesFit<D, P, O, S>(sys: System<D, P, O, S>, s: State<P, O, S>)
    requires Inv(sys, s)
    ensures Places(s) == multiset(Range(s.sent))
  {}

  lemma SendKeepsPlaces<D, P, O, S>(sys: System<D, P, O, S>, s: State<P, O, S>)
    requires Places(s) == multiset(Range(s.sent)) && Enabled(sys, s, Send)
    ensures Places(Apply(sys, s, Send)) == multiset(Range(Apply(sys, s, Send).sent))
  {
    hide Range, Held, JobsOf;
    RangeSnoc(s.sent);
    assert multiset(s.work + [s.sent]) == multiset(s.work) + multiset{s.sent};
  }

  lemma TakeKeepsPlaces<D, P, O, S>(sys: System<D, P, O, S>, s: State<P, O, S>, w: nat)
    requires Enabled(sys, s, Take(w))
    ensures Places(Apply(sys, s, Take(w))) == Places(s)
  {
    hide Held, JobsOf;
    WorkTail(s.work);
    HeldChange(s.workers, w, Busy(s.work[0], sys.first));
  }

  lemma ReportKeepsPlaces<D, P, O, S>(sys: System<D, P, O, S>, s: State<P, O, S>, w: nat)
    requires Enabled(sys, s, Report(w))
    ensures Places(Apply(sys, s, Report(w))) == Places(s)
  {
    hide Held, JobsOf;
    JobsOfSnoc(s.results, Item(s.workers[w].job, s.workers[w].outcome));
    HeldChange(s.workers, w, Idle);
  }

  lemma CollectKeepsPlaces<D, P, O, S>(sys: System<D, P, O, S>, s: State<P, O, S>)
    requires Enabled(sys, s, Collect)
    ensures Places(Apply(sys, s, Collect)) == Places(s)
  {
    hide Held, JobsOf;
    JobsOfTail(s.results);
    JobsOfSnoc(s.collected, s.results[0]);
  }

  lemma WorkIsSent<D, P, O, S>(sys: System<D, P, O, S>, s: State<P, O, S>, j: nat)
    requires Inv(sys, s) && j in s.work
    ensures j < |sys.jobs|
  {
    assert j in Places(s);
    assert j in multiset(Range(s.sent));
    assert j in Range(s.sent);
  }

  lemma StepKeepsInv<D(!new), P(!new), O(!new), S(!new)>(sys: System<D, P, O, S>, s: State<P, O, S>,
      step: Step<P, O, S>)
    requires WellFormed(sys) && Inv(sys, s) && Enabled(sys, s, step)
    ensures Inv(sys, Apply(sys, s, step))
  {
    hide Places, Range;
    StepKeepsPlaces(sys, s, step);
    if step.Take? {
      WorkIsSent(sys, s, s.work[0]);
    }
  }

  /* ---- progress ---- */

  /** No deadlock: in every reachable state that is not final, some goroutine can
      take a step, also after the collector has stopped early. */
  lemma NoDeadlock<D(!new), P(!new), O(!new), S(!new)>(sys: System<D, P, O, S>, s: State<P, O, S>)
    returns (step: Step<P, O, S>)
    requires WellFormed(sys) && Inv(sys, s) && !Final(s)
    ensures Enabled(sys, s, step)
  {
    hide Places, Range;
    if w :| 0 <= w < |s.workers| && s.workers[w].Busy? {
      step := BusyCanGoOn(sys, s, w);
    } else if w :| 0 <= w < |s.workers| && s.workers[w].Reporting? {
      RoomForResults(sys, s, w);
      step := if |s.results| < sys.resultCap then Report(w) else Collect;
    } else if s.work != [] {
      assert s.workers[0].Idle?;
      step := Take(0);
    } else if !s.workClosed {
      step := if s.sent < |sys.jobs| then Send else CloseWork;
    } else if w :| 0 <= w < |s.workers| && s.workers[w].Idle? {
      step := Exit(w);
    } else if !s.resultsClosed {
      step := CloseResults;
    } else {
      step := if s.results != [] then Collect else Stop;
    }
  }

  lemma BusyCanGoOn<D(!new), P(!new), O(!new), S(!new)>(sys: System<D, P, O, S>, s: State<P, O, S>, w: nat)
    returns (step: Step<P, O, S>)
    requires WellFormed(sys) && Inv(sys, s) && w < |s.workers| && s.workers[w].Busy?
    ensures Enabled(sys, s, step)
  {
    hide Places, Range;
    var d, p := sys.jobs[s.workers[w].job], s.workers[w].phase;
    assert CanGoOn(sys, d, p, s.shared);
    if p', s' :| sys.step(d, p, s.shared, p', s') {
      step := Proceed(w, p', s');
    } else {
      var o, s' :| sys.finish(d, p, s.shared, o, s');
      step := Complete(w, o, s');
    }
  }

  /** A worker with a result to send finds room, or a collector at work. */
  lemma RoomForResults<D(!new), P(!new), O(!new), S(!new)>(sys: System<D, P, O, S>, s: State<P, O, S>, w: nat)
    requires WellFormed(sys) && Inv(sys, s) && w < |s.workers| && s.workers[w].Reporting?
    ensures !s.resultsClosed
    ensures |s.results| < sys.resultCap || (s.results != [] && !s.stopped)
  {
    HeldUpdate(s.workers, w, Idle);
    assert |Places(s)| == |multiset(Range(s.sent))| == s.sent;
    assert multiset{s.workers[w].job} <= Held(s.workers);
    MultisetSize(multiset{s.workers[w].job}, Held(s.workers));
    assert |multiset(JobsOf(s.results))| == |s.results|;
    assert sys.jobs != [];
  }

  lemma MultisetSize<T>(a: multiset<T>, b: multiset<T>)
    requires a <= b
    ensures |a| <= |b|
  {
    assert b == a + (b - a);
  }

  function Times(n: int, m: int): int {
    n * m
  }

  /** Steps left: each job passes five stations, and each goroutine ends once. */
  function Measure<D, P, O, S>(sys: System<D, P, O, S>, s: State<P, O, S>): int {
    var r := sys.rank(sys.first);
    Times(|sys.jobs| - s.sent, r + 5) + Times(|s.work|, r + 4) + WorkersLeft(sys, s.workers) + |s.results|
    + (if s.workClosed then 0 else 1) + (if s.resultsClosed then 0 else 1) + (if s.stopped then 0 else 1)
  }

  function WorkerLeft<D, P, O, S>(sys: System<D, P, O, S>, w: Worker<P, O>): nat {
    match w
    case Idle => 1
    case Busy(_, p) => sys.rank(p) + 4
    case Reporting(_, _) => 3
    case Exited => 0
  }

  function WorkersLeft<D, P, O, S>(sys: System<D, P, O, S>, workers: seq<Worker<P, O>>): nat {
    if workers == [] then 0 else WorkerLeft(sys, workers[0]) + WorkersLeft(sys, workers[1..])
  }

  lemma {:induction false} LeftUpdate<D, P, O, S>(sys: System<D, P, O, S>, workers: seq<Worker<P, O>>, w: nat,
      x: Worker<P, O>)
    requires w < |workers|
    ensures WorkersLeft(sys, workers[w := x]) ==
              WorkersLeft(sys, workers) - WorkerLeft(sys, workers[w]) + WorkerLeft(sys, x)
  {
    var updated := workers[w := x];
    if w == 0 {
      assert updated[1..] == workers[1..];
    } else {
      assert updated[1..] == workers[1..][w - 1 := x];
      LeftUpdate(sys, workers[1..], w - 1, x);
    }
  }

  lemma TimesLess(n: int, m: int)
    ensures Times(n - 1, m) == Times(n, m) - m
    ensures n >= 0 && m >= 0 ==> Times(n, m) >= 0
  {}

  /** Every step brings the end nearer, so every run is finite. */
  lemma StepDecreases<D(!new), P(!new), O(!new), S(!new)>(sys: System<D, P, O, S>, s: State<P, O, S>,
      step: Step<P, O, S>)
    requires WellFormed(sys) && Inv(sys, s) && Enabled(sys, s, step)
    ensures 0 <= Measure(sys, Apply(sys, s, step)) < Measure(sys, s)
  {
    hide Places, Range, WorkersLeft, Times, AllExited;
    var r := sys.rank(sys.first);
    var s' := Apply(sys, s, step);
    TimesLess(|sys.jobs| - s.sent, r + 5);
    TimesLess(|sys.jobs| - s'.sent, r + 5);
    TimesLess(|s.work|, r + 4);
    TimesLess(|s'.work|, r + 4);
    match step
    case Take(w) => LeftUpdate(sys, s.workers, w, s'.workers[w]);
    case Exit(w) => LeftUpdate(sys, s.workers, w, s'.workers[w]);
    case Proceed(w, _, _) => LeftUpdate(sys, s.workers, w, s'.workers[w]);
    case Complete(w, _, _) => LeftUpdate(sys, s.workers, w, s'.workers[w]);
    case Report(w) => LeftUpdate(sys, s.workers, w, s'.workers[w]);
    case _ =>
  }

  /* ---- runs ---- */

  ghost predicate IsRun<D, P, O, S>(sys: System<D, P, O, S>, ss: seq<State<P, O, S>>, steps: seq<Step<P, O, S>>) {
    && |ss| == |steps| + 1
    && Initial(sys, ss[0])
    && forall i :: 0 <= i < |steps| ==> Enabled(sys, ss[i], steps[i]) && ss[i + 1] == Apply(sys, ss[i], steps[i])
  }

  lemma {:induction false} RunKeepsInv<D(!new), P(!new), O(!new), S(!new)>(
    sys: System<D, P, O, S>, ss: seq<State<P, O, S>>, steps: seq<Step<P, O, S>>, n: nat)
    requires WellFormed(sys) && IsRun(sys, ss, steps) && n < |ss|
    ensures Inv(sys, ss[n])
    ensures Measure(sys, ss[n]) + n <= Measure(sys, ss[0])
  {
    hide Inv, WellFormed, Enabled, Apply, Measure;
    if n == 0 {
      InitialInv(sys, ss[0]);
    } else {
      RunKeepsInv(sys, ss, steps, n - 1);
      StepKeepsInv(sys, ss[n - 1], steps[n - 1]);
      StepDecreases(sys, ss[n - 1], steps[n - 1]);
    }
  }

  /** Every run of the pool ends: it cannot be longer than its measure, and a run
      that cannot be continued has brought every goroutine to its end. */
  lemma EveryRunTerminates<D(!new), P(!new), O(!new), S(!new)>(
    sys: System<D, P, O, S>, ss: seq<State<P, O, S>>, steps: seq<Step<P, O, S>>)
    requires WellFormed(sys) && IsRun(sys, ss, steps)
    ensures |steps| <= Measure(sys, ss[0])
    ensures (forall step :: !Enabled(sys, ss[|steps|], step)) ==> Final(ss[|steps|])
  {
    hide Enabled, Apply, WellFormed;
    RunKeepsInv(sys, ss, steps, |steps|);
    MeasureNotNegative(sys, ss[|steps|]);
    if !Final(ss[|steps|]) {
      var step := NoDeadlock(sys, ss[|steps|]);
    }
  }

  lemma MeasureNotNegative<D, P, O, S>(sys: System<D, P, O, S>, s: State<P, O, S>)
    requires Inv(sys, s)
    ensures Measure(sys, s) >= 0
  {
    var r := sys.rank(sys.first);
    TimesLess(|sys.jobs| - s.sent, r + 5);
    TimesLess(|s.work|, r + 4);
  }

  /** At the end of a pool whose collector did not stop early, each job has been
      collected exactly once, with a good outcome. */
  lemma FinalCollectsAll<D, P, O, S>(sys: System<D, P, O, S>, s: State<P, O, S>)
    requires sys.workers >= 1 && Inv(sys, s) && Final(s)
    requires sys.quitOnError ==> forall r :: r in s.collected ==> !sys.failed(r.outcome)
    ensures multiset(JobsOf(s.collected)) == multiset(Range(|sys.jobs|))
    ensures forall r :: r in s.collected ==> GoodOutcome(sys, r.job, r.outcome)
  {
    hide Range;
    HeldNothing(s.workers);
    assert s.workers[0].Exited?;
    assert JobsOf(s.results) == [];
  }

  /* ---- outcomes are never lost ---- */

  /** The outcome o of job j is on its way or has been collected. */
  ghost predicate Present<P, O, S>(s: State<P, O, S>, j: nat, o: O) {
    || (exists w :: 0 <= w < |s.workers| && s.workers[w] == Reporting(j, o))
    || Item(j, o) in s.results
    || Item(j, o) in s.collected
  }

  lemma OutcomeStays<D, P, O, S>(sys: System<D, P, O, S>, s: State<P, O, S>, step: Step<P, O, S>, j: nat, o: O)
    requires Enabled(sys, s, step) && Present(s, j, o)
    ensures Present(Apply(sys, s, step), j, o)
  {
    var s' := Apply(sys, s, step);
    if w :| 0 <= w < |s.workers| && s.workers[w] == Reporting(j, o) {
      if step.Report? && step.w == w {
        assert Item(j, o) in s'.results;
      } else {
        assert s'.workers[w] == Reporting(j, o);
      }
    } else if step.Collect? && Item(j, o) in s.results {
      assert s.results == [s.results[0]] + s.results[1..];
    }
  }

  lemma {:induction false} CompletedIsPresent<D, P, O, S>(
    sys: System<D, P, O, S>, ss: seq<State<P, O, S>>, steps: seq<Step<P, O, S>>, i: nat, n: nat)
    requires IsRun(sys, ss, steps) && i < n < |ss| && steps[i].Complete?
    ensures Present(ss[n], ss[i].workers[steps[i].w].job, steps[i].outcome)
    decreases n - i
  {
    hide Present;
    var j, o := ss[i].workers[steps[i].w].job, steps[i].outcome;
    if n == i + 1 {
      NowPresent(sys, ss[i], steps[i]);
    } else {
      CompletedIsPresent(sys, ss, steps, i, n - 1);
      OutcomeStays(sys, ss[n - 1], steps[n - 1], j, o);
    }
  }

  lemma NowPresent<D, P, O, S>(sys: System<D, P, O, S>, s: State<P, O, S>, step: Step<P, O, S>)
    requires Enabled(sys, s, step) && step.Complete?
    ensures Present(Apply(sys, s, step), s.workers[step.w].job, step.outcome)
  {
    assert Apply(sys, s, step).workers[step.w] == Reporting(s.workers[step.w].job, step.outcome);
  }

  /* ---- conservation ---- */

  function SumItems<O>(weight: O -> nat, items: seq<Item<O>>): nat {
    if items == [] then 0 else SumItems(weight, items[..|items| - 1]) + weight(items[|items| - 1].outcome)
  }

  lemma {:induction false} SumItemsTail<O>(weight: O -> nat, items: seq<Item<O>>)
    requires items != []
    ensures SumItems(weight, items) == weight(items[0].outcome) + SumItems(weight, items[1..])
  {
    if |items| > 1 {
      SumItemsTail(weight, items[..|items| - 1]);
      assert items[1..][..|items| - 2] == items[..|items| - 1][1..];
    } else {
      assert items[..0] == [] && items[1..] == [];
    }
  }

  function WorkerTally<P, O>(weight: O -> nat, w: Worker<P, O>): nat {
    if w.Reporting? then weight(w.outcome) else 0
  }

  function WorkersTally<P, O>(weight: O -> nat, workers: seq<Worker<P, O>>): nat {
    if workers == [] then 0 else WorkerTally(weight, workers[0]) + WorkersTally(weight, workers[1..])
  }

  /** The weight of all outcomes produced so far, wherever they are. */
  function Tally<P, O, S>(weight: O -> nat, s: State<P, O, S>): nat {
    WorkersTally(weight, s.workers) + SumItems(weight, s.results) + SumItems(weight, s.collected)
  }

  lemma {:induction false} WorkersTallyUpdate<P, O>(weight: O -> nat, workers: seq<Worker<P, O>>, w: nat,
      x: Worker<P, O>)
    requires w < |workers|
    ensures WorkersTally(weight, workers[w := x])
         == WorkersTally(weight, workers) - WorkerTally(weight, workers[w]) + WorkerTally(weight, x)
  {
    var updated := workers[w := x];
    if w == 0 {
      assert updated[1..] == workers[1..];
    } else {
      assert updated[1..] == workers[1..][w - 1 := x];
      WorkersTallyUpdate(weight, workers[1..], w - 1, x);
    }
  }

  /** Only completing a job adds to a tally; moving outcomes around does not. */
  lemma StepTallies<D, P, O, S>(sys: System<D, P, O, S>, s: State<P, O, S>, step: Step<P, O, S>, weight: O -> nat)
    requires Enabled(sys, s, step)
    ensures Tally(weight, Apply(sys, s, step)) == Tally(weight, s) + if step.Complete? then weight(step.outcome) else 0
  {
    hide WorkersTally, AllExited;
    var s' := Apply(sys, s, step);
    match step
    case Take(w) => WorkersTallyUpdate(weight, s.workers, w, s'.workers[w]);
    case Exit(w) => WorkersTallyUpdate(weight, s.workers, w, s'.workers[w]);
    case Proceed(w, _, _) => WorkersTallyUpdate(weight, s.workers, w, s'.workers[w]);
    case Complete(w, _, _) => WorkersTallyUpdate(weight, s.workers, w, s'.workers[w]);
    case Report(w) =>
      WorkersTallyUpdate(weight, s.workers, w, s'.workers[w]);
      assert s'.results[..|s.results|] == s.results;
    case Collect =>
      SumItemsTail(weight, s.results);
      assert s'.collected[..|s.collected|] == s.collected;
    case _ =>
  }

  lemma {:induction false} NoWorkersTally<P, O>(weight: O -> nat, workers: seq<Worker<P, O>>)
    requires forall w :: 0 <= w < |workers| ==> !workers[w].Reporting?
    ensures WorkersTally(weight, workers) == 0
  {
    if workers != [] {
      NoWorkersTally(weight, workers[1..]);
    }
  }

  /** At the end everything produced has been collected. */
  lemma FinalTally<D, P, O, S>(sys: System<D, P, O, S>, s: State<P, O, S>, weight: O -> nat)
    requires Inv(sys, s) && Final(s) && !sys.quitOnError
    ensures Tally(weight, s) == SumItems(weight, s.collected)
  {
    NoWorkersTally(weight, s.workers);
  }
}
