/** Run with both cores and its two-phase shutdown: app/internal/seeder/runner/runner.go. */
module Shutdown {
  import opened Sums
  import opened Pipeline
  import opened SolrClient
  import Channel
  import Gauging
  import Ledger
  import Options
  import Reachable
  import Retry

  /** Running until the signal; Stopping until both producers are done; Draining until the workers are
      done or the timer fires; Forced once forceCancel ran; Returned after the final totals. */
  datatype Phase = Running | Stopping | Draining | Forced | Returned

  /** One set of settings; the cores differ in their id prefix and number of workers only. */
  datatype Settings = Settings(movies: Config, books: Config) {
    predicate Valid() {
      && movies.Valid() && books.Valid()
      && books == movies.(prefix := books.prefix, workers := books.workers)
    }
  }

  datatype System = System(movies: State, books: State, phase: Phase)

  datatype SysAction =
    | Movies(a: Action) | Books(a: Action)
    | SignalArrives | ProducersDone | TimerFires | WorkersDone

  function Start(cfg: Settings): System { System(Init(cfg.movies), Init(cfg.books), Running) }

  /** The contexts are canceled by the controller only. */
  predicate Local(a: Action) { !a.Stop? && !a.Force? }

  predicate SysEnabled(cfg: Settings, y: System, a: SysAction) {
    match a
    case Movies(b) => Local(b) && Enabled(cfg.movies, y.movies, b)
    case Books(b) => Local(b) && Enabled(cfg.books, y.books, b)
    case SignalArrives => y.phase.Running? && !y.movies.stop && !y.books.stop
    case ProducersDone => y.phase.Stopping? && y.movies.producer.pc.Closed? && y.books.producer.pc.Closed?
    case TimerFires => y.phase.Draining? && !y.movies.forced && !y.books.forced
    case WorkersDone =>
      (y.phase.Draining? || y.phase.Forced?) && Reachable.AllExited(y.movies) && Reachable.AllExited(y.books)
  }

  function SysApply(cfg: Settings, y: System, a: SysAction): System
    requires SysEnabled(cfg, y, a)
  {
    match a
    case Movies(b) => y.(movies := Apply(cfg.movies, y.movies, b))
    case Books(b) => y.(books := Apply(cfg.books, y.books, b))
    case SignalArrives =>
      System(Apply(cfg.movies, y.movies, Stop), Apply(cfg.books, y.books, Stop), Stopping)
    case ProducersDone => y.(phase := Draining)
    case TimerFires =>
      System(Apply(cfg.movies, y.movies, Force), Apply(cfg.books, y.books, Force), Forced)
    case WorkersDone => y.(phase := Returned)
  }

  predicate IsSysRun(cfg: Settings, states: seq<System>, actions: seq<SysAction>) {
    && |states| == |actions| + 1
    && states[0] == Start(cfg)
    && forall k :: 0 <= k < |actions| ==>
         SysEnabled(cfg, states[k], actions[k]) && states[k + 1] == SysApply(cfg, states[k], actions[k])
  }

  // ----- safety -----

  /** How the controller's phase and a core's state fit together. */
  predicate InPhase(phase: Phase, s: State) {
    && (s.stop <==> !phase.Running?)
    && (s.forced ==> phase.Forced? || phase.Returned?)
    && (phase.Forced? ==> s.forced)
    && (phase.Draining? || phase.Forced? || phase.Returned? ==> s.producer.pc.Closed?)
    && (phase.Returned? ==> Reachable.AllExited(s))
  }

  ghost predicate SysInv(cfg: Settings, y: System) {
    && Reachable.Inv(cfg.movies, y.movies) && Reachable.Inv(cfg.books, y.books)
    && InPhase(y.phase, y.movies) && InPhase(y.phase, y.books)
    && y.movies.forced == y.books.forced
    && BoundedLoss(cfg.movies, y.movies) && BoundedLoss(cfg.books, y.books)
  }

  function CanceledOne(f: Finished): nat { if f.fate.Succeeded? || f.fate.Failed? then 0 else 1 }

  /** Jobs a forced shutdown has canceled, or still can: those canceled, held and queued. */
  function Exposed(s: State): nat {
    Total(s.log.finished, CanceledOne) + Total(s.workers, Ledger.Holding) + |s.queue|
  }

  predicate BoundedLoss(c: Config, s: State) { s.forced ==> Exposed(s) <= 3 * c.workers }

  /** Force-cancel can hit at most one job per worker and a full queue. */
  lemma ForceExposesFew(c: Config, s: State)
    requires Reachable.Inv(c, s) && !s.forced
    ensures Exposed(s) <= 3 * c.workers
  {
    TotalZero(s.log.finished, CanceledOne);
    TotalAtMost(s.workers, Ledger.Holding, 1);
  }

  lemma CancelBalance(c: Config, s: State, w: Worker, wa: WorkerAction)
    requires WorkerEnabled(c, s, w, wa)
    ensures var e := WorkerEffect(c, s, w, wa);
      Ledger.Holding(e.worker) + Ledger.IfDone(e.done, CanceledOne) <= Ledger.Holding(w) + (if wa.Take? then 1 else 0)
  {}

  /** With the channel closed, no step exposes more jobs. */
  lemma ExposedShrinks(c: Config, s: State, a: Action)
    requires Enabled(c, s, a) && s.producer.pc.Closed?
    ensures Exposed(Apply(c, s, a)) <= Exposed(s)
  {
    match a
    case Work(i, wa) =>
      var t, e := Apply(c, s, a), WorkerEffect(c, s, s.workers[i], wa);
      CancelBalance(c, s, s.workers[i], wa);
      TotalUpdate(s.workers, i, e.worker, Ledger.Holding);
      Ledger.FinishedTotal(s, t, e.done, CanceledOne);
    case _ =>
  }

  lemma LossStep(c: Config, phase: Phase, s: State, a: Action)
    requires InPhase(phase, s) && BoundedLoss(c, s) && Enabled(c, s, a) && Local(a)
    ensures BoundedLoss(c, Apply(c, s, a))
  {
    if s.forced {
      ExposedShrinks(c, s, a);
    }
  }

  lemma PhaseKept(c: Config, phase: Phase, s: State, a: Action)
    requires InPhase(phase, s) && Enabled(c, s, a) && Local(a)
    ensures InPhase(phase, Apply(c, s, a)) && Apply(c, s, a).forced == s.forced
  {}

  lemma SysInvStep(cfg: Settings, y: System, a: SysAction)
    requires cfg.Valid() && SysInv(cfg, y) && SysEnabled(cfg, y, a)
    ensures SysInv(cfg, SysApply(cfg, y, a))
  {
    match a
    case Movies(b) =>
      Reachable.InvStep(cfg.movies, y.movies, b);
      PhaseKept(cfg.movies, y.phase, y.movies, b);
      LossStep(cfg.movies, y.phase, y.movies, b);
    case Books(b) =>
      Reachable.InvStep(cfg.books, y.books, b);
      PhaseKept(cfg.books, y.phase, y.books, b);
      LossStep(cfg.books, y.phase, y.books, b);
    case SignalArrives =>
      Reachable.InvStep(cfg.movies, y.movies, Stop);
      Reachable.InvStep(cfg.books, y.books, Stop);
    case TimerFires =>
      Reachable.InvStep(cfg.movies, y.movies, Force);
      Reachable.InvStep(cfg.books, y.books, Force);
      ForceExposesFew(cfg.movies, y.movies);
      ForceExposesFew(cfg.books, y.books);
    case _ =>
  }

  lemma {:induction false} SysInvAlways(cfg: Settings, states: seq<System>, actions: seq<SysAction>, k: nat)
    requires cfg.Valid() && IsSysRun(cfg, states, actions) && k < |states|
    ensures SysInv(cfg, states[k])
  {
    if k == 0 {
      Reachable.InvInit(cfg.movies);
      Reachable.InvInit(cfg.books);
    } else {
      SysInvAlways(cfg, states, actions, k - 1);
      SysInvStep(cfg, states[k - 1], actions[k - 1]);
    }
  }

  lemma PhaseFits(cfg: Settings, y: System)
    requires SysInv(cfg, y)
    ensures InPhase(y.phase, y.movies) && InPhase(y.phase, y.books)
    ensures y.phase.Running? ==> !y.movies.producer.pc.Closed?
  {
    assert Channel.PcShape(cfg.movies, y.movies.stop, y.movies.producer);
  }

  lemma PhasesFit(cfg: Settings, states: seq<System>, actions: seq<SysAction>, k: nat)
    requires cfg.Valid() && IsSysRun(cfg, states, actions) && k < |states|
    ensures InPhase(states[k].phase, states[k].movies) && InPhase(states[k].phase, states[k].books)
    ensures states[k].phase.Running? ==> !states[k].movies.producer.pc.Closed?
  {
    SysInvAlways(cfg, states, actions, k);
    PhaseFits(cfg, states[k]);
  }

  /** A core's books are closed: its counters account for every generated document, its worker gauges
      read zero, and a run that was not forced left nothing canceled or queued. */
  predicate Settled(c: Config, s: State) {
    && s.counters.generatedDocs == s.counters.successfulDocs + Reachable.FailedDocCount(s)
         + Reachable.CanceledDocCount(s) + |Flatten(s.queue)| + |s.producer.dropped|
    && s.counters.droppedBatches <= 1 && |s.producer.dropped| <= c.batchSize
    && s.gauges.inFlight == 0 && s.gauges.activeWorkers == 0
    && (!s.forced ==> s.queue == [] && Reachable.CanceledDocCount(s) == 0)
  }

  /** When Run returns, on either path, both cores are settled. */
  lemma RunReturnsSettled(cfg: Settings, states: seq<System>, actions: seq<SysAction>, k: nat)
    requires cfg.Valid() && IsSysRun(cfg, states, actions) && k < |states| && states[k].phase.Returned?
    ensures Settled(cfg.movies, states[k].movies) && Settled(cfg.books, states[k].books)
  {
    SysInvAlways(cfg, states, actions, k);
    Reachable.FinalAccount(cfg.movies, states[k].movies);
    Reachable.FinalAccount(cfg.books, states[k].books);
    Gauging.GaugeBounds(cfg.movies, states[k].movies);
    Gauging.GaugeBounds(cfg.books, states[k].books);
  }

  /** Even a forced shutdown loses at most 3 * workers jobs and one unsent batch of each core: all other
      generated documents have succeeded or failed for good when Run returns. */
  lemma LossIsBounded(cfg: Settings, states: seq<System>, actions: seq<SysAction>, k: nat)
    requires cfg.Valid() && IsSysRun(cfg, states, actions) && k < |states| && states[k].phase.Returned?
    ensures AlmostAll(cfg.movies, states[k].movies) && AlmostAll(cfg.books, states[k].books)
  {
    SysInvAlways(cfg, states, actions, k);
    FewExposed(cfg.movies, states[k].movies);
    FewExposed(cfg.books, states[k].books);
    FewLost(cfg.movies, states[k].movies);
    FewLost(cfg.books, states[k].books);
  }

  predicate AlmostAll(c: Config, s: State) {
    s.counters.generatedDocs
    <= s.counters.successfulDocs + Reachable.FailedDocCount(s) + (3 * c.workers + 1) * c.batchSize
  }

  function CanceledCount(f: Finished): nat { |Ledger.CanceledDocs(f)| }

  lemma FewLost(c: Config, s: State)
    requires Channel.Shape(c, s) && Ledger.Tapes(c, s) && Ledger.Conserved(s) && Ledger.Counted(s)
    requires Total(s.log.finished, CanceledOne) + |s.queue| <= 3 * c.workers
    requires s.producer.pc.Closed? && Reachable.AllExited(s)
    ensures AlmostAll(c, s)
  {
    Reachable.FinalSizes(c, s);
    LostAtMost(c, s);
  }

  lemma LostAtMost(c: Config, s: State)
    requires Channel.Shape(c, s) && Ledger.Tapes(c, s)
    requires Total(s.log.finished, CanceledOne) + |s.queue| <= 3 * c.workers
    ensures Reachable.CanceledDocCount(s) + |Flatten(s.queue)| + |s.producer.dropped|
         <= (3 * c.workers + 1) * c.batchSize
  {
    LostSizes(c, s);
    Weigh(c.batchSize, Total(s.log.finished, CanceledOne), |s.queue|, 3 * c.workers,
          Reachable.CanceledDocCount(s) + |Flatten(s.queue)| + |s.producer.dropped|);
  }

  lemma LostSizes(c: Config, s: State)
    requires Channel.Shape(c, s) && Ledger.Tapes(c, s)
    ensures Reachable.CanceledDocCount(s) <= c.batchSize * Total(s.log.finished, CanceledOne)
    ensures |Flatten(s.queue)| <= c.batchSize * |s.queue|
    ensures |s.producer.dropped| <= c.batchSize
  {
    CanceledSizes(c, s);
    QueuedSizes(c, s);
  }

  lemma FewExposed(c: Config, s: State)
    requires Reachable.Inv(c, s) && BoundedLoss(c, s)
    ensures Total(s.log.finished, CanceledOne) + |s.queue| <= 3 * c.workers
  {
    if !s.forced {
      ForceExposesFew(c, s);
    }
  }

  lemma CanceledSize(c: Config, f: Pipeline.Finished)
    requires Ledger.JobSized(c, f.job)
    ensures CanceledCount(f) <= c.batchSize * CanceledOne(f)
  {}

  lemma CanceledSizes(c: Config, s: State)
    requires forall k :: 0 <= k < |s.log.finished| ==> Ledger.JobSized(c, s.log.finished[k].job)
    ensures Reachable.CanceledDocCount(s) <= c.batchSize * Total(s.log.finished, CanceledOne)
  {
    forall k | 0 <= k < |s.log.finished|
      ensures CanceledCount(s.log.finished[k]) <= c.batchSize * CanceledOne(s.log.finished[k])
    {
      CanceledSize(c, s.log.finished[k]);
    }
    GatherSize(s.log.finished, Ledger.CanceledDocs, CanceledCount);
    TotalScaled(s.log.finished, CanceledCount, CanceledOne, c.batchSize);
  }

  lemma QueuedSizes(c: Config, s: State)
    requires Channel.Shape(c, s)
    ensures |Flatten(s.queue)| <= c.batchSize * |s.queue|
  {
    forall k | 0 <= k < |s.queue|
      ensures |s.queue[k]| <= c.batchSize
    {
      assert s.queue[k] == s.producer.enqueued[|s.log.dequeued| + k];
    }
    FlattenAtMost(s.queue, c.batchSize);
  }

  lemma Weigh(b: nat, x: nat, y: nat, m: nat, lost: nat)
    requires x + y <= m && lost <= b * x + b * y + b
    ensures lost <= (m + 1) * b
  {
    assert b * x + b * y == b * (x + y);
    assert b * (x + y) + b * (m - x - y) == b * m;
    assert b * (m - x - y) >= 0;
  }

  /** Each core's part of a run of the system is a run of that core, so whatever holds in all core
      runs holds for the movies and the books of every system run. */
  lemma {:induction false} CoreRuns(cfg: Settings, states: seq<System>, actions: seq<SysAction>, k: nat)
    returns (ms: seq<State>, ma: seq<Action>, bs: seq<State>, ba: seq<Action>)
    requires IsSysRun(cfg, states, actions) && k < |states|
    ensures IsRun(cfg.movies, ms, ma) && ms[|ma|] == states[k].movies
    ensures IsRun(cfg.books, bs, ba) && bs[|ba|] == states[k].books
  {
    if k == 0 {
      ms, ma, bs, ba := [Init(cfg.movies)], [], [Init(cfg.books)], [];
    } else {
      ms, ma, bs, ba := CoreRuns(cfg, states, actions, k - 1);
      var y, a := states[k - 1], actions[k - 1];
      var m, b := MoviesPart(cfg, y, a), BooksPart(cfg, y, a);
      if m.Some? {
        ms, ma := Extend(cfg.movies, ms, ma, m.value);
      }
      if b.Some? {
        bs, ba := Extend(cfg.books, bs, ba, b.value);
      }
    }
  }

  function MoviesPart(cfg: Settings, y: System, a: SysAction): (m: Options.Option<Action>)
    requires SysEnabled(cfg, y, a)
    ensures m.None? ==> SysApply(cfg, y, a).movies == y.movies
    ensures m.Some? ==>
              && Enabled(cfg.movies, y.movies, m.value)
              && SysApply(cfg, y, a).movies == Apply(cfg.movies, y.movies, m.value)
  {
    match a
    case Movies(b) => Options.Some(b)
    case SignalArrives => Options.Some(Stop)
    case TimerFires => Options.Some(Force)
    case _ => Options.None
  }

  function BooksPart(cfg: Settings, y: System, a: SysAction): (m: Options.Option<Action>)
    requires SysEnabled(cfg, y, a)
    ensures m.None? ==> SysApply(cfg, y, a).books == y.books
    ensures m.Some? ==>
              Enabled(cfg.books, y.books, m.value) && SysApply(cfg, y, a).books == Apply(cfg.books, y.books, m.value)
  {
    match a
    case Books(b) => Options.Some(b)
    case SignalArrives => Options.Some(Stop)
    case TimerFires => Options.Some(Force)
    case _ => Options.None
  }

  lemma Extend(c: Config, states: seq<State>, actions: seq<Action>, a: Action)
    returns (longer: seq<State>, steps: seq<Action>)
    requires IsRun(c, states, actions) && Enabled(c, states[|actions|], a)
    ensures IsRun(c, longer, steps) && longer[|steps|] == Apply(c, states[|actions|], a)
  {
    longer, steps := states + [Apply(c, states[|actions|], a)], actions + [a];
    forall k | 0 <= k < |steps|
      ensures Enabled(c, longer[k], steps[k]) && longer[k + 1] == Apply(c, longer[k], steps[k])
    {
      if k < |actions| {
        assert longer[k] == states[k] && longer[k + 1] == states[k + 1] && steps[k] == actions[k];
      }
    }
  }

  // ----- termination -----

  const ATTEMPT_STEPS := 6

  /** Upper bound on the steps a worker still makes without taking another job. */
  function Residual(c: Config, w: Worker): nat {
    match w
    case Starting => 3
    case Idle => 2
    case Took(_) => ATTEMPT_STEPS * c.attempts + 5
    case Reporting(_, _) => ATTEMPT_STEPS * c.attempts + 4
    case Ready(_, tape) => ATTEMPT_STEPS * Left(c, tape) + 3
    case Posting(_, tape) => ATTEMPT_STEPS * Left(c, tape) + 2
    case Posted(_, tape, _) => ATTEMPT_STEPS * Left(c, tape) + 1
    case Examining(_, tape, _) => ATTEMPT_STEPS * Left(c, tape)
    case Decided(_, tape, _) => Minus(ATTEMPT_STEPS * Left(c, tape), 1)
    case Waiting(_, tape, _) => Minus(ATTEMPT_STEPS * Left(c, tape), 2)
    case Counting(_, _, _) => 4
    case Resting => 3
    case Exiting => 1
    case Exited => 0
  }

  /** Attempts left, the current one included. */
  function Left(c: Config, tape: seq<Retry.Round>): nat { Minus(c.attempts, |tape|) }

  function Minus(a: nat, b: nat): nat { if a >= b then a - b else 0 }

  function ResidualOf(c: Config): Worker -> nat { w => Residual(c, w) }

  /** What one queued job costs. */
  function JobCost(c: Config): nat { ATTEMPT_STEPS * c.attempts + 4 }

  /** Steps of a stopped producer to the closed channel. */
  function ProducerRank(pc: ProducerPc): nat {
    match pc
    case Generating => 10
    case CountDoc => 9
    case Sending => 8
    case ReadDepth(flushed) => if flushed then 3 else 7
    case StoreDepth(_, flushed) => if flushed then 2 else 6
    case AtSelect => 5
    case Flushing => 4
    case CountDrop => 2
    case Closing => 1
    case Closed => 0
  }

  function CoreMeasure(c: Config, s: State): nat {
    (JobCost(c) + 1) * ProducerRank(s.producer.pc) + JobCost(c) * |s.queue| + Total(s.workers, ResidualOf(c))
  }

  lemma ResidualDrops(c: Config, s: State, w: Worker, wa: WorkerAction)
    requires c.Valid() && Ledger.WorkerOk(c, w) && WorkerEnabled(c, s, w, wa)
    ensures var e := WorkerEffect(c, s, w, wa);
      if wa.Take? then Residual(c, e.worker) < Residual(c, w) + JobCost(c)
      else Residual(c, e.worker) < Residual(c, w)
  {}

  lemma QueueShift(k: nat, n: nat)
    ensures k * (n + 1) == k * n + k
  {}

  lemma RankShift(k: nat, r: nat, t: nat)
    requires t < r
    ensures k * t + k <= k * r
  {
    var d := r - t - 1;
    Split(k, t + 1, d);
    QueueShift(k, t);
    assert 0 <= k * d;
  }

  lemma Split(k: nat, a: nat, b: nat)
    ensures k * (a + b) == k * a + k * b
  {}

  /** Once stopped, every step of a core lowers its measure; only the server's own steps leave it. */
  lemma CoreMeasureDrops(c: Config, s: State, a: Action)
    requires c.Valid() && Reachable.Inv(c, s) && s.stop && Enabled(c, s, a) && Local(a)
    ensures var t := Apply(c, s, a);
      if a.ServerApplies? then CoreMeasure(c, t) == CoreMeasure(c, s) else CoreMeasure(c, t) < CoreMeasure(c, s)
  {
    match a
    case Work(i, wa) => WorkMeasureDrops(c, s, i, wa);
    case ServerApplies(_, _) =>
    case _ => ProducerMeasureDrops(c, s, a);
  }

  lemma WorkMeasureDrops(c: Config, s: State, i: nat, wa: WorkerAction)
    requires c.Valid() && Ledger.Tapes(c, s) && Enabled(c, s, Work(i, wa))
    ensures CoreMeasure(c, Apply(c, s, Work(i, wa))) < CoreMeasure(c, s)
  {
    var e := WorkerEffect(c, s, s.workers[i], wa);
    assert Ledger.WorkerOk(c, s.workers[i]);
    ResidualDrops(c, s, s.workers[i], wa);
    TotalUpdate(s.workers, i, e.worker, ResidualOf(c));
    if wa.Take? {
      QueueShift(JobCost(c), |s.queue| - 1);
    }
  }

  lemma ProducerMeasureDrops(c: Config, s: State, a: Action)
    requires c.Valid() && s.stop && Enabled(c, s, a) && Local(a) && !a.Work? && !a.ServerApplies?
    ensures CoreMeasure(c, Apply(c, s, a)) < CoreMeasure(c, s)
  {
    var t := Apply(c, s, a);
    RankShift(JobCost(c) + 1, ProducerRank(s.producer.pc), ProducerRank(t.producer.pc));
    QueueShift(JobCost(c), |s.queue|);
  }

  function PhaseRank(phase: Phase): nat {
    match phase
    case Running => 4
    case Stopping => 3
    case Draining => 2
    case Forced => 1
    case Returned => 0
  }

  function Measure(cfg: Settings, y: System): nat {
    CoreMeasure(cfg.movies, y.movies) + CoreMeasure(cfg.books, y.books) + PhaseRank(y.phase)
  }

  /** A step of one core's producer or workers; the server's steps are not. */
  predicate OfPipeline(a: Action) { Local(a) && !a.ServerApplies? }

  /** A step the server makes. */
  predicate Server(a: SysAction) { (a.Movies? || a.Books?) && a.a.ServerApplies? }

  /** A step the program makes on its own: neither the server's, nor the signal, nor the timer. */
  predicate Program(a: SysAction) { !Server(a) && !a.SignalArrives? && !a.TimerFires? }

  /** Every step costs one, except the server's. */
  function Cost(a: SysAction): nat { if Server(a) then 0 else 1 }

  lemma PhaseRankDrops(cfg: Settings, y: System, a: SysAction)
    requires SysEnabled(cfg, y, a) && !y.phase.Running? && !a.Movies? && !a.Books?
    ensures Measure(cfg, SysApply(cfg, y, a)) < Measure(cfg, y)
  {
    var z := SysApply(cfg, y, a);
    assert z.movies.(forced := y.movies.forced) == y.movies && z.books.(forced := y.books.forced) == y.books;
    assert CoreMeasure(cfg.movies, z.movies) == CoreMeasure(cfg.movies, y.movies);
    assert CoreMeasure(cfg.books, z.books) == CoreMeasure(cfg.books, y.books);
  }

  lemma MeasureDrops(cfg: Settings, y: System, a: SysAction)
    requires cfg.Valid() && SysInv(cfg, y) && !y.phase.Running? && SysEnabled(cfg, y, a)
    ensures Measure(cfg, SysApply(cfg, y, a)) + Cost(a) <= Measure(cfg, y)
  {
    match a
    case Movies(b) => CoreMeasureDrops(cfg.movies, y.movies, b);
    case Books(b) => CoreMeasureDrops(cfg.books, y.books, b);
    case _ => PhaseRankDrops(cfg, y, a);
  }

  lemma StepDrops(cfg: Settings, states: seq<System>, actions: seq<SysAction>, k: nat)
    requires cfg.Valid() && IsSysRun(cfg, states, actions) && k < |actions| && !states[k].phase.Running?
    ensures !states[k + 1].phase.Running?
    ensures Measure(cfg, states[k + 1]) + Cost(actions[k]) <= Measure(cfg, states[k])
  {
    SysInvAlways(cfg, states, actions, k);
    MeasureDrops(cfg, states[k], actions[k]);
  }

  lemma {:induction false} StaysStopped(cfg: Settings, states: seq<System>, actions: seq<SysAction>, i: nat, j: nat)
    requires cfg.Valid() && IsSysRun(cfg, states, actions) && i <= j < |states| && !states[i].phase.Running?
    ensures !states[j].phase.Running?
  {
    if i < j {
      StaysStopped(cfg, states, actions, i, j - 1);
      StepDrops(cfg, states, actions, j - 1);
    }
  }

  lemma LaterDrop(cfg: Settings, states: seq<System>, actions: seq<SysAction>, i: nat, k: nat)
    requires cfg.Valid() && IsSysRun(cfg, states, actions) && i <= k < |actions| && !states[i].phase.Running?
    ensures Measure(cfg, states[k + 1]) + Cost(actions[k]) <= Measure(cfg, states[k])
  {
    StaysStopped(cfg, states, actions, i, k);
    StepDrops(cfg, states, actions, k);
  }

  lemma {:induction false} Descends(ms: seq<nat>, actions: seq<SysAction>, i: nat, j: nat)
    requires |ms| == |actions| + 1 && i <= j <= |actions|
    requires forall k :: i <= k < |actions| ==> ms[k + 1] + Cost(actions[k]) <= ms[k]
    ensures Total(actions[i..j], Cost) + ms[j] <= ms[i]
  {
    if i < j {
      Descends(ms, actions, i, j - 1);
      assert actions[i..j] == actions[i..j - 1] + [actions[j - 1]];
      TotalSnoc(actions[i..j - 1], actions[j - 1], Cost);
    }
  }

  function Measures(cfg: Settings, states: seq<System>): (ms: seq<nat>)
    ensures |ms| == |states|
    ensures forall k :: 0 <= k < |states| ==> ms[k] == Measure(cfg, states[k])
  {
    seq(|states|, k requires 0 <= k < |states| => Measure(cfg, states[k]))
  }

  /** Shutdown terminates: after the signal no run makes more steps, the server's aside, than the measure
      of the state at the signal, whether or not force-cancel happens. */
  lemma ShutdownIsBounded(cfg: Settings, states: seq<System>, actions: seq<SysAction>, i: nat)
    requires cfg.Valid() && IsSysRun(cfg, states, actions) && i < |states| && !states[i].phase.Running?
    ensures Total(actions[i..], Cost) + Measure(cfg, states[|actions|]) <= Measure(cfg, states[i])
  {
    var ms := Measures(cfg, states);
    forall k | i <= k < |actions|
      ensures ms[k + 1] + Cost(actions[k]) <= ms[k]
    {
      LaterDrop(cfg, states, actions, i, k);
    }
    Descends(ms, actions, i, |actions|);
    assert actions[i..|actions|] == actions[i..];
  }

  // ----- no deadlock -----

  /** A stopped producer can always move: a full queue never holds it up. */
  lemma ProducerCanMove(c: Config, s: State) returns (a: Action)
    requires s.stop && !s.producer.pc.Closed?
    ensures Enabled(c, s, a) && Local(a) && !a.Work? && !a.ServerApplies?
  {
    a := match s.producer.pc
      case AtSelect => SelectTop
      case Generating => Generate(0, 0)
      case CountDoc => CountGenerated
      case Sending => AbandonSend
      case ReadDepth(_) => ReadQueueDepth
      case StoreDepth(_, _) => StoreQueueDepth
      case Flushing => if |s.queue| < c.Capacity() then Flush else Drop
      case CountDrop => CountDropped
      case _ => Close;
  }

  /** A worker that has not exited can move, unless it is idle before an open, empty channel; a post can
      always time out. */
  lemma WorkerCanMove(c: Config, s: State, i: nat) returns (a: Action)
    requires i < |s.workers| && !s.workers[i].Exited?
    requires s.workers[i].Idle? ==> s.producer.pc.Closed? || s.queue != []
    ensures Enabled(c, s, a) && a.Work? && a.i == i
  {
    var timeout := TransportFails(Leaf({ContextDeadlineExceeded}));
    assert Classify(timeout).Some?;
    a := Work(i, match s.workers[i]
      case Starting => WorkerAction.Start
      case Idle => if s.queue == [] then SeeClosed else Take
      case Took(_) => WorkerReadDepth
      case Reporting(_, _) => WorkerStoreDepth
      case Ready(_, _) => BeginPost
      case Posting(_, _) => EndPost(timeout)
      case Posted(_, _, _) => FinishRequest
      case Examining(_, _, _) => Examine
      case Decided(_, _, _) => Conclude
      case Counting(_, _, _) => CountDocs
      case Waiting(_, _, _) => WorkerAction.TimerFires
      case Resting => WakeUp
      case _ => Exit);
  }

  /** While its producer runs, a core's pipeline can move: the producer, or a worker of a full queue. */
  lemma RunningCoreCanMove(c: Config, s: State) returns (a: Action)
    requires c.Valid() && Reachable.Inv(c, s) && !s.stop && !s.forced
    ensures Enabled(c, s, a) && OfPipeline(a)
  {
    if s.producer.pc.Sending? && |s.queue| == c.Capacity() {
      assert !Ledger.Leaving(s.workers[0]);
      a := WorkerCanMove(c, s, 0);
    } else {
      a := match s.producer.pc
        case AtSelect => SelectTop
        case Generating => Generate(0, 0)
        case CountDoc => CountGenerated
        case Sending => Send
        case ReadDepth(_) => ReadQueueDepth
        case _ => StoreQueueDepth;
    }
  }

  lemma CoreCanMove(c: Config, s: State) returns (a: Action)
    requires c.Valid() && Reachable.Inv(c, s) && (s.forced ==> s.stop)
    requires !(s.producer.pc.Closed? && Reachable.AllExited(s))
    ensures Enabled(c, s, a) && OfPipeline(a)
  {
    if !s.stop {
      a := RunningCoreCanMove(c, s);
    } else if !s.producer.pc.Closed? {
      a := ProducerCanMove(c, s);
    } else {
      var i :| 0 <= i < |s.workers| && !s.workers[i].Exited?;
      a := WorkerCanMove(c, s, i);
    }
  }

  predicate Done(s: State) { s.producer.pc.Closed? && Reachable.AllExited(s) }

  /** No core ever waits for the other, the signal, the timer or the server: in every state of every run
      of the system each core that has not finished has a pipeline step of its own. */
  lemma CoresNeverStuck(cfg: Settings, states: seq<System>, actions: seq<SysAction>, k: nat)
    requires cfg.Valid() && IsSysRun(cfg, states, actions) && k < |states|
    ensures !Done(states[k].movies) ==> exists a :: SysEnabled(cfg, states[k], Movies(a)) && OfPipeline(a)
    ensures !Done(states[k].books) ==> exists a :: SysEnabled(cfg, states[k], Books(a)) && OfPipeline(a)
  {
    var y := states[k];
    SysInvAlways(cfg, states, actions, k);
    if !Done(y.movies) {
      var a := CoreCanMove(cfg.movies, y.movies);
      assert SysEnabled(cfg, y, Movies(a));
    }
    if !Done(y.books) {
      var a := CoreCanMove(cfg.books, y.books);
      assert SysEnabled(cfg, y, Books(a));
    }
  }

  /** The system cannot deadlock: in every reachable state before the return the program has a step of its
      own, be it running, stopping, draining or forced. */
  lemma NeverStuck(cfg: Settings, states: seq<System>, actions: seq<SysAction>, k: nat) returns (a: SysAction)
    requires cfg.Valid() && IsSysRun(cfg, states, actions) && k < |states| && !states[k].phase.Returned?
    ensures SysEnabled(cfg, states[k], a) && Program(a)
  {
    var y := states[k];
    PhasesFit(cfg, states, actions, k);
    CoresNeverStuck(cfg, states, actions, k);
    if !Done(y.movies) {
      var b :| SysEnabled(cfg, y, Movies(b)) && OfPipeline(b);
      a := Movies(b);
    } else if !Done(y.books) {
      var b :| SysEnabled(cfg, y, Books(b)) && OfPipeline(b);
      a := Books(b);
    } else {
      a := if y.phase.Stopping? then ProducersDone else WorkersDone;
    }
  }

  lemma ExtendSys(cfg: Settings, states: seq<System>, actions: seq<SysAction>, a: SysAction)
    returns (longer: seq<System>, steps: seq<SysAction>)
    requires IsSysRun(cfg, states, actions) && SysEnabled(cfg, states[|actions|], a)
    ensures IsSysRun(cfg, longer, steps) && longer[|steps|] == SysApply(cfg, states[|actions|], a)
    ensures states <= longer
  {
    longer, steps := states + [SysApply(cfg, states[|actions|], a)], actions + [a];
    forall k | 0 <= k < |steps|
      ensures SysEnabled(cfg, longer[k], steps[k]) && longer[k + 1] == SysApply(cfg, longer[k], steps[k])
    {
      if k < |actions| {
        assert longer[k] == states[k] && longer[k + 1] == states[k + 1] && steps[k] == actions[k];
      }
    }
  }

  /** Every run can be carried on to the return of Run. */
  lemma {:induction false} CanReturn(cfg: Settings, states: seq<System>, actions: seq<SysAction>)
    returns (longer: seq<System>, steps: seq<SysAction>)
    requires cfg.Valid() && IsSysRun(cfg, states, actions)
    ensures IsSysRun(cfg, longer, steps) && states <= longer && longer[|steps|].phase.Returned?
    decreases states[|actions|].phase.Running?, Measure(cfg, states[|actions|])
  {
    longer, steps := states, actions;
    if !states[|actions|].phase.Returned? {
      var a := TowardsReturn(cfg, states, actions);
      longer, steps := ExtendSys(cfg, states, actions, a);
      NextIsSmaller(cfg, states[|actions|], a, states, actions);
      longer, steps := CanReturn(cfg, longer, steps);
    }
  }

  lemma TowardsReturn(cfg: Settings, states: seq<System>, actions: seq<SysAction>) returns (a: SysAction)
    requires cfg.Valid() && IsSysRun(cfg, states, actions) && !states[|actions|].phase.Returned?
    ensures SysEnabled(cfg, states[|actions|], a)
    ensures if states[|actions|].phase.Running? then a.SignalArrives? else Program(a)
  {
    PhasesFit(cfg, states, actions, |actions|);
    if states[|actions|].phase.Running? {
      a := SignalArrives;
    } else {
      a := NeverStuck(cfg, states, actions, |actions|);
    }
  }

  lemma NextIsSmaller(cfg: Settings, y: System, a: SysAction, states: seq<System>, actions: seq<SysAction>)
    requires cfg.Valid() && IsSysRun(cfg, states, actions) && y == states[|actions|]
    requires SysEnabled(cfg, y, a) && if y.phase.Running? then a.SignalArrives? else Program(a)
    ensures !SysApply(cfg, y, a).phase.Running?
    ensures !y.phase.Running? ==> Measure(cfg, SysApply(cfg, y, a)) < Measure(cfg, y)
  {
    SysInvAlways(cfg, states, actions, |actions|);
    if !y.phase.Running? {
      MeasureDrops(cfg, y, a);
    }
  }
}
