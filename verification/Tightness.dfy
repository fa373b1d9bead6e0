/** How tight the shutdown's promises are: for each, the settings under which it can be broken. */
module Tightness {
  import opened Sums
  import opened Pipeline
  import opened Shutdown
  import opened GracefulShutdown
  import opened Paths
  import opened Scenarios
  import Backoff
  import Channel
  import Drain
  import Ledger
  import Reachable

  // ----- where the timer finds the longest drain -----

  function Times(k: nat, x: real): real { if k == 0 then 0.0 else Times(k - 1, x) + x }

  /** How long a stage and the rest of its job last. */
  function StageTime(c: Config, stage: Stage): real {
    match stage
    case Loaded => Drain.JobTime(c)
    case Inside(n, left) => left + Drain.AfterPost(c, n)
    case Pausing(n, left) => left + Drain.Budget(c, n + 1)
    case Napping(left) => left
    case _ => 0.0
  }

  predicate Sane(c: Config, stage: Stage) {
    match stage
    case Inside(n, left) => 1 <= n <= c.attempts && 0.0 <= left
    case Pausing(n, left) => 1 <= n < c.attempts && 0.0 <= left
    case Napping(left) => 0.0 <= left
    case Free | Loaded => true
    case _ => false
  }

  lemma OnwardTime(c: Config, stage: Stage)
    requires c.Valid() && Sane(c, stage) && !stage.Free? && TimeLeft(stage) == 0.0
    ensures Sane(c, Onward(c, stage)) && StageTime(c, Onward(c, stage)) == StageTime(c, stage)
  {
    if stage.Inside? {
      Backoff.WorstBelowLongest(stage.n, c.initialBackoff, c.maxBackoff, c.jitter);
    }
  }

  function Rank(c: Config, stage: Stage): nat {
    match stage
    case Loaded => 2 * c.attempts + 4
    case Inside(n, _) => 2 * Minus(c.attempts, n) + 3
    case Pausing(n, _) => 2 * Minus(c.attempts, n) + 2
    case Napping(_) => 1
    case _ => 0
  }

  predicate Working(stage: Stage) { stage.Loaded? || stage.Inside? || stage.Pausing? }

  /** What the drain of the remaining jobs lasts, but for those to be spared and for the last rest. */
  function Ahead(c: Config, stage: Stage, jobs: nat, spare: nat): real
    requires spare <= jobs
  {
    StageTime(c, stage) + Times(jobs - spare, Drain.JobTime(c)) - (if spare == 0 then Drain.Sleep(c) else 0.0)
  }

  function Min(a: real, b: real): real { if a <= b then a else b }

  predicate Approaching(cfg: Settings, y: TimedSystem, stage: Stage, jobs: nat, spare: nat) {
    var c := cfg.movies;
    && Lockstep(cfg, y, stage, jobs) && Sane(c, stage) && spare <= jobs && (Working(stage) || jobs > 0)
    && y.timer <= c.shutdownTimeout as real <= y.timer + Ahead(c, stage, jobs, spare)
    && (stage.Free? || stage.Loaded? ==> y.timer < c.shutdownTimeout as real)
  }

  /** Side by side, the workers reach the very moment at which the timer fires, with as many jobs still
      queued as the shutdown timeout allows for. */
  lemma {:induction false} RunDown(cfg: Settings, y: TimedSystem, stage: Stage, jobs: nat, spare: nat)
    returns (z: TimedSystem, last: Stage, queued: nat)
    requires cfg.Valid() && Reached(cfg, y) && Approaching(cfg, y, stage, jobs, spare)
    ensures Reached(cfg, z) && Lockstep(cfg, z, last, queued) && z.timer == cfg.movies.shutdownTimeout as real
    ensures spare <= queued && (last.Inside? || last.Pausing? || (last.Napping? && queued > 0))
    decreases jobs, Rank(cfg.movies, stage), if TimeLeft(stage) > 0.0 then 1 else 0
  {
    var c := cfg.movies;
    var rest := c.shutdownTimeout as real - y.timer;
    if rest == 0.0 {
      z, last, queued := y, stage, jobs;
    } else if TimeLeft(stage) > 0.0 {
      var d := Min(rest, TimeLeft(stage));
      var v := PassTogether(cfg, y, stage, jobs, d);
      if d == rest {
        z, last, queued := v, Shorter(stage, d), jobs;
      } else {
        z, last, queued := RunDown(cfg, v, Shorter(stage, d), jobs, spare);
      }
    } else {
      var left := NextIsCloser(cfg, y, stage, jobs, spare);
      var v := MoveTogether(cfg, y, stage, jobs);
      z, last, queued := RunDown(cfg, v, Onward(c, stage), left, spare);
    }
  }

  lemma NextIsCloser(cfg: Settings, y: TimedSystem, stage: Stage, jobs: nat, spare: nat) returns (left: nat)
    requires cfg.Valid() && Approaching(cfg, y, stage, jobs, spare)
    requires TimeLeft(stage) == 0.0 && y.timer < cfg.movies.shutdownTimeout as real
    ensures stage.Free? ==> jobs > spare
    ensures left == (if stage.Free? then jobs - 1 else jobs)
    ensures var next := Onward(cfg.movies, stage);
      && Sane(cfg.movies, next) && (Working(next) || left > 0) && spare <= left
      && Ahead(cfg.movies, next, left, spare) == Ahead(cfg.movies, stage, jobs, spare)
    ensures left < jobs || (left == jobs && Rank(cfg.movies, Onward(cfg.movies, stage)) < Rank(cfg.movies, stage))
  {
    var c := cfg.movies;
    left := if stage.Free? then jobs - 1 else jobs;
    if !stage.Free? {
      OnwardTime(c, stage);
    }
  }

  // ----- after the timer -----

  lemma FireTimer(cfg: Settings, y: TimedSystem, stage: Stage, jobs: nat) returns (z: TimedSystem)
    requires Reached(cfg, y) && Lockstep(cfg, y, stage, jobs) && y.timer >= cfg.movies.shutdownTimeout as real
    ensures Reached(cfg, z) && z.phase.Forced? && z.movies == y.movies.(s := y.movies.s.(forced := true))
    ensures z.books == y.books.(s := y.books.s.(forced := true))
  {
    z := Then(cfg, y, Untimed(SysAction.TimerFires, 0.0));
  }

  lemma EndRun(cfg: Settings, y: TimedSystem) returns (z: TimedSystem)
    requires Reached(cfg, y) && y.phase.Forced?
    requires Everyone(cfg.movies, y.movies, 0, cfg.movies.workers, Gone)
    requires Everyone(cfg.books, y.books, 0, cfg.books.workers, Gone)
    ensures Reached(cfg, z) && z == y.(phase := Returned)
  {
    z := Then(cfg, y, Untimed(WorkersDone, 0.0));
  }

  /** The timer fires, every worker leaves at once, and Run returns. */
  lemma ForceOut(cfg: Settings, y: TimedSystem, stage: Stage, jobs: nat) returns (z: TimedSystem)
    requires cfg.Valid() && Reached(cfg, y) && Lockstep(cfg, y, stage, jobs)
    requires stage.Inside? || stage.Pausing? || stage.Napping?
    requires y.timer >= cfg.movies.shutdownTimeout as real
    ensures Reached(cfg, z) && z.phase.Returned? && z.movies.s.forced && z.movies.s.queue == y.movies.s.queue
    ensures stage.Inside? || stage.Pausing? ==> Lossy(z.movies.s)
  {
    var c := cfg.movies;
    var v := FireTimer(cfg, y, stage, jobs);
    Begins(c, v.movies);
    var u := AllLeave(c, v.movies, v.movies, stage, c.workers);
    var w := MoviesReach(cfg, v, u);
    z := EndRun(cfg, w);
  }

  lemma LossyDocs(c: Config, s: State)
    requires Ledger.Tapes(c, s) && Lossy(s)
    ensures Reachable.CanceledDocCount(s) > 0
  {
    var k :| 0 <= k < |s.log.finished| && CanceledJob(s.log.finished[k]);
    GatherAtLeast(s.log.finished, k);
  }

  lemma {:induction false} GatherAtLeast(fs: seq<Pipeline.Finished>, k: nat)
    requires k < |fs|
    ensures |Ledger.CanceledDocs(fs[k])| <= |Gather(fs, Ledger.CanceledDocs)|
  {
    var n := |fs| - 1;
    if k < n {
      GatherAtLeast(fs[..n], k);
    }
  }

  lemma QueuedDocs(c: Config, s: State)
    requires Channel.Shape(c, s) && s.queue != []
    ensures |Flatten(s.queue)| > 0
  {
    var n := |s.queue| - 1;
    assert s.queue[n] == s.producer.enqueued[|s.log.dequeued| + n];
  }

  lemma LostIsIncomplete(c: Config, s: State)
    requires c.Valid() && Reachable.Inv(c, s) && s.producer.pc.Closed? && Reachable.AllExited(s)
    requires Lossy(s) || s.queue != []
    ensures !Complete(s)
  {
    Reachable.FinalAccount(c, s);
    if Lossy(s) {
      LossyDocs(c, s);
    } else {
      QueuedDocs(c, s);
    }
  }

  // ----- the exact conditions -----

  /** The longest drain, cut by the timer. */
  lemma CutDrain(cfg: Settings, spare: nat) returns (z: TimedSystem, last: Stage)
    requires cfg.Valid() && spare <= 1
    requires cfg.movies.shutdownTimeout as real <= LastMoment(cfg.movies, spare)
    ensures Reached(cfg, z) && z.phase.Returned? && z.movies.s.forced
    ensures spare > 0 ==> z.movies.s.queue != []
    ensures Lossy(z.movies.s) || z.movies.s.queue != []
  {
    var c := cfg.movies;
    var y := LongestDrain(cfg);
    var stage := Inside(1, c.requestTimeout as real);
    AheadOfAll(c, spare);
    var v, l, queued := RunDown(cfg, y, stage, 2, spare);
    last := l;
    z := ForceOut(cfg, v, last, queued);
    if queued > 0 {
      Positive(queued, c.workers);
    }
  }

  lemma AheadOfAll(c: Config, spare: nat)
    requires spare <= 1
    ensures Ahead(c, Inside(1, c.requestTimeout as real), 2, spare) == LastMoment(c, spare)
  {
    var t := Drain.JobTime(c);
    assert Times(1, t) == Times(0, t) + t && Times(2, t) == Times(1, t) + t;
    assert StageTime(c, Inside(1, c.requestTimeout as real)) == Drain.Budget(c, 1);
  }

  lemma Positive(a: nat, b: nat)
    requires a > 0 && b > 0
    ensures a * b > 0
  {}

  /** The last moment at which the longest drain still has work, or still has a queued job. */
  function LastMoment(c: Config, spare: nat): real {
    if spare == 0 then 3.0 * Drain.JobTime(c) - Drain.Sleep(c) else 2.0 * Drain.JobTime(c)
  }

  /** Every timed run that returns has accounted for every document by a success, a final failure or the
      one dropped batch. */
  ghost predicate NothingLost(cfg: Settings) {
    forall y :: Reached(cfg, y) && y.phase.Returned? ==> Complete(y.movies.s) && Complete(y.books.s)
  }

  /** The drain bound is tight: force-cancel loses nothing in any timed run exactly when the shutdown
      timeout exceeds three job times less the last rest. */
  lemma NothingLostExactly(cfg: Settings)
    requires cfg.Valid()
    ensures NothingLost(cfg) <==> Roomy(cfg.movies)
  {
    if Roomy(cfg.movies) {
      forall y | Reached(cfg, y) && y.phase.Returned?
        ensures Complete(y.movies.s) && Complete(y.books.s)
      {
        RoomyLosesNothing(cfg, y);
      }
    } else {
      var z, last := CutDrain(cfg, 0);
      ReturnedIncomplete(cfg, z);
    }
  }

  lemma ReturnedIncomplete(cfg: Settings, z: TimedSystem)
    requires cfg.Valid() && Reached(cfg, z) && z.phase.Returned?
    requires Lossy(z.movies.s) || z.movies.s.queue != []
    ensures !Complete(z.movies.s)
  {
    ReachedIsTimely(cfg, z);
    LostIsIncomplete(cfg.movies, z.movies.s);
  }

  lemma {:induction false} SameTimes(c: Config, d: Config, n: nat)
    requires c == d.(prefix := c.prefix, workers := c.workers) && 1 <= n
    ensures Drain.Budget(c, n) == Drain.Budget(d, n)
    decreases c.attempts - n
  {
    if n < c.attempts {
      SameTimes(c, d, n + 1);
    }
  }

  lemma RoomyLosesNothing(cfg: Settings, y: TimedSystem)
    requires cfg.Valid() && Reached(cfg, y) && y.phase.Returned? && Roomy(cfg.movies)
    ensures Complete(y.movies.s) && Complete(y.books.s)
  {
    SameTimes(cfg.books, cfg.movies, 1);
    var states, actions :| IsTimedRun(cfg, states, actions) && states[|actions|] == y;
    ForceFindsNothing(cfg, states, actions, |actions|);
  }

  /** For the default settings and a shutdown timeout to choose, nothing is ever lost exactly above 102.5
      seconds less twelve nanoseconds; the default of 20 seconds is too short. */
  lemma DefaultsLoseNothingExactly(movies: string, books: string, shutdownTimeout: int)
    requires shutdownTimeout >= 5_000_000_000
    ensures var cfg := Settings(Defaults(movies, shutdownTimeout), Defaults(books, shutdownTimeout));
      NothingLost(cfg) <==> shutdownTimeout > 102_499_999_988
  {
    DefaultsAreRoomyExactly(movies, shutdownTimeout);
    NothingLostExactly(Settings(Defaults(movies, shutdownTimeout), Defaults(books, shutdownTimeout)));
  }

  /** Queued jobs are lost in some timed run exactly when the shutdown timeout is at most two job times. */
  lemma QueuedJobsLostExactly(cfg: Settings)
    requires cfg.Valid()
    ensures (exists y :: Reached(cfg, y) && y.phase.Returned? && (y.movies.s.queue != [] || y.books.s.queue != []))
      <==> !RoomyForQueue(cfg.movies)
  {
    if RoomyForQueue(cfg.movies) {
      forall y | Reached(cfg, y) && y.phase.Returned?
        ensures y.movies.s.queue == [] && y.books.s.queue == []
      {
        QueueEmptied(cfg, y);
      }
    } else {
      var z, last := CutDrain(cfg, 1);
    }
  }

  lemma QueueEmptied(cfg: Settings, y: TimedSystem)
    requires cfg.Valid() && Reached(cfg, y) && y.phase.Returned? && RoomyForQueue(cfg.movies)
    ensures y.movies.s.queue == [] && y.books.s.queue == []
  {
    SameTimes(cfg.books, cfg.movies, 1);
    ReachedIsTimely(cfg, y);
    Reachable.FinalAccount(cfg.movies, y.movies.s);
    Reachable.FinalAccount(cfg.books, y.books.s);
  }

  /** The timer cuts a post that was in flight when the drain began, in some timed run, exactly when both
      timeouts are equal. */
  lemma OldPostsCutExactly(cfg: Settings)
    requires cfg.Valid()
    ensures (exists states, actions, books, i, begin, end ::
               IsTimedRun(cfg, states, actions) && CutsOldPost(cfg, states, actions, books, i, begin, end))
      <==> cfg.movies.requestTimeout == cfg.movies.shutdownTimeout
  {
    if cfg.movies.requestTimeout == cfg.movies.shutdownTimeout {
      var states, actions, begin := CutOldPost(cfg);
    } else {
      forall states, actions, books, i, begin, end | IsTimedRun(cfg, states, actions)
        ensures !CutsOldPost(cfg, states, actions, books, i, begin, end)
      {
        OldPostsFinish(cfg, states, actions, books, i, begin, end);
      }
    }
  }

  lemma CutOldPost(cfg: Settings) returns (states: seq<TimedSystem>, actions: seq<TimedSysAction>, begin: nat)
    requires cfg.Valid() && cfg.movies.requestTimeout == cfg.movies.shutdownTimeout
    ensures IsTimedRun(cfg, states, actions) && CutsOldPost(cfg, states, actions, false, 0, begin, begin + 1)
  {
    var d := cfg.movies.requestTimeout as real;
    var y := LongestDrain(cfg);
    var past, steps :| IsTimedRun(cfg, past, steps) && past[|steps|] == y;
    begin := |steps|;
    states, actions := PassAndFire(cfg, past, steps, d);
  }

  lemma PassAndFire(cfg: Settings, past: seq<TimedSystem>, steps: seq<TimedSysAction>, d: real)
    returns (states: seq<TimedSystem>, actions: seq<TimedSysAction>)
    requires IsTimedRun(cfg, past, steps) && Lockstep(cfg, past[|steps|], Inside(1, d), 2)
    requires 0.0 < d && past[|steps|].timer == 0.0 && d >= cfg.movies.shutdownTimeout as real && cfg.movies.workers >= 1
    ensures IsTimedRun(cfg, states, actions)
    ensures CutsOldPost(cfg, states, actions, false, 0, |steps|, |steps| + 1)
  {
    var y := past[|steps|];
    PassesTogether(cfg, y, Inside(1, d), 2, d);
    var z := TimedSysApply(cfg, y, Pass(d));
    var next, more := ExtendTimed(cfg, past, steps, Pass(d));
    assert next[|more|] == z;
    states, actions := ExtendTimed(cfg, next, more, Untimed(SysAction.TimerFires, 0.0));
    assert states[|steps|] == y && states[|steps| + 1] == z;
    assert actions[|steps|] == Pass(d);
    StillPosting(cfg, y, z, d);
  }

  lemma StillPosting(cfg: Settings, y: TimedSystem, z: TimedSystem, d: real)
    requires Lockstep(cfg, y, Inside(1, d), 2) && Lockstep(cfg, z, Inside(1, 0.0), 2) && cfg.movies.workers >= 1
    ensures PostingAt(cfg, y, false, 0) && PostingAt(cfg, z, false, 0)
  {}

  /** A producer about to be stopped with this many documents in its buffer and a full channel. */
  lemma FillUp(c: Config, size: nat) returns (u: Drain.Timed)
    requires c.Valid() && size <= c.batchSize
    ensures Leads(c, Drain.StartTimed(c), u) && Filling(c, u) && |u.s.queue| == c.Capacity()
    ensures |u.s.producer.batch| == size
  {
    var o := Drain.StartTimed(c);
    Begins(c, o);
    var full := SendBatches(c, o, o, c.Capacity());
    u := AddDocs(c, o, full, size);
  }

  lemma SignalAtOnce(cfg: Settings, movies: Drain.Timed) returns (y: TimedSystem)
    requires Leads(cfg.movies, Drain.StartTimed(cfg.movies), movies) && Drain.Clocked(cfg.movies, movies)
    requires !movies.s.stop
    ensures Reached(cfg, y) && Clocked(cfg, y) && y.movies == movies.(s := movies.s.(stop := true))
  {
    Starts(cfg);
    var a := MoviesReach(cfg, StartSystem(cfg), movies);
    y := Then(cfg, a, Untimed(SignalArrives, 0.0));
  }

  lemma BatchCanBeDropped(cfg: Settings, size: nat) returns (z: TimedSystem)
    requires cfg.Valid() && 1 <= size <= cfg.movies.batchSize
    ensures Reached(cfg, z) && |z.movies.s.producer.dropped| == size
  {
    var movies := FillUp(cfg.movies, size);
    var y := SignalAtOnce(cfg, movies);
    Begins(cfg.movies, y.movies);
    var dropped := DropAll(cfg.movies, y.movies, y.movies);
    z := MoviesReach(cfg, y, dropped);
  }

  /** How much a stopped producer can drop: anything up to one batch, in some run, and never more. */
  lemma DroppedSizesExactly(cfg: Settings, size: nat)
    requires cfg.Valid()
    ensures (exists y :: Reached(cfg, y) && |y.movies.s.producer.dropped| == size) <==> size <= cfg.movies.batchSize
  {
    if size == 0 {
      Starts(cfg);
      assert StartSystem(cfg).movies.s.producer.dropped == [];
    } else if size <= cfg.movies.batchSize {
      var z := BatchCanBeDropped(cfg, size);
    } else {
      forall y | Reached(cfg, y)
        ensures |y.movies.s.producer.dropped| != size
      {
        ReachedIsTimely(cfg, y);
        assert Channel.Sizes(cfg.movies, y.movies.s.producer);
      }
    }
  }
}
