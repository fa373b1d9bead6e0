/** Timed runs of the whole system, built to show which promises the shutdown cannot keep. */
module Scenarios {
  import opened Options
  import opened Pipeline
  import opened Shutdown
  import opened GracefulShutdown
  import opened Paths
  import Drain
  import Ledger
  import Reachable

  /** Some timed run leads to the state. */
  ghost predicate Reached(cfg: Settings, y: TimedSystem) {
    exists states, actions :: IsTimedRun(cfg, states, actions) && states[|actions|] == y
  }

  lemma Starts(cfg: Settings)
    ensures Reached(cfg, StartSystem(cfg))
  {
    assert IsTimedRun(cfg, [StartSystem(cfg)], []);
  }

  lemma ExtendTimed(cfg: Settings, states: seq<TimedSystem>, actions: seq<TimedSysAction>, a: TimedSysAction)
    returns (longer: seq<TimedSystem>, steps: seq<TimedSysAction>)
    requires IsTimedRun(cfg, states, actions)
    requires Clocked(cfg, states[|actions|]) && TimedSysEnabled(cfg, states[|actions|], a)
    ensures IsTimedRun(cfg, longer, steps)
    ensures longer == states + [TimedSysApply(cfg, states[|actions|], a)] && steps == actions + [a]
  {
    longer, steps := states + [TimedSysApply(cfg, states[|actions|], a)], actions + [a];
    forall k | 0 <= k < |steps|
      ensures Clocked(cfg, longer[k]) && TimedSysEnabled(cfg, longer[k], steps[k])
      ensures longer[k + 1] == TimedSysApply(cfg, longer[k], steps[k])
    {
      if k < |actions| {
        assert longer[k] == states[k] && longer[k + 1] == states[k + 1] && steps[k] == actions[k];
      }
    }
  }

  lemma Then(cfg: Settings, y: TimedSystem, a: TimedSysAction) returns (z: TimedSystem)
    requires Reached(cfg, y) && Clocked(cfg, y) && TimedSysEnabled(cfg, y, a)
    ensures z == TimedSysApply(cfg, y, a) && Reached(cfg, z)
  {
    z := TimedSysApply(cfg, y, a);
    var states, actions :| IsTimedRun(cfg, states, actions) && states[|actions|] == y;
    var longer, steps := ExtendTimed(cfg, states, actions, a);
    assert longer[|steps|] == z;
  }

  lemma ReachedIsTimely(cfg: Settings, y: TimedSystem)
    requires cfg.Valid() && Reached(cfg, y)
    ensures TimedSysInv(cfg, y)
  {
    var states, actions :| IsTimedRun(cfg, states, actions) && states[|actions|] == y;
    TimedSysInvAlways(cfg, states, actions, |states|);
  }

  lemma {:induction false} MoviesDrive(cfg: Settings, y: TimedSystem, path: seq<Drain.TimedAction>, u: Drain.Timed)
    requires Reached(cfg, y) && Clocked(cfg, y) && Drives(cfg.movies, y.movies, path, u)
    ensures Reached(cfg, y.(movies := u))
    decreases |path|
  {
    if path != [] {
      var z := Then(cfg, y, Untimed(Movies(path[0].a), path[0].draw));
      StaysClocked(cfg.movies, y.movies, path[0].a, path[0].draw);
      MoviesDrive(cfg, z, path[1..], u);
    } else {
      assert y.(movies := u) == y;
    }
  }

  lemma {:induction false} BooksDrive(cfg: Settings, y: TimedSystem, path: seq<Drain.TimedAction>, u: Drain.Timed)
    requires Reached(cfg, y) && Clocked(cfg, y) && Drives(cfg.books, y.books, path, u)
    ensures Reached(cfg, y.(books := u))
    decreases |path|
  {
    if path != [] {
      var z := Then(cfg, y, Untimed(Books(path[0].a), path[0].draw));
      StaysClocked(cfg.books, y.books, path[0].a, path[0].draw);
      BooksDrive(cfg, z, path[1..], u);
    } else {
      assert y.(books := u) == y;
    }
  }

  /** Steps of one core are steps of the system. */
  lemma MoviesReach(cfg: Settings, y: TimedSystem, u: Drain.Timed) returns (z: TimedSystem)
    requires Reached(cfg, y) && Clocked(cfg, y) && Leads(cfg.movies, y.movies, u)
    ensures z == y.(movies := u) && Reached(cfg, z)
  {
    z := y.(movies := u);
    var path :| Drives(cfg.movies, y.movies, path, u);
    MoviesDrive(cfg, y, path, u);
  }

  lemma BooksReach(cfg: Settings, y: TimedSystem, u: Drain.Timed) returns (z: TimedSystem)
    requires Reached(cfg, y) && Clocked(cfg, y) && Leads(cfg.books, y.books, u)
    ensures z == y.(books := u) && Reached(cfg, z)
  {
    z := y.(books := u);
    var path :| Drives(cfg.books, y.books, path, u);
    BooksDrive(cfg, y, path, u);
  }

  // ----- the longest drain -----

  /** A drain in which all workers of the movies core go through their jobs side by side, with so many
      jobs still queued for each of them, while the books core is done. */
  predicate Lockstep(cfg: Settings, y: TimedSystem, stage: Stage, jobs: nat) {
    && y.phase.Draining? && !y.movies.s.forced && !y.books.s.forced && y.movies.s.producer.pc.Closed?
    && Everyone(cfg.movies, y.movies, 0, cfg.movies.workers, stage)
    && Everyone(cfg.books, y.books, 0, cfg.books.workers, Gone)
    && |y.movies.s.queue| == jobs * cfg.movies.workers
  }

  /** Every worker of a core loads a job, and the channel is full again. */
  lemma LoadAndFill(c: Config) returns (u: Drain.Timed)
    requires c.Valid()
    ensures Leads(c, Drain.StartTimed(c), u) && BetweenBatches(c, u) && Everyone(c, u, 0, c.workers, Loaded)
    ensures |u.s.queue| == 2 * c.workers && !u.s.forced
  {
    var o := Drain.StartTimed(c);
    Begins(c, o);
    var free := Sweep(c, o, o, Fresh, c.workers);
    var sent := SendBatches(c, o, free, c.workers);
    var loaded := Sweep(c, o, sent, Free, c.workers);
    u := SendBatches(c, o, loaded, 2 * c.workers);
  }

  lemma FreeAll(c: Config) returns (u: Drain.Timed)
    requires c.Valid()
    ensures Leads(c, Drain.StartTimed(c), u) && BetweenBatches(c, u) && Everyone(c, u, 0, c.workers, Free)
    ensures u.s.queue == [] && !u.s.forced
  {
    var o := Drain.StartTimed(c);
    Begins(c, o);
    u := Sweep(c, o, o, Fresh, c.workers);
  }

  /** The stopped producer closes, and workers that find nothing leave. */
  lemma CloseAndLeave(c: Config, t: Drain.Timed) returns (u: Drain.Timed)
    requires Drain.Clocked(c, t) && t.s.stop && t.s.producer.pc.AtSelect? && t.s.producer.batch == []
    requires Everyone(c, t, 0, c.workers, Free) && t.s.queue == [] && !t.s.forced
    ensures Leads(c, t, u) && Everyone(c, u, 0, c.workers, Gone) && u.s.producer.pc.Closed? && !u.s.forced
  {
    Begins(c, t);
    var closed := CloseUp(c, t, t);
    u := AllLeave(c, t, closed, Free, c.workers);
  }

  lemma Signaled(cfg: Settings, movies: Drain.Timed, books: Drain.Timed) returns (y: TimedSystem)
    requires Leads(cfg.movies, Drain.StartTimed(cfg.movies), movies) && BetweenBatches(cfg.movies, movies)
    requires Leads(cfg.books, Drain.StartTimed(cfg.books), books) && BetweenBatches(cfg.books, books)
    ensures Reached(cfg, y) && y.phase.Stopping?
    ensures y.movies == movies.(s := movies.s.(stop := true)) && y.books == books.(s := books.s.(stop := true))
  {
    Starts(cfg);
    var a := MoviesReach(cfg, StartSystem(cfg), movies);
    var b := BooksReach(cfg, a, books);
    y := Then(cfg, b, Untimed(SignalArrives, 0.0));
  }

  /** A run in which every worker of a core has just begun a post when the drain begins, and the channel
      is full. */
  lemma LongestDrain(cfg: Settings) returns (y: TimedSystem)
    requires cfg.Valid()
    ensures Reached(cfg, y) && Lockstep(cfg, y, Inside(1, cfg.movies.requestTimeout as real), 2) && y.timer == 0.0
  {
    var c := cfg.movies;
    var movies := LoadAndFill(c);
    var books := FreeAll(cfg.books);
    var a := Signaled(cfg, movies, books);
    Begins(c, a.movies);
    var closed := CloseUp(c, a.movies, a.movies);
    var b := MoviesReach(cfg, a, closed);
    var left := CloseAndLeave(cfg.books, b.books);
    var d := BooksReach(cfg, b, left);
    var e := Then(cfg, d, Untimed(ProducersDone, 0.0));
    Begins(c, e.movies);
    var posting := Sweep(c, e.movies, e.movies, Loaded, c.workers);
    y := MoviesReach(cfg, e, posting);
  }

  function TimeLeft(stage: Stage): real {
    match stage
    case Inside(_, left) => left
    case Pausing(_, left) => left
    case Napping(left) => left
    case _ => 0.0
  }

  function Shorter(stage: Stage, d: real): Stage {
    match stage
    case Inside(n, left) => Inside(n, left - d)
    case Pausing(n, left) => Pausing(n, left - d)
    case Napping(left) => Napping(left - d)
    case _ => stage
  }

  lemma PassesTogether(cfg: Settings, y: TimedSystem, stage: Stage, jobs: nat, d: real)
    requires Lockstep(cfg, y, stage, jobs) && 0.0 < d <= TimeLeft(stage)
    ensures TimedSysEnabled(cfg, y, Pass(d))
    ensures var z := TimedSysApply(cfg, y, Pass(d));
      Lockstep(cfg, z, Shorter(stage, d), jobs) && z.timer == y.timer + d
  {}

  lemma PassTogether(cfg: Settings, y: TimedSystem, stage: Stage, jobs: nat, d: real) returns (z: TimedSystem)
    requires Reached(cfg, y) && Lockstep(cfg, y, stage, jobs) && 0.0 < d <= TimeLeft(stage)
    ensures Reached(cfg, z) && Lockstep(cfg, z, Shorter(stage, d), jobs) && z.timer == y.timer + d
  {
    PassesTogether(cfg, y, stage, jobs, d);
    z := Then(cfg, y, Pass(d));
  }

  lemma TakenOnce(jobs: nat, n: nat)
    requires jobs > 0
    ensures n <= jobs * n && jobs * n - n == (jobs - 1) * n
  {}

  lemma MoveTogether(cfg: Settings, y: TimedSystem, stage: Stage, jobs: nat) returns (z: TimedSystem)
    requires cfg.Valid() && Reached(cfg, y) && Lockstep(cfg, y, stage, jobs)
    requires if stage.Free? then jobs > 0 else Ripe(cfg.movies, y.movies.s, stage)
    ensures Reached(cfg, z) && z.timer == y.timer
    ensures Lockstep(cfg, z, Onward(cfg.movies, stage), if stage.Free? then jobs - 1 else jobs)
  {
    var c := cfg.movies;
    if stage.Free? {
      TakenOnce(jobs, c.workers);
    }
    Begins(c, y.movies);
    var u := Sweep(c, y.movies, y.movies, stage, c.workers);
    z := MoviesReach(cfg, y, u);
  }
}
