/** The timed two-phase shutdown: what a shutdown timeout beyond the drain bound rules out. */
module GracefulShutdown {
  import opened Sums
  import opened Pipeline
  import opened Shutdown
  import Backoff
  import Drain
  import Ledger
  import Reachable

  /** Both cores with their clocks, and the shutdown timer. */
  datatype TimedSystem = TimedSystem(movies: Drain.Timed, books: Drain.Timed, phase: Phase, timer: real)

  /** The draw is the random number a worker entering a backoff uses. */
  datatype TimedSysAction = Untimed(a: SysAction, draw: real) | Pass(d: real)

  function Untime(y: TimedSystem): System { System(y.movies.s, y.books.s, y.phase) }

  function StartSystem(cfg: Settings): TimedSystem {
    TimedSystem(Drain.StartTimed(cfg.movies), Drain.StartTimed(cfg.books), Running, 0.0)
  }

  predicate Clocked(cfg: Settings, y: TimedSystem) {
    Drain.Clocked(cfg.movies, y.movies) && Drain.Clocked(cfg.books, y.books)
  }

  predicate TimedSysEnabled(cfg: Settings, y: TimedSystem, a: TimedSysAction)
    requires Clocked(cfg, y)
  {
    match a
    case Pass(d) =>
      Drain.TimedEnabled(cfg.movies, y.movies, Drain.Delay(d)) && Drain.TimedEnabled(cfg.books, y.books, Drain.Delay(d))
    case Untimed(b, draw) =>
      && SysEnabled(cfg, Untime(y), b)
      && (match b
          case Movies(m) => Drain.TimedEnabled(cfg.movies, y.movies, Drain.Do(m, draw))
          case Books(m) => Drain.TimedEnabled(cfg.books, y.books, Drain.Do(m, draw))
          case TimerFires => y.timer >= cfg.movies.shutdownTimeout as real
          case _ => true)
  }

  /** Both producers have stopped: the timer starts. */
  function TimedSysApply(cfg: Settings, y: TimedSystem, a: TimedSysAction): TimedSystem
    requires Clocked(cfg, y) && TimedSysEnabled(cfg, y, a)
  {
    match a
    case Pass(d) =>
      TimedSystem(Drain.TimedApply(cfg.movies, y.movies, Drain.Delay(d)),
                  Drain.TimedApply(cfg.books, y.books, Drain.Delay(d)),
                  y.phase, if y.phase.Draining? then y.timer + d else y.timer)
    case Untimed(b, draw) =>
      match b
      case Movies(m) => y.(movies := Drain.TimedApply(cfg.movies, y.movies, Drain.Do(m, draw)))
      case Books(m) => y.(books := Drain.TimedApply(cfg.books, y.books, Drain.Do(m, draw)))
      case ProducersDone => y.(phase := Draining, timer := 0.0)
      case WorkersDone => y.(phase := Returned)
      case SignalArrives =>
        TimedSystem(y.movies.(s := Apply(cfg.movies, y.movies.s, Stop)),
                    y.books.(s := Apply(cfg.books, y.books.s, Stop)), Stopping, y.timer)
      case TimerFires =>
        TimedSystem(y.movies.(s := Apply(cfg.movies, y.movies.s, Force)),
                    y.books.(s := Apply(cfg.books, y.books.s, Force)), Forced, y.timer)
  }

  predicate IsTimedRun(cfg: Settings, states: seq<TimedSystem>, actions: seq<TimedSysAction>) {
    && |states| == |actions| + 1
    && states[0] == StartSystem(cfg)
    && forall k :: 0 <= k < |actions| ==>
         && Clocked(cfg, states[k]) && TimedSysEnabled(cfg, states[k], actions[k])
         && states[k + 1] == TimedSysApply(cfg, states[k], actions[k])
  }

  /** Forgetting the clocks, a timed step is an untimed step or none at all. */
  lemma TimedRefines(cfg: Settings, y: TimedSystem, a: TimedSysAction)
    requires Clocked(cfg, y) && TimedSysEnabled(cfg, y, a)
    ensures var z := Untime(TimedSysApply(cfg, y, a));
      if a.Pass? then z == Untime(y) else z == SysApply(cfg, Untime(y), a.a)
  {}

  /** The shutdown timeout leaves room for three job times, less the rest after the last. */
  predicate Roomy(c: Config) { c.shutdownTimeout as real > 3.0 * Drain.JobTime(c) - Drain.Sleep(c) }

  /** No job is queued or held, and none was canceled. */
  predicate Clean(s: State) {
    && Drain.NoWork(s)
    && forall k :: 0 <= k < |s.log.finished| ==>
         s.log.finished[k].fate.Succeeded? || s.log.finished[k].fate.Failed?
  }

  /** The queue is empty by the time the timer can fire. */
  predicate RoomyForQueue(c: Config) { c.shutdownTimeout as real > 2.0 * Drain.JobTime(c) }

  predicate CoreInv(c: Config, phase: Phase, timer: real, t: Drain.Timed) {
    && Drain.Timely(c, t)
    && (phase.Draining? ==> timer <= t.elapsed)
    && (Roomy(c) && t.s.forced ==> Clean(t.s))
    && (RoomyForQueue(c) && t.s.forced ==> t.s.queue == [])
  }

  ghost predicate TimedSysInv(cfg: Settings, y: TimedSystem) {
    && SysInv(cfg, Untime(y))
    && CoreInv(cfg.movies, y.phase, y.timer, y.movies) && CoreInv(cfg.books, y.phase, y.timer, y.books)
  }

  lemma CleanStays(c: Config, phase: Phase, s: State, a: Action)
    requires InPhase(phase, s) && Enabled(c, s, a) && Local(a)
    ensures Apply(c, s, a).forced == s.forced
    ensures s.forced && Clean(s) ==> Clean(Apply(c, s, a))
    ensures s.forced && s.queue == [] ==> Apply(c, s, a).queue == []
  {}

  lemma CoreStep(c: Config, phase: Phase, timer: real, t: Drain.Timed, a: Action, draw: real)
    requires c.Valid() && Reachable.Inv(c, t.s) && CoreInv(c, phase, timer, t) && InPhase(phase, t.s) && Local(a)
    requires Drain.TimedEnabled(c, t, Drain.Do(a, draw))
    ensures CoreInv(c, phase, timer, Drain.TimedApply(c, t, Drain.Do(a, draw)))
  {
    Drain.TimedStep(c, t, Drain.Do(a, draw));
    CleanStays(c, phase, t.s, a);
    DoKeepsTime(c, t, a, draw);
  }

  lemma DoKeepsTime(c: Config, t: Drain.Timed, a: Action, draw: real)
    requires Drain.Clocked(c, t) && Drain.TimedEnabled(c, t, Drain.Do(a, draw))
    ensures var u := Drain.TimedApply(c, t, Drain.Do(a, draw));
      u.elapsed == t.elapsed && u.s == Apply(c, t.s, a)
  {}

  lemma CorePass(c: Config, phase: Phase, timer: real, t: Drain.Timed, d: real)
    requires c.Valid() && Reachable.Inv(c, t.s) && CoreInv(c, phase, timer, t) && InPhase(phase, t.s)
    requires Drain.TimedEnabled(c, t, Drain.Delay(d))
    ensures CoreInv(c, phase, if phase.Draining? then timer + d else timer, Drain.TimedApply(c, t, Drain.Delay(d)))
  {
    Drain.TimedStep(c, t, Drain.Delay(d));
  }

  lemma CoreStop(c: Config, timer: real, t: Drain.Timed)
    requires CoreInv(c, Running, timer, t) && Enabled(c, t.s, Stop)
    ensures CoreInv(c, Stopping, timer, t.(s := Apply(c, t.s, Stop)))
  {
    Drain.FramedKeeps(c, t, Apply(c, t.s, Stop));
  }

  /** When the timer fires, at least the shutdown timeout has passed since either channel closed. */
  lemma CleanAtTimeout(c: Config, timer: real, t: Drain.Timed)
    requires c.Valid() && Reachable.Inv(c, t.s) && CoreInv(c, Draining, timer, t) && InPhase(Draining, t.s)
    requires timer >= c.shutdownTimeout as real
    ensures Roomy(c) ==> Clean(t.s)
    ensures RoomyForQueue(c) ==> t.s.queue == []
  {
    if Roomy(c) {
      Drain.WorkEndsARestEarlier(c, t);
    }
    if t.s.queue != [] {
      Drain.QueueEmptiesSoon(c, t);
    }
  }

  lemma CoreForce(c: Config, timer: real, t: Drain.Timed)
    requires Drain.Timely(c, t) && (Roomy(c) ==> Clean(t.s)) && !t.s.forced
    requires RoomyForQueue(c) ==> t.s.queue == []
    ensures CoreInv(c, Forced, timer, t.(s := Apply(c, t.s, Force)))
  {
    Drain.FramedKeeps(c, t, Apply(c, t.s, Force));
  }

  lemma CoreTimeout(c: Config, timer: real, t: Drain.Timed)
    requires c.Valid() && Reachable.Inv(c, t.s) && CoreInv(c, Draining, timer, t) && InPhase(Draining, t.s)
    requires timer >= c.shutdownTimeout as real
    ensures CoreInv(c, Forced, timer, t.(s := Apply(c, t.s, Force)))
  {
    CleanAtTimeout(c, timer, t);
    CoreForce(c, timer, t);
  }

  lemma TimedSysStep(cfg: Settings, y: TimedSystem, a: TimedSysAction)
    requires cfg.Valid() && TimedSysInv(cfg, y) && TimedSysEnabled(cfg, y, a)
    ensures TimedSysInv(cfg, TimedSysApply(cfg, y, a))
  {
    match a
    case Pass(d) => PassStep(cfg, y, d);
    case Untimed(b, draw) => UntimedStep(cfg, y, b, draw);
  }

  lemma PassStep(cfg: Settings, y: TimedSystem, d: real)
    requires cfg.Valid() && TimedSysInv(cfg, y) && TimedSysEnabled(cfg, y, Pass(d))
    ensures TimedSysInv(cfg, TimedSysApply(cfg, y, Pass(d)))
  {
    TimedRefines(cfg, y, Pass(d));
    CorePass(cfg.movies, y.phase, y.timer, y.movies, d);
    CorePass(cfg.books, y.phase, y.timer, y.books, d);
  }

  lemma UntimedStep(cfg: Settings, y: TimedSystem, b: SysAction, draw: real)
    requires cfg.Valid() && TimedSysInv(cfg, y) && TimedSysEnabled(cfg, y, Untimed(b, draw))
    ensures TimedSysInv(cfg, TimedSysApply(cfg, y, Untimed(b, draw)))
  {
    TimedRefines(cfg, y, Untimed(b, draw));
    SysInvStep(cfg, Untime(y), b);
    match b
    case Movies(m) => CoreStep(cfg.movies, y.phase, y.timer, y.movies, m, draw);
    case Books(m) => CoreStep(cfg.books, y.phase, y.timer, y.books, m, draw);
    case SignalArrives =>
      CoreStop(cfg.movies, y.timer, y.movies);
      CoreStop(cfg.books, y.timer, y.books);
    case TimerFires =>
      CoreTimeout(cfg.movies, y.timer, y.movies);
      CoreTimeout(cfg.books, y.timer, y.books);
    case _ =>
  }

  lemma RunStep(cfg: Settings, states: seq<TimedSystem>, actions: seq<TimedSysAction>, k: nat)
    requires cfg.Valid() && IsTimedRun(cfg, states, actions) && 0 < k < |states|
    requires TimedSysInv(cfg, states[k - 1])
    ensures TimedSysInv(cfg, states[k])
  {
    TimedSysStep(cfg, states[k - 1], actions[k - 1]);
  }

  lemma StartsWell(cfg: Settings)
    requires cfg.Valid()
    ensures TimedSysInv(cfg, StartSystem(cfg))
  {
    CoreStarts(cfg.movies);
    CoreStarts(cfg.books);
  }

  lemma CoreStarts(c: Config)
    requires c.Valid()
    ensures Reachable.Inv(c, Init(c)) && InPhase(Running, Init(c))
    ensures CoreInv(c, Running, 0.0, Drain.StartTimed(c))
  {
    Drain.TimedInit(c);
  }

  lemma FirstState(cfg: Settings, states: seq<TimedSystem>, actions: seq<TimedSysAction>)
    requires cfg.Valid() && IsTimedRun(cfg, states, actions)
    ensures TimedSysInv(cfg, states[0])
  {
    StartsWell(cfg);
  }

  ghost predicate GoodUpTo(cfg: Settings, states: seq<TimedSystem>, n: nat) {
    forall j :: 0 <= j < n && j < |states| ==> TimedSysInv(cfg, states[j])
  }

  lemma {:induction false} TimedSysInvAlways(cfg: Settings, states: seq<TimedSystem>, actions: seq<TimedSysAction>,
                                             n: nat)
    requires cfg.Valid() && IsTimedRun(cfg, states, actions) && n <= |states|
    ensures GoodUpTo(cfg, states, n)
  {
    if n == 1 {
      FirstState(cfg, states, actions);
    } else if n > 1 {
      TimedSysInvAlways(cfg, states, actions, n - 1);
      RunStep(cfg, states, actions, n - 1);
    }
  }

  /** With a roomy timeout, force-cancel never finds outstanding work of a core, in any timed run:
      whenever its context is force-canceled the core is already clean, and when Run returns every
      document it generated has succeeded, failed for good, or was in the one dropped batch. */
  lemma ForceFindsNothing(cfg: Settings, states: seq<TimedSystem>, actions: seq<TimedSysAction>, k: nat)
    requires cfg.Valid() && IsTimedRun(cfg, states, actions) && k < |states|
    ensures var y := states[k];
      && (Roomy(cfg.movies) ==>
            (y.movies.s.forced ==> Clean(y.movies.s)) && (y.phase.Returned? ==> Complete(y.movies.s)))
      && (Roomy(cfg.books) ==>
            (y.books.s.forced ==> Clean(y.books.s)) && (y.phase.Returned? ==> Complete(y.books.s)))
  {
    TimedSysInvAlways(cfg, states, actions, k + 1);
    var y := states[k];
    if y.phase.Returned? && Roomy(cfg.movies) {
      CompleteAtReturn(cfg.movies, y.timer, y.movies);
    }
    if y.phase.Returned? && Roomy(cfg.books) {
      CompleteAtReturn(cfg.books, y.timer, y.books);
    }
  }

  predicate Complete(s: State) {
    s.counters.generatedDocs == s.counters.successfulDocs + Reachable.FailedDocCount(s) + |s.producer.dropped|
  }

  lemma CompleteAtReturn(c: Config, timer: real, t: Drain.Timed)
    requires c.Valid() && Reachable.Inv(c, t.s) && CoreInv(c, Returned, timer, t) && InPhase(Returned, t.s)
    requires Roomy(c)
    ensures Complete(t.s)
  {
    Reachable.FinalAccount(c, t.s);
    if t.s.forced {
      GatherEmpty(t.s.log.finished, Ledger.CanceledDocs);
    }
  }

  // ----- posts in flight when the drain begins -----

  function CoreOf(y: TimedSystem, books: bool): Drain.Timed { if books then y.books else y.movies }

  function ConfigOf(cfg: Settings, books: bool): Config { if books then cfg.books else cfg.movies }

  predicate Moves(a: TimedSysAction, books: bool, i: nat) {
    && a.Untimed?
    && match a.a
       case Movies(Work(k, _)) => !books && k == i
       case Books(Work(k, _)) => books && k == i
       case _ => false
  }

  predicate PostingAt(cfg: Settings, y: TimedSystem, books: bool, i: nat) {
    Clocked(cfg, y) && i < ConfigOf(cfg, books).workers && CoreOf(y, books).s.workers[i].Posting?
  }

  /** While a worker stays in its post, its allowance shrinks by exactly what the timer gains. */
  predicate AgedOnce(cfg: Settings, y: TimedSystem, z: TimedSystem, books: bool, i: nat)
    requires PostingAt(cfg, y, books, i)
  {
    && PostingAt(cfg, z, books, i)
    && CoreOf(z, books).left[i] + z.timer == CoreOf(y, books).left[i] + y.timer
  }

  lemma PassAges(cfg: Settings, y: TimedSystem, d: real, books: bool, i: nat)
    requires PostingAt(cfg, y, books, i) && TimedSysEnabled(cfg, y, Pass(d)) && y.phase.Draining?
    ensures AgedOnce(cfg, y, TimedSysApply(cfg, y, Pass(d)), books, i)
  {
    PostOutlasts(cfg.movies, y.movies, Drain.Delay(d), i);
    PostOutlasts(cfg.books, y.books, Drain.Delay(d), i);
  }

  lemma MoviesStepAges(cfg: Settings, y: TimedSystem, m: Action, draw: real, books: bool, i: nat)
    requires PostingAt(cfg, y, books, i) && TimedSysEnabled(cfg, y, Untimed(Movies(m), draw))
    requires !Moves(Untimed(Movies(m), draw), books, i)
    ensures AgedOnce(cfg, y, TimedSysApply(cfg, y, Untimed(Movies(m), draw)), books, i)
  {
    if !books {
      PostOutlasts(cfg.movies, y.movies, Drain.Do(m, draw), i);
    } else {
      StaysClocked(cfg.movies, y.movies, m, draw);
    }
  }

  lemma BooksStepAges(cfg: Settings, y: TimedSystem, m: Action, draw: real, books: bool, i: nat)
    requires PostingAt(cfg, y, books, i) && TimedSysEnabled(cfg, y, Untimed(Books(m), draw))
    requires !Moves(Untimed(Books(m), draw), books, i)
    ensures AgedOnce(cfg, y, TimedSysApply(cfg, y, Untimed(Books(m), draw)), books, i)
  {
    if books {
      PostOutlasts(cfg.books, y.books, Drain.Do(m, draw), i);
    } else {
      StaysClocked(cfg.books, y.books, m, draw);
    }
  }

  lemma StaysClocked(c: Config, t: Drain.Timed, a: Action, draw: real)
    requires Drain.Clocked(c, t) && Drain.TimedEnabled(c, t, Drain.Do(a, draw))
    ensures Drain.Clocked(c, Drain.TimedApply(c, t, Drain.Do(a, draw)))
  {}

  lemma PostAgesByTimer(cfg: Settings, y: TimedSystem, a: TimedSysAction, books: bool, i: nat)
    requires PostingAt(cfg, y, books, i) && TimedSysEnabled(cfg, y, a) && !Moves(a, books, i)
    requires y.phase.Draining? && TimedSysApply(cfg, y, a).phase.Draining?
    ensures AgedOnce(cfg, y, TimedSysApply(cfg, y, a), books, i)
  {
    match a
    case Pass(d) => PassAges(cfg, y, d, books, i);
    case Untimed(Movies(m), draw) => MoviesStepAges(cfg, y, m, draw, books, i);
    case Untimed(Books(m), draw) => BooksStepAges(cfg, y, m, draw, books, i);
    case _ =>
  }

  lemma PostOutlasts(c: Config, t: Drain.Timed, a: Drain.TimedAction, i: nat)
    requires Drain.Clocked(c, t) && Drain.TimedEnabled(c, t, a)
    requires a.Do? && a.a.Work? ==> a.a.i != i
    ensures var u := Drain.TimedApply(c, t, a);
      && Drain.Clocked(c, u)
      && (i < c.workers && t.s.workers[i].Posting? ==>
            u.s.workers[i] == t.s.workers[i] && u.left[i] == t.left[i] - (if a.Delay? then a.d else 0.0))
  {}

  lemma PostAgesOnce(cfg: Settings, states: seq<TimedSystem>, actions: seq<TimedSysAction>, books: bool, i: nat, k: nat)
    requires IsTimedRun(cfg, states, actions) && 0 < k < |states| && PostingAt(cfg, states[k - 1], books, i)
    requires states[k - 1].phase.Draining? && states[k].phase.Draining? && !Moves(actions[k - 1], books, i)
    ensures AgedOnce(cfg, states[k - 1], states[k], books, i)
  {
    PostAgesByTimer(cfg, states[k - 1], actions[k - 1], books, i);
  }

  /** From begin up to end the worker stays in one post that ages with the timer. */
  ghost predicate Aged(cfg: Settings, states: seq<TimedSystem>, books: bool, i: nat, begin: nat, end: nat)
    requires begin <= end < |states| && PostingAt(cfg, states[begin], books, i)
  {
    forall k :: begin <= k <= end ==>
      && PostingAt(cfg, states[k], books, i)
      && CoreOf(states[k], books).left[i] + states[k].timer
         == CoreOf(states[begin], books).left[i] + states[begin].timer
  }

  lemma {:induction false} PostAges(cfg: Settings, states: seq<TimedSystem>, actions: seq<TimedSysAction>,
                                    books: bool, i: nat, begin: nat, end: nat)
    requires IsTimedRun(cfg, states, actions) && begin <= end < |states| && PostingAt(cfg, states[begin], books, i)
    requires forall k :: begin <= k <= end ==> states[k].phase.Draining?
    requires forall k :: begin <= k < end ==> !Moves(actions[k], books, i)
    ensures Aged(cfg, states, books, i, begin, end)
  {
    if begin < end {
      PostAges(cfg, states, actions, books, i, begin, end - 1);
      PostAgesOnce(cfg, states, actions, books, i, end);
    }
  }

  /** A post in flight when the drain begins has returned before the timer can force anything, unless
      it began at that very instant under a request timeout equal to the shutdown timeout. */
  lemma OldPostsAge(cfg: Settings, states: seq<TimedSystem>, actions: seq<TimedSysAction>,
                    books: bool, i: nat, begin: nat, end: nat)
    requires cfg.Valid() && IsTimedRun(cfg, states, actions)
    requires InFlightThroughDrain(cfg, states, actions, books, i, begin, end)
    requires states[end].timer >= cfg.movies.shutdownTimeout as real
    ensures var c := ConfigOf(cfg, books);
      c.requestTimeout == c.shutdownTimeout && CoreOf(states[begin], books).left[i] == c.requestTimeout as real
  {
    PostAges(cfg, states, actions, books, i, begin, end);
    PostAllowance(cfg, states, actions, books, i, begin);
    PostAllowance(cfg, states, actions, books, i, end);
  }

  /** A worker is in a post when the drain begins, and in the same post at the given later state of it. */
  ghost predicate InFlightThroughDrain(cfg: Settings, states: seq<TimedSystem>, actions: seq<TimedSysAction>,
                                       books: bool, i: nat, begin: nat, end: nat)
  {
    && begin <= end < |states| == |actions| + 1
    && (forall k :: begin <= k <= end ==> states[k].phase.Draining?)
    && states[begin].timer == 0.0 && PostingAt(cfg, states[begin], books, i)
    && (forall k :: begin <= k < end ==> !Moves(actions[k], books, i))
  }

  /** The timer fires on a post that was in flight when the drain began. */
  ghost predicate CutsOldPost(cfg: Settings, states: seq<TimedSystem>, actions: seq<TimedSysAction>,
                              books: bool, i: nat, begin: nat, end: nat)
  {
    && InFlightThroughDrain(cfg, states, actions, books, i, begin, end)
    && end < |actions| && actions[end].Untimed? && actions[end].a == SysAction.TimerFires
  }

  /** What the usage text promises: under a request timeout below the shutdown timeout, every post in
      flight when the drain begins returns before the timer can force anything. */
  lemma OldPostsFinish(cfg: Settings, states: seq<TimedSystem>, actions: seq<TimedSysAction>,
                       books: bool, i: nat, begin: nat, end: nat)
    requires cfg.Valid() && IsTimedRun(cfg, states, actions)
    requires cfg.movies.requestTimeout < cfg.movies.shutdownTimeout
    ensures !CutsOldPost(cfg, states, actions, books, i, begin, end)
  {
    if CutsOldPost(cfg, states, actions, books, i, begin, end) {
      assert TimedSysEnabled(cfg, states[end], actions[end]);
      OldPostsAge(cfg, states, actions, books, i, begin, end);
    }
  }

  lemma PostAllowance(cfg: Settings, states: seq<TimedSystem>, actions: seq<TimedSysAction>,
                      books: bool, i: nat, k: nat)
    requires cfg.Valid() && IsTimedRun(cfg, states, actions) && k < |states| && PostingAt(cfg, states[k], books, i)
    ensures 0.0 <= CoreOf(states[k], books).left[i] <= ConfigOf(cfg, books).requestTimeout as real
  {
    TimedSysInvAlways(cfg, states, actions, k + 1);
    var t := CoreOf(states[k], books);
    assert Drain.OnTime(ConfigOf(cfg, books), Drain.Draining(t), t.elapsed, t.s.workers[i], t.left[i], t.taken[i]);
  }

  /** The seeder's default settings, with a shutdown timeout to choose. */
  function Defaults(prefix: string, shutdownTimeout: int): Config {
    Config(prefix, 10, 10, 5, 250_000_000, 5_000_000_000, shutdownTimeout,
           500_000_000, 5_000_000_000, 0.2, true)
  }

  /** One job can occupy a default worker for 34.25 seconds less four nanoseconds, so a shutdown timeout
      is roomy exactly above three times that less the rest of a quarter second; the default of 20 seconds
      is not. */
  lemma DefaultsAreRoomyExactly(prefix: string, shutdownTimeout: int)
    ensures Drain.JobTime(Defaults(prefix, shutdownTimeout)) == 34_249_999_996.0
    ensures Roomy(Defaults(prefix, shutdownTimeout)) <==> shutdownTimeout > 102_499_999_988
    ensures RoomyForQueue(Defaults(prefix, shutdownTimeout)) <==> shutdownTimeout > 68_499_999_992
  {
    var c := Defaults(prefix, shutdownTimeout);
    DefaultWaits();
    Drain.BudgetSum(c, 1);
    assert c.attempts * c.requestTimeout == 25_000_000_000;
  }

  lemma DefaultWaits()
    ensures Backoff.WorstSum(4, 500_000_000, 5_000_000_000, 0.2) == 8_999_999_996
    ensures Backoff.WorstSum(0, 500_000_000, 5_000_000_000, 0.2) == 0
  {
    DefaultWait(1, 500_000_000);
    DefaultWait(2, 1_000_000_000);
    DefaultWait(3, 2_000_000_000);
    DefaultWait(4, 4_000_000_000);
    var i, m := 500_000_000, 5_000_000_000;
    assert Backoff.WorstSum(1, i, m, 0.2) == 599_999_999;
    assert Backoff.WorstSum(2, i, m, 0.2) == 1_799_999_998;
    assert Backoff.WorstSum(3, i, m, 0.2) == 4_199_999_997;
  }

  lemma DefaultWait(n: nat, base: int)
    requires (n == 1 && base == 500_000_000) || (n == 2 && base == 1_000_000_000)
          || (n == 3 && base == 2_000_000_000) || (n == 4 && base == 4_000_000_000)
    ensures Backoff.WorstWait(n, 500_000_000, 5_000_000_000, 0.2) * 5 == base * 6 - 5
  {
    assert Backoff.Pow2(0) == 1 && Backoff.Pow2(1) == 2;
    assert Backoff.Pow2(2) == 2 * Backoff.Pow2(1) && Backoff.Pow2(3) == 2 * Backoff.Pow2(2);
    assert Backoff.Longest(n, 500_000_000, 5_000_000_000, 0.2) == base as real * 1.2;
  }
}
