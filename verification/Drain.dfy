/** How long a drain can take. Local steps cost no time; a post lasts at most the request timeout, a
    backoff wait exactly its jittered duration and a rest exactly the worker sleep. */
module Drain {
  import opened Sums
  import opened Pipeline
  import Backoff
  import Channel
  import Ledger
  import Reachable
  import Shutdown

  /** A core with clocks: the time each worker may still spend in its state, the jobs it took since the
      channel was closed, and the time since then. */
  datatype Timed = Timed(s: State, left: seq<real>, taken: seq<nat>, elapsed: real)

  datatype TimedAction = Do(a: Action, draw: real) | Delay(d: real)

  function StartTimed(c: Config): Timed {
    Timed(Init(c), seq(c.workers, _ => 0.0), seq(c.workers, _ => 0), 0.0)
  }

  /** The time given to a state on entry. The draw is the random number of the backoff. */
  function Allotted(c: Config, w: Worker, draw: real): real {
    match w
    case Posting(_, _) => c.requestTimeout as real
    case Waiting(_, tape, _) =>
      Backoff.Jittered(|tape| + 1, c.initialBackoff, c.maxBackoff, c.jitter, draw) as real
    case Resting => c.workerSleep as real
    case _ => 0.0
  }

  predicate Clocked(c: Config, t: Timed) { |t.s.workers| == |t.left| == |t.taken| == c.workers }

  /** Time may pass while posts, waits and rests last and idle workers have nothing to take. */
  predicate MayPass(s: State, w: Worker, left: real, d: real) {
    match w
    case Posting(_, _) | Waiting(_, _, _) | Resting => d <= left
    case Idle => s.queue == [] && !s.producer.pc.Closed?
    case Exited => true
    case _ => false
  }

  predicate TimedEnabled(c: Config, t: Timed, a: TimedAction)
    requires Clocked(c, t)
  {
    match a
    case Do(b, draw) =>
      && Enabled(c, t.s, b) && 0.0 <= draw < 1.0
      && (b.Work? && (b.wa.TimerFires? || b.wa.WakeUp?) ==> t.left[b.i] == 0.0)
    case Delay(d) => d > 0.0 && forall i :: 0 <= i < c.workers ==> MayPass(t.s, t.s.workers[i], t.left[i], d)
  }

  predicate Ticking(w: Worker) { w.Posting? || w.Waiting? || w.Resting? }

  function TimedApply(c: Config, t: Timed, a: TimedAction): Timed
    requires Clocked(c, t) && TimedEnabled(c, t, a)
  {
    match a
    case Do(b, draw) =>
      var s := Apply(c, t.s, b);
      if b.Work? then
        Timed(s, t.left[b.i := Allotted(c, s.workers[b.i], draw)],
              if b.wa.Take? && s.producer.pc.Closed? then t.taken[b.i := t.taken[b.i] + 1] else t.taken,
              t.elapsed)
      else t.(s := s)
    case Delay(d) =>
      t.(left := seq(c.workers, i requires 0 <= i < c.workers =>
                   if Ticking(t.s.workers[i]) then t.left[i] - d else t.left[i]),
         elapsed := if t.s.producer.pc.Closed? then t.elapsed + d else t.elapsed)
  }

  // ----- the budget of one job -----

  function Sleep(c: Config): real { c.workerSleep as real }

  /** The longest wait that some draw gives after attempt n. */
  function LongestWait(c: Config, n: nat): real {
    Backoff.WorstWait(n, c.initialBackoff, c.maxBackoff, c.jitter) as real
  }

  /** The longest time from the return of post n to the next job. */
  function AfterPost(c: Config, n: nat): real
    decreases c.attempts - n, 0
  {
    if n < c.attempts then LongestWait(c, n) + Budget(c, n + 1) else Sleep(c)
  }

  /** The longest time from the start of attempt n to the next job. */
  function Budget(c: Config, n: nat): real
    decreases c.attempts - n, 1
  {
    c.requestTimeout as real + AfterPost(c, n)
  }

  /** T: the longest time one job can occupy a worker. */
  function JobTime(c: Config): real { Budget(c, 1) }

  function Waits(c: Config, m: nat): int { Backoff.WorstSum(m, c.initialBackoff, c.maxBackoff, c.jitter) }

  lemma {:induction false} BudgetSum(c: Config, n: nat)
    requires 1 <= n <= c.attempts
    ensures Budget(c, n) == ((c.attempts - n + 1) * c.requestTimeout + c.workerSleep
                             + Waits(c, c.attempts - 1) - Waits(c, n - 1)) as real
    decreases c.attempts - n
  {
    if n < c.attempts {
      BudgetSum(c, n + 1);
      assert Waits(c, n) == Waits(c, n - 1) + Backoff.WorstWait(n, c.initialBackoff, c.maxBackoff, c.jitter);
      Backoff.LinearStep(c.attempts - n + 1, c.requestTimeout);
    } else {
      assert (c.attempts - n + 1) * c.requestTimeout == c.requestTimeout;
    }
  }

  /** T = attempts * requestTimeout + (the sum of the longest waits) + workerSleep, where those waits
      add up to (1 + jitter) times the capped backoffs, less a nanosecond each at most. */
  lemma JobTimeClosedForm(c: Config)
    requires c.Valid()
    ensures JobTime(c) == (c.attempts * c.requestTimeout + Waits(c, c.attempts - 1) + c.workerSleep) as real
    ensures var m := c.attempts - 1;
      var backoffs := Backoff.Scaled(Backoff.BackoffSum(m, c.initialBackoff, c.maxBackoff), 1.0 + c.jitter);
      && Waits(c, m) as real <= backoffs <= (Waits(c, m) + m) as real
      && (c.jitter == 0.0 ==> Waits(c, m) as real == backoffs)
  {
    BudgetSum(c, 1);
    Backoff.WorstSumClosedForm(c.attempts - 1, c.initialBackoff, c.maxBackoff, c.jitter);
  }

  lemma {:induction false} BudgetShrinks(c: Config, n: nat)
    requires c.Valid() && 1 <= n
    ensures 0.0 <= Sleep(c) <= AfterPost(c, n)
    ensures n < c.attempts ==> Budget(c, n + 1) <= Budget(c, n)
    decreases c.attempts - n
  {
    if n < c.attempts {
      BudgetShrinks(c, n + 1);
      Backoff.WorstBelowLongest(n, c.initialBackoff, c.maxBackoff, c.jitter);
    }
  }

  lemma {:induction false} BudgetBelowJobTime(c: Config, n: nat)
    requires c.Valid() && 1 <= n <= c.attempts
    ensures Budget(c, n) <= JobTime(c)
  {
    if n > 1 {
      BudgetBelowJobTime(c, n - 1);
      BudgetShrinks(c, n - 1);
    }
  }

  /** The longest time until the worker is ready for another job. */
  function Remaining(c: Config, w: Worker, left: real): real {
    match w
    case Took(_) => JobTime(c)
    case Reporting(_, _) => JobTime(c)
    case Ready(_, tape) => Budget(c, |tape| + 1)
    case Posting(_, tape) => left + AfterPost(c, |tape| + 1)
    case Posted(_, tape, _) => AfterPost(c, |tape| + 1)
    case Examining(_, tape, _) => AfterPost(c, |tape| + 1)
    case Decided(_, tape, _) => AfterPost(c, |tape| + 1)
    case Counting(_, _, _) => Sleep(c)
    case Waiting(_, tape, _) => left + Budget(c, |tape| + 2)
    case Resting => left
    case _ => 0.0
  }

  /** The facts about attempt n that the remaining time depends on. */
  lemma AttemptTimes(c: Config, n: nat, draw: real)
    requires c.Valid() && 1 <= n && 0.0 <= draw < 1.0
    ensures 0.0 <= Sleep(c) <= AfterPost(c, n) && Sleep(c) <= Budget(c, n + 1)
    ensures 0.0 <= Backoff.Jittered(n, c.initialBackoff, c.maxBackoff, c.jitter, draw) as real <= LongestWait(c, n)
  {
    BudgetShrinks(c, n);
    BudgetShrinks(c, n + 1);
    Backoff.WorstWaitBounds(n, c.initialBackoff, c.maxBackoff, c.jitter, draw);
  }

  /** A step other than taking a job never extends the remaining time. */
  lemma RemainingDrops(c: Config, s: State, w: Worker, wa: WorkerAction, left: real, draw: real)
    requires c.Valid() && Ledger.WorkerOk(c, w) && WorkerEnabled(c, s, w, wa) && !wa.Take?
    requires 0.0 <= left && 0.0 <= draw < 1.0 && (wa.TimerFires? || wa.WakeUp? ==> left == 0.0)
    ensures var v := WorkerEffect(c, s, w, wa).worker;
      && 0.0 <= Allotted(c, v, draw)
      && Remaining(c, v, Allotted(c, v, draw)) <= Remaining(c, w, left)
  {
    match wa
    case Conclude => ConcludeDrops(c, s, w, draw);
    case CountDocs => AttemptTimes(c, 1, draw);
    case CutWait => AttemptTimes(c, |w.tape| + 1, draw);
    case _ =>
  }

  lemma ConcludeDrops(c: Config, s: State, w: Worker, draw: real)
    requires c.Valid() && Ledger.WorkerOk(c, w) && w.Decided? && 0.0 <= draw < 1.0
    ensures var v := WorkerEffect(c, s, w, Conclude).worker;
      && 0.0 <= Allotted(c, v, draw)
      && Remaining(c, v, Allotted(c, v, draw)) <= Remaining(c, w, 0.0)
  {
    var n := |w.tape| + 1;
    AttemptTimes(c, n, draw);
    var v := WorkerEffect(c, s, w, Conclude).worker;
    assert v.Waiting? ==> n < c.attempts;
  }

  // ----- the drain -----

  predicate Draining(t: Timed) { t.s.producer.pc.Closed? && !t.s.forced }

  /** After k jobs taken since the close a worker is done by (k + 1) T, and never later than 3 T. */
  function Deadline(c: Config, k: nat): real {
    var j := JobTime(c);
    if k == 0 then j else if k == 1 then j + j else j + j + j
  }

  /** A worker is on time. */
  predicate OnTime(c: Config, draining: bool, elapsed: real, w: Worker, left: real, taken: nat) {
    && 0.0 <= left && Remaining(c, w, left) <= JobTime(c)
    && (w.Posting? ==> left <= c.requestTimeout as real)
    && (draining && !w.Exited? ==> elapsed + Remaining(c, w, left) <= Deadline(c, taken))
  }

  predicate Timely(c: Config, t: Timed) {
    && Clocked(c, t) && 0.0 <= t.elapsed
    && (forall i :: 0 <= i < c.workers ==>
          OnTime(c, Draining(t), t.elapsed, t.s.workers[i], t.left[i], t.taken[i]))
    && (!t.s.producer.pc.Closed? ==> t.elapsed == 0.0 && forall i :: 0 <= i < c.workers ==> t.taken[i] == 0)
    && (Draining(t) ==> Total(t.taken, Self) + |t.s.queue| <= 2 * c.workers)
  }

  ghost predicate TimedInv(c: Config, t: Timed) { Reachable.Inv(c, t.s) && Timely(c, t) }

  lemma RemainingNonNegative(c: Config, w: Worker, left: real)
    requires c.Valid() && 0.0 <= left
    ensures 0.0 <= Remaining(c, w, left)
    ensures 0.0 < JobTime(c)
  {
    BudgetShrinks(c, 1);
    if Ledger.InLoop(w) {
      BudgetShrinks(c, |w.tape| + 1);
      BudgetShrinks(c, |w.tape| + 2);
    }
  }

  /** While a drain still has a queued job, some worker took at most one since the close: at most 2 T
      have passed. */
  lemma QueueEmptiesSoon(c: Config, t: Timed)
    requires c.Valid() && Timely(c, t) && Ledger.Undisturbed(t.s) && Draining(t) && t.s.queue != []
    ensures t.elapsed <= JobTime(c) + JobTime(c)
  {
    var i := Pigeonhole(t.taken, 1);
    assert !Ledger.Leaving(t.s.workers[i]);
    assert OnTime(c, true, t.elapsed, t.s.workers[i], t.left[i], t.taken[i]);
    RemainingNonNegative(c, t.s.workers[i], t.left[i]);
  }

  lemma TimedInit(c: Config)
    requires c.Valid()
    ensures TimedInv(c, StartTimed(c))
  {
    Reachable.InvInit(c);
    BudgetShrinks(c, 1);
  }

  lemma TakeKeeps(c: Config, t: Timed, i: nat, draw: real)
    requires c.Valid() && Timely(c, t) && Ledger.Undisturbed(t.s) && TimedEnabled(c, t, Do(Work(i, Take), draw))
    ensures Timely(c, TimedApply(c, t, Do(Work(i, Take), draw)))
  {
    RemainingNonNegative(c, Idle, 0.0);
    if Draining(t) {
      QueueEmptiesSoon(c, t);
    }
    TakenOnTime(c, t, i, draw);
    TakenCounts(c, t, i, draw);
  }

  lemma TakenCounts(c: Config, t: Timed, i: nat, draw: real)
    requires Timely(c, t) && TimedEnabled(c, t, Do(Work(i, Take), draw))
    ensures var u := TimedApply(c, t, Do(Work(i, Take), draw));
      && Clocked(c, u) && 0.0 <= u.elapsed
      && (!u.s.producer.pc.Closed? ==> u.elapsed == 0.0 && forall k :: 0 <= k < c.workers ==> u.taken[k] == 0)
      && (Draining(u) ==> Total(u.taken, Self) + |u.s.queue| <= 2 * c.workers)
  {
    TotalUpdate(t.taken, i, t.taken[i] + 1, Self);
  }

  lemma TakenOnTime(c: Config, t: Timed, i: nat, draw: real)
    requires c.Valid() && Timely(c, t) && TimedEnabled(c, t, Do(Work(i, Take), draw)) && 0.0 <= JobTime(c)
    requires Draining(t) ==> t.elapsed <= JobTime(c) + JobTime(c)
    ensures var u := TimedApply(c, t, Do(Work(i, Take), draw));
      forall k :: 0 <= k < c.workers ==> OnTime(c, Draining(u), u.elapsed, u.s.workers[k], u.left[k], u.taken[k])
  {
    assert OnTime(c, Draining(t), t.elapsed, t.s.workers[i], t.left[i], t.taken[i]);
  }

  lemma WorkKeeps(c: Config, t: Timed, i: nat, wa: WorkerAction, draw: real)
    requires c.Valid() && Ledger.Tapes(c, t.s) && Timely(c, t)
    requires TimedEnabled(c, t, Do(Work(i, wa), draw)) && !wa.Take?
    ensures Timely(c, TimedApply(c, t, Do(Work(i, wa), draw)))
  {
    var u := TimedApply(c, t, Do(Work(i, wa), draw));
    var w, v := t.s.workers[i], u.s.workers[i];
    assert Ledger.WorkerOk(c, w);
    RemainingDrops(c, t.s, w, wa, t.left[i], draw);
    assert w.Exited? ==> v.Exited?;
    assert OnTime(c, Draining(t), t.elapsed, w, t.left[i], t.taken[i]);
    assert OnTime(c, Draining(u), u.elapsed, v, u.left[i], u.taken[i]);
  }

  /** A step that leaves workers and clocks alone and does not reopen a drain. */
  lemma FramedKeeps(c: Config, t: Timed, s: State)
    requires Timely(c, t) && s.workers == t.s.workers
    requires s.producer.pc.Closed? <==> t.s.producer.pc.Closed?
    requires (t.s.forced ==> s.forced) && (t.s.producer.pc.Closed? ==> s.queue == t.s.queue)
    ensures Timely(c, t.(s := s))
  {
    forall i | 0 <= i < c.workers
      ensures OnTime(c, Draining(t.(s := s)), t.elapsed, s.workers[i], t.left[i], t.taken[i])
    {
      assert OnTime(c, Draining(t), t.elapsed, t.s.workers[i], t.left[i], t.taken[i]);
    }
  }

  lemma CloseKeeps(c: Config, t: Timed)
    requires c.Valid() && Channel.Fifo(c, t.s) && Timely(c, t) && Enabled(c, t.s, Close)
    ensures Timely(c, t.(s := Apply(c, t.s, Close)))
  {
    TotalZero(t.taken, Self);
    forall i | 0 <= i < c.workers
      ensures OnTime(c, true, t.elapsed, t.s.workers[i], t.left[i], t.taken[i])
    {
      assert OnTime(c, Draining(t), t.elapsed, t.s.workers[i], t.left[i], t.taken[i]);
    }
  }

  lemma OtherKeeps(c: Config, t: Timed, a: Action, draw: real)
    requires c.Valid() && TimedInv(c, t) && TimedEnabled(c, t, Do(a, draw)) && !a.Work?
    ensures Timely(c, TimedApply(c, t, Do(a, draw)))
  {
    if a.Close? {
      CloseKeeps(c, t);
    } else {
      FramedKeeps(c, t, Apply(c, t.s, a));
    }
  }

  lemma DelayInTime(c: Config, elapsed: real, s: State, w: Worker, left: real, taken: nat, d: real)
    requires OnTime(c, s.producer.pc.Closed? && !s.forced, elapsed, w, left, taken) && MayPass(s, w, left, d) && d > 0.0
    ensures OnTime(c, s.producer.pc.Closed? && !s.forced, if s.producer.pc.Closed? then elapsed + d else elapsed,
                   w, if Ticking(w) then left - d else left, taken)
  {}

  lemma DelayKeeps(c: Config, t: Timed, d: real)
    requires Timely(c, t) && TimedEnabled(c, t, Delay(d))
    ensures Timely(c, TimedApply(c, t, Delay(d)))
  {
    var u := TimedApply(c, t, Delay(d));
    forall i | 0 <= i < c.workers
      ensures OnTime(c, Draining(u), u.elapsed, u.s.workers[i], u.left[i], u.taken[i])
    {
      DelayInTime(c, t.elapsed, t.s, t.s.workers[i], t.left[i], t.taken[i], d);
    }
  }

  lemma TimedStep(c: Config, t: Timed, a: TimedAction)
    requires c.Valid() && TimedInv(c, t) && TimedEnabled(c, t, a)
    ensures TimedInv(c, TimedApply(c, t, a))
  {
    match a
    case Delay(d) => DelayKeeps(c, t, d);
    case Do(b, draw) =>
      Reachable.InvStep(c, t.s, b);
      match b
      case Work(i, wa) =>
        if wa.Take? {
          TakeKeeps(c, t, i, draw);
        } else {
          WorkKeeps(c, t, i, wa, draw);
        }
      case _ => OtherKeeps(c, t, b, draw);
  }

  lemma LateMeansExited(c: Config, elapsed: real, w: Worker, left: real, taken: nat)
    requires c.Valid() && OnTime(c, true, elapsed, w, left, taken) && elapsed > 3.0 * JobTime(c)
    ensures w.Exited?
  {
    RemainingNonNegative(c, w, left);
  }

  /** The drain bound: in a drain that is not forced, a worker that has not exited proves that at most
      3 T have passed since the channel was closed. */
  lemma DrainWithinThreeJobTimes(c: Config, t: Timed)
    requires c.Valid() && Timely(c, t) && Draining(t) && t.elapsed > 3.0 * JobTime(c)
    ensures Reachable.AllExited(t.s)
  {
    forall i | 0 <= i < |t.s.workers|
      ensures t.s.workers[i].Exited?
    {
      LateMeansExited(c, t.elapsed, t.s.workers[i], t.left[i], t.taken[i]);
    }
  }

  lemma HeldMeansSleepAhead(c: Config, w: Worker, left: real)
    requires c.Valid() && 0.0 <= left && HoldsJob(w)
    ensures Sleep(c) <= Remaining(c, w, left) && Sleep(c) <= JobTime(c)
  {
    BudgetShrinks(c, 1);
    if Ledger.InLoop(w) {
      BudgetShrinks(c, |w.tape| + 1);
      BudgetShrinks(c, |w.tape| + 2);
    }
  }

  predicate NoWork(s: State) {
    s.queue == [] && forall i :: 0 <= i < |s.workers| ==> !HoldsJob(s.workers[i])
  }

  /** The last rest is no work: in an unforced drain older than 3 T less one rest, no job is queued or
      held any more. */
  lemma WorkEndsARestEarlier(c: Config, t: Timed)
    requires c.Valid() && Timely(c, t) && Ledger.Undisturbed(t.s) && Draining(t)
    requires t.elapsed > 3.0 * JobTime(c) - Sleep(c)
    ensures NoWork(t.s)
  {
    BudgetShrinks(c, 1);
    if t.s.queue != [] {
      QueueEmptiesSoon(c, t);
    }
    forall i | 0 <= i < |t.s.workers|
      ensures !HoldsJob(t.s.workers[i])
    {
      assert OnTime(c, true, t.elapsed, t.s.workers[i], t.left[i], t.taken[i]);
      if HoldsJob(t.s.workers[i]) {
        HeldMeansSleepAhead(c, t.s.workers[i], t.left[i]);
      }
    }
  }

  lemma {:induction false} SmallestLeft(t: Timed, n: nat) returns (d: real)
    requires n <= |t.left| == |t.s.workers|
    requires forall i :: 0 <= i < n && Ticking(t.s.workers[i]) ==> t.left[i] > 0.0
    ensures d > 0.0 && forall i :: 0 <= i < n && Ticking(t.s.workers[i]) ==> d <= t.left[i]
  {
    if n == 0 {
      d := 1.0;
    } else {
      d := SmallestLeft(t, n - 1);
      if Ticking(t.s.workers[n - 1]) && t.left[n - 1] < d {
        d := t.left[n - 1];
      }
    }
  }

  /** A worker whose next step needs no clock, or whose clock has run out. */
  predicate Due(w: Worker, left: real) { !w.Exited? && (!Ticking(w) || w.Posting? || left == 0.0) }

  lemma DelayPossible(c: Config, t: Timed) returns (d: real)
    requires Timely(c, t)
    requires forall i :: 0 <= i < c.workers ==> !Due(t.s.workers[i], t.left[i])
    ensures TimedEnabled(c, t, Delay(d))
  {
    forall i | 0 <= i < c.workers && Ticking(t.s.workers[i])
      ensures t.left[i] > 0.0
    {
      assert OnTime(c, Draining(t), t.elapsed, t.s.workers[i], t.left[i], t.taken[i]);
      assert !Due(t.s.workers[i], t.left[i]);
    }
    d := SmallestLeft(t, c.workers);
    forall i | 0 <= i < c.workers
      ensures MayPass(t.s, t.s.workers[i], t.left[i], d)
    {
      assert !Due(t.s.workers[i], t.left[i]);
    }
  }

  /** The clocks never block a drain: until every worker has exited, a step or time is possible. */
  lemma TimeNeverStops(c: Config, t: Timed) returns (a: TimedAction)
    requires c.Valid() && Timely(c, t) && t.s.producer.pc.Closed? && !Reachable.AllExited(t.s)
    ensures TimedEnabled(c, t, a)
  {
    if i :| 0 <= i < c.workers && Due(t.s.workers[i], t.left[i]) {
      var b := Shutdown.WorkerCanMove(c, t.s, i);
      a := Do(b, 0.0);
    } else {
      var d := DelayPossible(c, t);
      a := Delay(d);
    }
  }
}
