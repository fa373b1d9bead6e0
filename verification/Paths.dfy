/** Runs built step by step: what a core can reach in an instant, without time passing. */
module Paths {
  import opened Options
  import opened Chunking
  import opened SolrClient
  import opened Pipeline
  import opened Retry
  import opened Stats
  import Backoff
  import Drain
  import Shutdown

  type Clock = Drain.Timed

  predicate Instant(c: Config, t: Clock, a: Drain.TimedAction) {
    Drain.Clocked(c, t) && Drain.TimedEnabled(c, t, a) && a.Do? && Shutdown.Local(a.a)
  }

  predicate Drives(c: Config, t: Clock, path: seq<Drain.TimedAction>, u: Clock)
    decreases |path|
  {
    if path == [] then t == u
    else Instant(c, t, path[0]) && Drives(c, Drain.TimedApply(c, t, path[0]), path[1..], u)
  }

  /** Some instant steps of the core lead from one state to the other. */
  ghost predicate Leads(c: Config, from: Clock, t: Clock) { exists path :: Drives(c, from, path, t) }

  lemma Begins(c: Config, t: Clock)
    ensures Leads(c, t, t)
  {
    assert Drives(c, t, [], t);
  }

  lemma {:induction false} DrivesOn(c: Config, from: Clock, path: seq<Drain.TimedAction>, t: Clock,
                                    a: Drain.TimedAction)
    requires Drives(c, from, path, t) && Instant(c, t, a)
    ensures Drives(c, from, path + [a], Drain.TimedApply(c, t, a))
    decreases |path|
  {
    if path == [] {
      assert (path + [a])[1..] == [];
    } else {
      DrivesOn(c, Drain.TimedApply(c, from, path[0]), path[1..], t, a);
      assert (path + [a])[1..] == path[1..] + [a];
    }
  }

  lemma Step(c: Config, from: Clock, t: Clock, a: Action, draw: real) returns (u: Clock)
    requires Leads(c, from, t) && Instant(c, t, Drain.Do(a, draw))
    ensures u == Drain.TimedApply(c, t, Drain.Do(a, draw)) && Leads(c, from, u)
  {
    u := Drain.TimedApply(c, t, Drain.Do(a, draw));
    var path :| Drives(c, from, path, t);
    DrivesOn(c, from, path, t, Drain.Do(a, draw));
  }

  // ----- one worker at a time -----

  /** Nothing changed but worker i, counters, gauges, the index and the log, where jobs may be finished. */
  predicate Beside(c: Config, t: Clock, u: Clock, i: nat) {
    && Drain.Clocked(c, t) && Drain.Clocked(c, u)
    && (forall k :: 0 <= k < c.workers && k != i ==> u.s.workers[k] == t.s.workers[k] && u.left[k] == t.left[k])
    && u.s.producer == t.s.producer && u.s.stop == t.s.stop && u.s.forced == t.s.forced
    && u.elapsed == t.elapsed && t.s.log.finished <= u.s.log.finished
  }

  lemma BesideTrans(c: Config, t: Clock, u: Clock, v: Clock, i: nat)
    requires Beside(c, t, u, i) && Beside(c, u, v, i)
    ensures Beside(c, t, v, i)
  {}

  /** Worker i can make the step now. */
  predicate Able(c: Config, t: Clock, i: nat, wa: WorkerAction) {
    && Drain.Clocked(c, t) && i < c.workers && WorkerEnabled(c, t.s, t.s.workers[i], wa)
    && (wa.TimerFires? || wa.WakeUp? ==> t.left[i] == 0.0)
  }

  predicate Draw(draw: real) { 0.0 <= draw < 1.0 }

  lemma Work1(c: Config, from: Clock, t: Clock, i: nat, wa: WorkerAction, draw: real) returns (u: Clock)
    requires Leads(c, from, t) && Able(c, t, i, wa) && Draw(draw)
    ensures Leads(c, from, u) && Beside(c, t, u, i)
    ensures var e := WorkerEffect(c, t.s, t.s.workers[i], wa);
      && u.s.workers[i] == e.worker && u.left[i] == Drain.Allotted(c, e.worker, draw)
      && u.s.queue == (if wa.Take? then t.s.queue[1..] else t.s.queue)
      && u.s.index == t.s.index && u.s.counters == e.counters
      && (e.done.Some? ==> e.done.value in u.s.log.finished)
  {
    u := Step(c, from, t, Work(i, wa), draw);
  }

  /** Where a worker is in a drain of the longest possible jobs: in or after its n-th post, with the time
      it has left. */
  datatype Stage =
    | Fresh
    | Free
    | Loaded
    | Inside(n: nat, left: real)
    | Pausing(n: nat, left: real)
    | Napping(left: real)
    | Gone

  predicate AtStage(w: Worker, left: real, stage: Stage) {
    match stage
    case Fresh => w.Starting?
    case Free => w.Idle?
    case Loaded => w.Ready? && w.tape == []
    case Inside(n, l) => w.Posting? && |w.tape| + 1 == n && left == l
    case Pausing(n, l) => w.Waiting? && |w.tape| + 1 == n && left == l
    case Napping(l) => w.Resting? && left == l
    case Gone => w.Exited?
  }

  /** The next stage of a worker whose posts all time out and whose waits are the longest. */
  function Onward(c: Config, stage: Stage): Stage {
    match stage
    case Fresh => Free
    case Free => Loaded
    case Loaded => Inside(1, c.requestTimeout as real)
    case Inside(n, _) => if n < c.attempts then Pausing(n, Drain.LongestWait(c, n)) else Rested(c)
    case Pausing(n, _) => Inside(n + 1, c.requestTimeout as real)
    case Napping(_) => Free
    case Gone => Gone
  }

  function Rested(c: Config): Stage { if c.workerSleep > 0 then Napping(Drain.Sleep(c)) else Free }

  /** The stage can end now. */
  predicate Ripe(c: Config, s: State, stage: Stage) {
    match stage
    case Free => s.queue != []
    case Inside(n, left) => 1 <= n <= c.attempts && left == 0.0
    case Pausing(_, left) => left == 0.0
    case Napping(left) => left == 0.0
    case _ => true
  }

  predicate Worker1(c: Config, t: Clock, i: nat, stage: Stage) {
    Drain.Clocked(c, t) && i < c.workers && AtStage(t.s.workers[i], t.left[i], stage)
  }

  /** One worker moves on to its next stage, and no one else moves. */
  lemma Advance(c: Config, from: Clock, t: Clock, i: nat, stage: Stage) returns (u: Clock)
    requires c.Valid() && Leads(c, from, t) && Worker1(c, t, i, stage)
    requires !t.s.forced && Ripe(c, t.s, stage)
    ensures Leads(c, from, u) && Beside(c, t, u, i) && AtStage(u.s.workers[i], u.left[i], Onward(c, stage))
    ensures u.s.queue == if stage.Free? then t.s.queue[1..] else t.s.queue
  {
    match stage
    case Fresh => u := Work1(c, from, t, i, Start, 0.0);
    case Free => u := Load(c, from, t, i);
    case Loaded => u := Work1(c, from, t, i, BeginPost, 0.0);
    case Inside(n, _) => u := TimeOut(c, from, t, i, n);
    case Pausing(n, _) => u := PostAgain(c, from, t, i, n);
    case Napping(_) => u := Work1(c, from, t, i, WakeUp, 0.0);
    case Gone => u := t;
  }

  lemma PostAgain(c: Config, from: Clock, t: Clock, i: nat, n: nat) returns (u: Clock)
    requires Leads(c, from, t) && Worker1(c, t, i, Pausing(n, 0.0))
    ensures Leads(c, from, u) && Beside(c, t, u, i) && u.s.queue == t.s.queue
    ensures AtStage(u.s.workers[i], u.left[i], Onward(c, Pausing(n, 0.0)))
  {
    var v := Work1(c, from, t, i, WorkerAction.TimerFires, 0.0);
    u := Work1(c, from, v, i, BeginPost, 0.0);
    BesideTrans(c, t, v, u, i);
  }

  lemma Load(c: Config, from: Clock, t: Clock, i: nat) returns (u: Clock)
    requires Leads(c, from, t) && Worker1(c, t, i, Free) && t.s.queue != []
    ensures Leads(c, from, u) && Beside(c, t, u, i) && u.s.queue == t.s.queue[1..]
    ensures u.s.workers[i] == Ready(t.s.queue[0], [])
    ensures u.s.index == t.s.index && u.s.counters == t.s.counters
  {
    var v := Work1(c, from, t, i, Take, 0.0);
    var w := Work1(c, from, v, i, WorkerReadDepth, 0.0);
    BesideTrans(c, t, v, w, i);
    u := Work1(c, from, w, i, WorkerStoreDepth, 0.0);
    BesideTrans(c, t, w, u, i);
  }

  const TIMEOUT := TransportFails(Leaf({ContextDeadlineExceeded}))

  lemma TimeoutIsRetried(attempts: nat, attempt: nat)
    ensures !MentionsCancel(TIMEOUT) && Classify(TIMEOUT).Some?
    ensures var d := Decide(attempts, attempt, TIMEOUT, false);
      if attempt == attempts then d.Fail? else d.TryAgain?
  {}

  /** A post ends with what the environment returns, and the reply is examined. */
  lemma EndPostWith(c: Config, from: Clock, t: Clock, i: nat, x: Exchange) returns (u: Clock)
    requires Leads(c, from, t) && Able(c, t, i, EndPost(x))
    ensures Leads(c, from, u) && Beside(c, t, u, i) && u.s.queue == t.s.queue
    ensures u.s.index == t.s.index && u.s.counters == t.s.counters
    ensures var w := t.s.workers[i]; u.s.workers[i] == Decided(w.job, w.tape, Round(x, t.s.forced, false))
  {
    var v := Work1(c, from, t, i, EndPost(x), 0.0);
    var w := Work1(c, from, v, i, FinishRequest, 0.0);
    BesideTrans(c, t, v, w, i);
    u := Work1(c, from, w, i, Examine, 0.0);
    BesideTrans(c, t, w, u, i);
  }

  lemma TimeOut(c: Config, from: Clock, t: Clock, i: nat, n: nat) returns (u: Clock)
    requires c.Valid() && Leads(c, from, t) && Worker1(c, t, i, Inside(n, 0.0)) && !t.s.forced
    requires 1 <= n <= c.attempts
    ensures Leads(c, from, u) && Beside(c, t, u, i) && u.s.queue == t.s.queue
    ensures AtStage(u.s.workers[i], u.left[i], Onward(c, Inside(n, 0.0)))
  {
    TimeoutIsRetried(c.attempts, n);
    var v := EndPostWith(c, from, t, i, TIMEOUT);
    u := GiveUpOrWait(c, from, v, i, n);
    BesideTrans(c, t, v, u, i);
  }

  lemma GiveUpOrWait(c: Config, from: Clock, t: Clock, i: nat, n: nat) returns (u: Clock)
    requires c.Valid() && Leads(c, from, t) && Drain.Clocked(c, t) && i < c.workers && 1 <= n <= c.attempts
    requires t.s.workers[i].Decided? && |t.s.workers[i].tape| + 1 == n
    requires t.s.workers[i].round == Round(TIMEOUT, false, false)
    ensures Leads(c, from, u) && Beside(c, t, u, i) && u.s.queue == t.s.queue
    ensures AtStage(u.s.workers[i], u.left[i], Onward(c, Inside(n, 0.0)))
  {
    TimeoutIsRetried(c.attempts, n);
    Backoff.WorstWaitOccurs(n, c.initialBackoff, c.maxBackoff, c.jitter);
    u := Work1(c, from, t, i, Conclude, Backoff.WorstDraw(n, c.initialBackoff, c.maxBackoff, c.jitter));
  }

  // ----- workers that leave -----

  predicate CanceledJob(f: Pipeline.Finished) { f.fate.CanceledAtPost? || f.fate.CanceledInBackoff? }

  predicate Lossy(s: State) { exists k :: 0 <= k < |s.log.finished| && CanceledJob(s.log.finished[k]) }

  const CANCELED_POST := TransportFails(Leaf({ContextCanceled}))

  lemma CanceledPostIsCanceled(attempts: nat, attempt: nat, seen: bool)
    ensures Decide(attempts, attempt, CANCELED_POST, seen).Cancel?
    ensures Classify(CANCELED_POST).Some?
  {}

  predicate CanLeave(t: Clock, stage: Stage) {
    && (stage.Free? || stage.Napping? || stage.Inside? || stage.Pausing?)
    && (t.s.forced || (stage.Free? && t.s.producer.pc.Closed? && t.s.queue == []))
  }

  /** Whatever a worker is doing in a forced drain, it can end at once, and loses the job it holds. */
  lemma Leave(c: Config, from: Clock, t: Clock, i: nat, stage: Stage) returns (u: Clock)
    requires Leads(c, from, t) && Worker1(c, t, i, stage) && CanLeave(t, stage)
    ensures Leads(c, from, u) && Beside(c, t, u, i) && u.s.queue == t.s.queue
    ensures AtStage(u.s.workers[i], u.left[i], Gone)
    ensures stage.Inside? || stage.Pausing? ==> Lossy(u.s)
  {
    if stage.Inside? || stage.Pausing? {
      var v := CancelJob(c, from, t, i, stage);
      u := LeaveFree(c, from, v, i);
      BesideTrans(c, t, v, u, i);
    } else {
      u := LeaveFree(c, from, t, i);
    }
  }

  lemma CancelJob(c: Config, from: Clock, t: Clock, i: nat, stage: Stage) returns (u: Clock)
    requires Leads(c, from, t) && Worker1(c, t, i, stage) && t.s.forced && (stage.Inside? || stage.Pausing?)
    ensures Leads(c, from, u) && Beside(c, t, u, i) && u.s.queue == t.s.queue
    ensures (u.s.workers[i].Idle? || u.s.workers[i].Resting?) && Lossy(u.s)
  {
    if stage.Inside? {
      var v := EndPostWith(c, from, t, i, CANCELED_POST);
      u := CancelDecided(c, from, v, i);
      BesideTrans(c, t, v, u, i);
    } else {
      u := Work1(c, from, t, i, CutWait, 0.0);
    }
  }

  lemma CancelDecided(c: Config, from: Clock, t: Clock, i: nat) returns (u: Clock)
    requires Leads(c, from, t) && Drain.Clocked(c, t) && i < c.workers
    requires t.s.workers[i].Decided? && t.s.workers[i].round.x == CANCELED_POST
    ensures Leads(c, from, u) && Beside(c, t, u, i) && u.s.queue == t.s.queue
    ensures (u.s.workers[i].Idle? || u.s.workers[i].Resting?) && Lossy(u.s)
  {
    var w := t.s.workers[i];
    CanceledPostIsCanceled(c.attempts, |w.tape| + 1, w.round.seen);
    u := Work1(c, from, t, i, Conclude, 0.0);
  }

  predicate MayQuit(s: State, w: Worker) {
    (s.forced && (w.Idle? || w.Resting?)) || (w.Idle? && s.producer.pc.Closed? && s.queue == [])
  }

  lemma LeaveFree(c: Config, from: Clock, t: Clock, i: nat) returns (u: Clock)
    requires Leads(c, from, t) && Drain.Clocked(c, t) && i < c.workers && MayQuit(t.s, t.s.workers[i])
    ensures Leads(c, from, u) && Beside(c, t, u, i) && u.s.queue == t.s.queue
    ensures u.s.workers[i].Exited?
  {
    var v := BreakLoop(c, from, t, i);
    u := Work1(c, from, v, i, WorkerAction.Exit, 0.0);
    BesideTrans(c, t, v, u, i);
  }

  lemma BreakLoop(c: Config, from: Clock, t: Clock, i: nat) returns (u: Clock)
    requires Leads(c, from, t) && Drain.Clocked(c, t) && i < c.workers && MayQuit(t.s, t.s.workers[i])
    ensures Leads(c, from, u) && Beside(c, t, u, i) && u.s.queue == t.s.queue
    ensures u.s.workers[i].Exiting?
  {
    if t.s.forced {
      u := Work1(c, from, t, i, Quit, 0.0);
    } else {
      u := Work1(c, from, t, i, SeeClosed, 0.0);
    }
  }

  // ----- all workers -----

  predicate Everyone(c: Config, t: Clock, lo: nat, hi: nat, stage: Stage) {
    Drain.Clocked(c, t) && forall k :: lo <= k < hi && k < c.workers ==> AtStage(t.s.workers[k], t.left[k], stage)
  }

  /** Nothing changed but workers, counters, gauges, the index and the log. */
  predicate Around(c: Config, t: Clock, u: Clock) {
    && Drain.Clocked(c, u)
    && u.s.producer == t.s.producer && u.s.stop == t.s.stop && u.s.forced == t.s.forced
    && u.elapsed == t.elapsed && t.s.log.finished <= u.s.log.finished
  }

  lemma {:induction false} Sweep(c: Config, from: Clock, t: Clock, stage: Stage, n: nat) returns (u: Clock)
    requires c.Valid() && Leads(c, from, t) && Everyone(c, t, 0, c.workers, stage) && n <= c.workers
    requires !t.s.forced && (if stage.Free? then n <= |t.s.queue| else Ripe(c, t.s, stage))
    ensures Leads(c, from, u) && Around(c, t, u)
    ensures Everyone(c, u, 0, n, Onward(c, stage)) && Everyone(c, u, n, c.workers, stage)
    ensures u.s.queue == if stage.Free? then t.s.queue[n..] else t.s.queue
  {
    if n == 0 {
      u := t;
    } else {
      var v := Sweep(c, from, t, stage, n - 1);
      u := Advance(c, from, v, n - 1, stage);
    }
  }

  lemma {:induction false} AllLeave(c: Config, from: Clock, t: Clock, stage: Stage, n: nat) returns (u: Clock)
    requires Leads(c, from, t) && Everyone(c, t, 0, c.workers, stage) && n <= c.workers
    requires CanLeave(t, stage)
    ensures Leads(c, from, u) && Around(c, t, u) && u.s.queue == t.s.queue
    ensures Everyone(c, u, 0, n, Gone) && Everyone(c, u, n, c.workers, stage)
    ensures n > 0 && (stage.Inside? || stage.Pausing?) ==> Lossy(u.s)
  {
    if n == 0 {
      u := t;
    } else {
      var v := AllLeave(c, from, t, stage, n - 1);
      u := Leave(c, from, v, n - 1, stage);
    }
  }

  // ----- the producer -----

  /** Nothing changed but the producer, the queue, the gauges and the producer's counters. */
  predicate Apart(c: Config, t: Clock, u: Clock) {
    && Drain.Clocked(c, t) && Drain.Clocked(c, u)
    && u.s.workers == t.s.workers && u.left == t.left && u.elapsed == t.elapsed
    && u.s.stop == t.s.stop && u.s.forced == t.s.forced && u.s.log == t.s.log
    && u.s.counters.successfulDocs == t.s.counters.successfulDocs
  }

  /** Documents that differ in their ids only. */
  predicate Plain(docs: seq<Doc>) { forall k :: 0 <= k < |docs| ==> docs[k].body == 0 }

  predicate Filling(c: Config, t: Clock) {
    && Drain.Clocked(c, t) && !t.s.stop && |t.s.producer.batch| <= c.batchSize
    && t.s.producer.pc == (if |t.s.producer.batch| < c.batchSize then AtSelect else Sending)
  }

  lemma Step1(c: Config, from: Clock, t: Clock, a: Action) returns (u: Clock)
    requires Leads(c, from, t) && Drain.Clocked(c, t) && Enabled(c, t.s, a) && Shutdown.Local(a) && !a.Work?
    ensures Leads(c, from, u) && u == t.(s := Apply(c, t.s, a))
  {
    u := Step(c, from, t, a, 0.0);
  }

  lemma {:induction false} AddDocs(c: Config, from: Clock, t: Clock, n: nat) returns (u: Clock)
    requires c.Valid() && Leads(c, from, t) && Filling(c, t) && |t.s.producer.batch| + n <= c.batchSize
    ensures Leads(c, from, u) && Filling(c, u) && Apart(c, t, u) && u.s.queue == t.s.queue
    ensures |u.s.producer.batch| == |t.s.producer.batch| + n
    ensures Plain(t.s.producer.batch) ==> Plain(u.s.producer.batch)
  {
    if n == 0 {
      u := t;
    } else {
      var v := AddDocs(c, from, t, n - 1);
      u := AddDoc(c, from, v);
    }
  }

  lemma AddDoc(c: Config, from: Clock, t: Clock) returns (u: Clock)
    requires c.Valid() && Leads(c, from, t) && Filling(c, t) && |t.s.producer.batch| < c.batchSize
    ensures Leads(c, from, u) && Filling(c, u) && Apart(c, t, u) && u.s.queue == t.s.queue
    ensures |u.s.producer.batch| == |t.s.producer.batch| + 1
    ensures Plain(t.s.producer.batch) ==> Plain(u.s.producer.batch)
  {
    var v := Step1(c, from, t, SelectTop);
    var w := Step1(c, from, v, Generate(0, 0));
    u := Step1(c, from, w, CountGenerated);
  }

  predicate BetweenBatches(c: Config, t: Clock) { Filling(c, t) && t.s.producer.batch == [] }

  lemma SendBatch(c: Config, from: Clock, t: Clock) returns (u: Clock)
    requires c.Valid() && Leads(c, from, t) && BetweenBatches(c, t) && |t.s.queue| < c.Capacity()
    ensures Leads(c, from, u) && BetweenBatches(c, u) && Apart(c, t, u)
    ensures |u.s.queue| == |t.s.queue| + 1 && u.s.queue[..|t.s.queue|] == t.s.queue
    ensures var job := u.s.queue[|t.s.queue|]; |job| == c.batchSize && Plain(job)
  {
    var v := AddDocs(c, from, t, c.batchSize);
    u := SendFull(c, from, v);
  }

  lemma SendFull(c: Config, from: Clock, t: Clock) returns (u: Clock)
    requires c.Valid() && Leads(c, from, t) && Filling(c, t) && |t.s.producer.batch| == c.batchSize
    requires |t.s.queue| < c.Capacity()
    ensures Leads(c, from, u) && BetweenBatches(c, u) && Apart(c, t, u) && u.s.queue == t.s.queue + [t.s.producer.batch]
  {
    var v := Step1(c, from, t, Send);
    var w := Step1(c, from, v, ReadQueueDepth);
    u := Step1(c, from, w, StoreQueueDepth);
  }

  lemma {:induction false} SendBatches(c: Config, from: Clock, t: Clock, n: nat) returns (u: Clock)
    requires c.Valid() && Leads(c, from, t) && BetweenBatches(c, t) && |t.s.queue| + n <= c.Capacity()
    ensures Leads(c, from, u) && BetweenBatches(c, u) && Apart(c, t, u) && |u.s.queue| == |t.s.queue| + n
  {
    if n == 0 {
      u := t;
    } else {
      var v := SendBatches(c, from, t, n - 1);
      u := SendBatch(c, from, v);
    }
  }

  /** A stopped producer with an empty buffer closes the channel. */
  lemma CloseUp(c: Config, from: Clock, t: Clock) returns (u: Clock)
    requires Leads(c, from, t) && Drain.Clocked(c, t) && t.s.stop
    requires t.s.producer.pc.AtSelect? && t.s.producer.batch == []
    ensures Leads(c, from, u) && Apart(c, t, u) && u.s.producer.pc.Closed? && u.s.queue == t.s.queue
  {
    var v := Step1(c, from, t, SelectTop);
    u := Step1(c, from, v, Close);
  }

  /** A stopped producer that meets a full channel drops what it has buffered. */
  lemma DropAll(c: Config, from: Clock, t: Clock) returns (u: Clock)
    requires Leads(c, from, t) && Drain.Clocked(c, t) && t.s.stop && |t.s.queue| == c.Capacity()
    requires (t.s.producer.pc.AtSelect? || t.s.producer.pc.Sending?) && t.s.producer.batch != []
    ensures Leads(c, from, u) && Apart(c, t, u) && u.s.producer.dropped == t.s.producer.batch
  {
    var v := t;
    if t.s.producer.pc.Sending? {
      v := Step1(c, from, t, AbandonSend);
    }
    var w := Step1(c, from, v, SelectTop);
    u := Step1(c, from, w, Drop);
  }
}
