/** How long things take at least and exactly: what the clocks of Drain make of posts, waits and rests. */
module Durations {
  import opened Pipeline
  import opened Drain
  import Backoff

  predicate ClockedAt(c: Config, states: seq<Timed>, k: nat) { k < |states| && Clocked(c, states[k]) }

  predicate StepAt(c: Config, states: seq<Timed>, actions: seq<TimedAction>, k: nat) {
    && k < |actions| && k + 1 < |states|
    && Clocked(c, states[k]) && TimedEnabled(c, states[k], actions[k])
    && states[k + 1] == TimedApply(c, states[k], actions[k])
  }

  /** Steps of a timed core, from any state. */
  predicate IsTimedPath(c: Config, states: seq<Timed>, actions: seq<TimedAction>) {
    && |states| == |actions| + 1
    && (forall k: nat :: k < |states| ==> ClockedAt(c, states, k))
    && (forall k: nat :: k < |actions| ==> StepAt(c, states, actions, k))
  }

  function Span(a: TimedAction): real { if a.Delay? then a.d else 0.0 }

  /** The time that passes over these actions. */
  function Time(actions: seq<TimedAction>): real {
    if actions == [] then 0.0 else Time(actions[..|actions| - 1]) + Span(actions[|actions| - 1])
  }

  lemma TimeSnoc(actions: seq<TimedAction>, j: nat, k: nat)
    requires j <= k < |actions|
    ensures Time(actions[j..k + 1]) == Time(actions[j..k]) + Span(actions[k])
  {
    assert actions[j..k + 1][..k - j] == actions[j..k];
  }

  predicate Moves(a: TimedAction, i: nat) { a.Do? && a.a.Work? && a.a.i == i }

  /** A worker and the time it has left. */
  datatype Running = Running(w: Worker, left: real)

  /** One worker over a path. */
  function Views(c: Config, states: seq<Timed>, i: nat): (vs: seq<Running>)
    requires i < c.workers
    requires forall k: nat :: k < |states| ==> ClockedAt(c, states, k)
    ensures |vs| == |states|
    ensures forall k: nat :: k < |states| && ClockedAt(c, states, k) ==>
              vs[k] == Running(states[k].s.workers[i], states[k].left[i])
  {
    seq(|states|, k requires 0 <= k < |states| && ClockedAt(c, states, k) =>
      Running(states[k].s.workers[i], states[k].left[i]))
  }

  /** The worker keeps its state while its clock runs down by this much. */
  predicate AgesBy(v: Running, u: Running, d: real) {
    && u.w == v.w && u.left == (if Ticking(v.w) then v.left - d else v.left)
    && (0.0 <= v.left ==> 0.0 <= u.left)
  }

  lemma StepAges(c: Config, t: Timed, a: TimedAction, i: nat)
    requires Clocked(c, t) && TimedEnabled(c, t, a) && i < c.workers && !Moves(a, i)
    ensures var u := TimedApply(c, t, a);
      && Clocked(c, u)
      && AgesBy(Running(t.s.workers[i], t.left[i]), Running(u.s.workers[i], u.left[i]), Span(a))
  {
    if a.Delay? {
      assert MayPass(t.s, t.s.workers[i], t.left[i], a.d);
    }
  }

  lemma {:induction false} AgesAlong(vs: seq<Running>, actions: seq<TimedAction>, j: nat, k: nat)
    requires |vs| == |actions| + 1 && j <= k <= |actions|
    requires forall m :: j <= m < k ==> AgesBy(vs[m], vs[m + 1], Span(actions[m]))
    ensures AgesBy(vs[j], vs[k], Time(actions[j..k]))
  {
    if j < k {
      AgesAlong(vs, actions, j, k - 1);
      TimeSnoc(actions, j, k - 1);
    }
  }

  lemma Ages(c: Config, states: seq<Timed>, actions: seq<TimedAction>, i: nat, j: nat, k: nat)
    requires IsTimedPath(c, states, actions) && j <= k <= |actions| && i < c.workers
    requires forall m :: j <= m < k ==> !Moves(actions[m], i)
    ensures AgesBy(Views(c, states, i)[j], Views(c, states, i)[k], Time(actions[j..k]))
  {
    var vs := Views(c, states, i);
    forall m | j <= m < k
      ensures AgesBy(vs[m], vs[m + 1], Span(actions[m]))
    {
      assert StepAt(c, states, actions, m) && ClockedAt(c, states, m) && ClockedAt(c, states, m + 1);
      StepAges(c, states[m], actions[m], i);
    }
    AgesAlong(vs, actions, j, k);
  }

  /** What a worker's step gives its clock. */
  lemma StepAllots(c: Config, t: Timed, a: TimedAction, i: nat)
    requires Clocked(c, t) && TimedEnabled(c, t, a) && Moves(a, i)
    ensures var u := TimedApply(c, t, a);
      Clocked(c, u) && i < c.workers && u.left[i] == Allotted(c, u.s.workers[i], a.draw)
  {}

  /** Two steps of a worker with none between them. */
  predicate NextMoves(actions: seq<TimedAction>, i: nat, j: nat, k: nat) {
    && j < k < |actions| && Moves(actions[j], i) && Moves(actions[k], i)
    && forall m :: j < m < k ==> !Moves(actions[m], i)
  }

  lemma MovesExisting(c: Config, t: Timed, a: TimedAction, i: nat)
    requires Clocked(c, t) && TimedEnabled(c, t, a) && Moves(a, i)
    ensures i < c.workers && WorkerEnabled(c, t.s, t.s.workers[i], a.a.wa)
    ensures a.a.wa.TimerFires? || a.a.wa.WakeUp? ==> t.left[i] == 0.0
  {}

  /** Between a worker's step j and its next step k its clock runs down from what step j gave it. */
  lemma BetweenMoves(c: Config, states: seq<Timed>, actions: seq<TimedAction>, i: nat, j: nat, k: nat)
    requires IsTimedPath(c, states, actions) && NextMoves(actions, i, j, k)
    ensures i < c.workers && ClockedAt(c, states, k)
    ensures AgesBy(Running(states[k].s.workers[i], Allotted(c, states[k].s.workers[i], actions[j].draw)),
                   Running(states[k].s.workers[i], states[k].left[i]), Time(actions[j + 1..k]))
    ensures WorkerEnabled(c, states[k].s, states[k].s.workers[i], actions[k].a.wa)
    ensures actions[k].a.wa.TimerFires? || actions[k].a.wa.WakeUp? ==> states[k].left[i] == 0.0
  {
    assert StepAt(c, states, actions, j) && StepAt(c, states, actions, k);
    assert ClockedAt(c, states, j + 1) && ClockedAt(c, states, k);
    StepAllots(c, states[j], actions[j], i);
    MovesExisting(c, states[k], actions[k], i);
    Ages(c, states, actions, i, j + 1, k);
  }

  lemma ExactWait(c: Config, w: Worker, draw: real, left: real, spent: real)
    requires w.Waiting? && AgesBy(Running(w, Allotted(c, w, draw)), Running(w, left), spent) && left == 0.0
    ensures spent == Backoff.Jittered(|w.tape| + 1, c.initialBackoff, c.maxBackoff, c.jitter, draw) as real
  {}

  /** A backoff wait that is not cut lasts exactly its jittered duration. */
  lemma WaitsLastExactly(c: Config, states: seq<Timed>, actions: seq<TimedAction>, i: nat, j: nat, k: nat)
    requires IsTimedPath(c, states, actions) && NextMoves(actions, i, j, k) && actions[k].a.wa.TimerFires?
    ensures i < |states[k].s.workers| && states[k].s.workers[i].Waiting?
    ensures Time(actions[j + 1..k]) == Backoff.Jittered(|states[k].s.workers[i].tape| + 1,
              c.initialBackoff, c.maxBackoff, c.jitter, actions[j].draw) as real
  {
    BetweenMoves(c, states, actions, i, j, k);
    ExactWait(c, states[k].s.workers[i], actions[j].draw, states[k].left[i], Time(actions[j + 1..k]));
  }

  lemma ExactRest(c: Config, w: Worker, draw: real, left: real, spent: real)
    requires w.Resting? && AgesBy(Running(w, Allotted(c, w, draw)), Running(w, left), spent) && left == 0.0
    ensures spent == c.workerSleep as real
  {}

  /** A rest that is not cut lasts exactly the configured sleep. */
  lemma RestsLastExactly(c: Config, states: seq<Timed>, actions: seq<TimedAction>, i: nat, j: nat, k: nat)
    requires IsTimedPath(c, states, actions) && NextMoves(actions, i, j, k) && actions[k].a.wa.WakeUp?
    ensures Time(actions[j + 1..k]) == c.workerSleep as real
  {
    BetweenMoves(c, states, actions, i, j, k);
    ExactRest(c, states[k].s.workers[i], actions[j].draw, states[k].left[i], Time(actions[j + 1..k]));
  }

  lemma LongestPost(c: Config, w: Worker, draw: real, left: real, spent: real)
    requires c.Valid() && w.Posting? && AgesBy(Running(w, Allotted(c, w, draw)), Running(w, left), spent)
    ensures spent <= c.requestTimeout as real
  {}

  /** A post lasts at most the request timeout. */
  lemma PostsLastAtMost(c: Config, states: seq<Timed>, actions: seq<TimedAction>, i: nat, j: nat, k: nat)
    requires c.Valid() && IsTimedPath(c, states, actions) && NextMoves(actions, i, j, k) && actions[k].a.wa.EndPost?
    ensures Time(actions[j + 1..k]) <= c.requestTimeout as real
  {
    BetweenMoves(c, states, actions, i, j, k);
    LongestPost(c, states[k].s.workers[i], actions[j].draw, states[k].left[i], Time(actions[j + 1..k]));
  }

  // ----- the least time of a job -----

  /** The shortest wait after attempt n. */
  function ShortestWait(c: Config, n: nat): real {
    Backoff.BestWait(n, c.initialBackoff, c.maxBackoff, c.jitter) as real
  }

  /** The sum of the shortest waits after attempts 1 to m. */
  function ShortestWaits(c: Config, m: nat): real {
    if m == 0 then 0.0 else ShortestWaits(c, m - 1) + ShortestWait(c, m)
  }

  /** The time a worker has spent on its job allows for the waits it has been through. */
  predicate Patient(c: Config, w: Worker, left: real, spent: real) {
    match w
    case Ready(_, tape) => ShortestWaits(c, |tape|) <= spent
    case Posting(_, tape) => ShortestWaits(c, |tape|) <= spent
    case Posted(_, tape, _) => ShortestWaits(c, |tape|) <= spent
    case Examining(_, tape, _) => ShortestWaits(c, |tape|) <= spent
    case Decided(_, tape, _) => ShortestWaits(c, |tape|) <= spent
    case Counting(_, tape, _) => ShortestWaits(c, |tape|) <= spent
    case Waiting(_, tape, _) => ShortestWaits(c, |tape| + 1) <= spent + left
    case _ => 0.0 <= spent
  }

  lemma WorkerStaysPatient(c: Config, s: State, w: Worker, wa: WorkerAction, left: real, draw: real, spent: real)
    requires c.Valid() && WorkerEnabled(c, s, w, wa) && !wa.Take? && 0.0 <= draw < 1.0 && 0.0 <= spent
    requires Patient(c, w, left, spent) && (wa.TimerFires? ==> left == 0.0)
    ensures var v := WorkerEffect(c, s, w, wa).worker; Patient(c, v, Allotted(c, v, draw), spent)
  {
    if wa.Conclude? {
      Backoff.BestWaitBounds(|w.tape| + 1, c.initialBackoff, c.maxBackoff, c.jitter, draw);
    }
  }

  /** Whatever time was spent, the worker stays patient over a step that takes this long. */
  ghost predicate KeepsPatience(c: Config, v: Running, u: Running, d: real) {
    0.0 <= d && forall spent :: 0.0 <= spent && Patient(c, v.w, v.left, spent) ==> Patient(c, u.w, u.left, spent + d)
  }

  lemma AgingKeepsPatience(c: Config, v: Running, u: Running, d: real)
    requires AgesBy(v, u, d) && 0.0 <= d
    ensures KeepsPatience(c, v, u, d)
  {}

  lemma StepKeepsPatience(c: Config, t: Timed, a: TimedAction, i: nat)
    requires c.Valid() && Clocked(c, t) && TimedEnabled(c, t, a) && i < c.workers
    requires Moves(a, i) ==> !a.a.wa.Take?
    ensures var u := TimedApply(c, t, a);
      && Clocked(c, u)
      && KeepsPatience(c, Running(t.s.workers[i], t.left[i]), Running(u.s.workers[i], u.left[i]), Span(a))
  {
    var u := TimedApply(c, t, a);
    if Moves(a, i) {
      forall spent | 0.0 <= spent && Patient(c, t.s.workers[i], t.left[i], spent)
        ensures Patient(c, u.s.workers[i], u.left[i], spent + 0.0)
      {
        WorkerStaysPatient(c, t.s, t.s.workers[i], a.a.wa, t.left[i], a.draw, spent);
      }
    } else {
      StepAges(c, t, a, i);
      AgingKeepsPatience(c, Running(t.s.workers[i], t.left[i]), Running(u.s.workers[i], u.left[i]), Span(a));
    }
  }

  lemma {:induction false} PatientAlong(c: Config, vs: seq<Running>, actions: seq<TimedAction>, j: nat, k: nat)
    requires |vs| == |actions| + 1 && j <= k <= |actions| && Patient(c, vs[j].w, vs[j].left, 0.0)
    requires forall m :: j <= m < k ==> KeepsPatience(c, vs[m], vs[m + 1], Span(actions[m]))
    ensures 0.0 <= Time(actions[j..k]) && Patient(c, vs[k].w, vs[k].left, Time(actions[j..k]))
  {
    if j < k {
      PatientAlong(c, vs, actions, j, k - 1);
      assert KeepsPatience(c, vs[k - 1], vs[k], Span(actions[k - 1]));
      TimeSnoc(actions, j, k - 1);
    }
  }

  /** The worker's last take before state k is action j. */
  predicate LastTake(actions: seq<TimedAction>, i: nat, j: nat, k: nat) {
    && j < k <= |actions| && Moves(actions[j], i) && actions[j].a.wa.Take?
    && forall m :: j < m < k && Moves(actions[m], i) ==> !actions[m].a.wa.Take?
  }

  lemma TakeIsPatient(c: Config, t: Timed, a: TimedAction, i: nat)
    requires Clocked(c, t) && TimedEnabled(c, t, a) && Moves(a, i) && a.a.wa.Take?
    ensures var u := TimedApply(c, t, a);
      Clocked(c, u) && i < c.workers && Patient(c, u.s.workers[i], u.left[i], 0.0)
  {}

  /** Retries take time: when a worker is about to post its job for the n-th time, at least the shortest
      waits after the first n - 1 attempts have passed since it took the job. */
  lemma RetriesTakeTime(c: Config, states: seq<Timed>, actions: seq<TimedAction>, i: nat, j: nat, k: nat)
    requires c.Valid() && IsTimedPath(c, states, actions) && LastTake(actions, i, j, k)
    ensures i < |states[k].s.workers|
    ensures states[k].s.workers[i].Ready? ==>
      ShortestWaits(c, |states[k].s.workers[i].tape|) <= Time(actions[j + 1..k])
  {
    assert StepAt(c, states, actions, j) && ClockedAt(c, states, j + 1) && ClockedAt(c, states, k);
    TakeIsPatient(c, states[j], actions[j], i);
    var vs := Views(c, states, i);
    forall m | j + 1 <= m < k
      ensures KeepsPatience(c, vs[m], vs[m + 1], Span(actions[m]))
    {
      assert StepAt(c, states, actions, m) && ClockedAt(c, states, m) && ClockedAt(c, states, m + 1);
      StepKeepsPatience(c, states[m], actions[m], i);
    }
    PatientAlong(c, vs, actions, j + 1, k);
  }
}
