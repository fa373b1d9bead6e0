/** The worker side over whole runs: every job's retry loop, its single fate, and the counters. */
module Ledger {
  import opened Options
  import opened Sums
  import opened Chunking
  import opened SolrClient
  import opened Stats
  import opened Retry
  import opened Pipeline
  import Channel

  // ----- each worker's loop follows Judge -----

  predicate AllRetried(tape: seq<Round>) { forall k :: 0 <= k < |tape| ==> Retried(tape[k]) }

  predicate JobSized(c: Config, job: Job) { 1 <= |job| <= c.batchSize }

  predicate WorkerOk(c: Config, w: Worker) {
    && (HoldsJob(w) ==> JobSized(c, w.job))
    && match w
       case Ready(_, tape) => AllRetried(tape) && |tape| < c.attempts
       case Posting(_, tape) => AllRetried(tape) && |tape| < c.attempts
       case Posted(_, tape, _) => AllRetried(tape) && |tape| < c.attempts
       case Examining(_, tape, _) => AllRetried(tape) && |tape| < c.attempts
       case Decided(_, tape, round) => AllRetried(tape) && |tape| < c.attempts && !round.cut
       case Counting(_, tape, round) => AllRetried(tape) && |tape| < c.attempts && Classify(round.x).None?
       case Waiting(_, tape, round) => AllRetried(tape) && |tape| + 1 < c.attempts && Retried(round)
       case _ => true
  }

  /** How many retries a finished job was counted for. */
  function FinalRetries(f: Finished): nat {
    if f.fate.CanceledInBackoff? || f.tape == [] then |f.tape| else |f.tape| - 1
  }

  predicate FinishedOk(c: Config, f: Finished) {
    && JobSized(c, f.job)
    && 1 <= |f.tape| <= c.attempts && FinalRetries(f) < c.attempts
    && !f.fate.FellThrough? && !f.fate.Pending?
    && Judge(c.attempts, 1, f.tape) == Outcome(f.fate, |f.tape|)
  }

  predicate Tapes(c: Config, s: State) {
    && (forall i :: 0 <= i < |s.workers| ==> WorkerOk(c, s.workers[i]))
    && (forall k :: 0 <= k < |s.log.finished| ==> FinishedOk(c, s.log.finished[k]))
  }

  lemma EndsAsJudged(c: Config, tape: seq<Round>, last: Round)
    requires AllRetried(tape) && |tape| < c.attempts
    ensures Judge(c.attempts, 1, tape + [last]) == Later(Judge(c.attempts, 1 + |tape|, [last]), |tape|)
  {
    JudgeSnoc(c.attempts, 1, tape, last);
  }

  predicate EffectFine(c: Config, e: Effect) {
    WorkerOk(c, e.worker) && (e.done.Some? ==> FinishedOk(c, e.done.value))
  }

  lemma EffectOk(c: Config, s: State, w: Worker, wa: WorkerAction)
    requires c.Valid() && WorkerOk(c, w) && WorkerEnabled(c, s, w, wa)
    requires wa.Take? ==> JobSized(c, s.queue[0])
    ensures EffectFine(c, WorkerEffect(c, s, w, wa))
  {
    match wa
    case Conclude => ConcludeOk(c, s, w);
    case CountDocs => EndsAsJudged(c, w.tape, w.round);
    case CutWait => EndsAsJudged(c, w.tape, w.round.(cut := true));
    case _ =>
  }

  lemma ConcludeOk(c: Config, s: State, w: Worker)
    requires c.Valid() && WorkerOk(c, w) && w.Decided?
    ensures EffectFine(c, WorkerEffect(c, s, w, Conclude))
  {
    EndsAsJudged(c, w.tape, w.round);
  }

  lemma TapesStep(c: Config, s: State, a: Action)
    requires c.Valid() && Channel.Shape(c, s) && Tapes(c, s) && Enabled(c, s, a)
    ensures Tapes(c, Apply(c, s, a))
  {
    if a.Work? {
      TapesWork(c, s, a.i, a.wa);
    }
  }

  lemma TapesWork(c: Config, s: State, i: nat, wa: WorkerAction)
    requires c.Valid() && Channel.Shape(c, s) && Tapes(c, s) && Enabled(c, s, Work(i, wa))
    ensures Tapes(c, ApplyWorker(c, s, i, wa))
  {
    if wa.Take? {
      FirstIsSized(c, s);
    }
    EffectOk(c, s, s.workers[i], wa);
    EffectKeepsTapes(c, s, ApplyWorker(c, s, i, wa), i, WorkerEffect(c, s, s.workers[i], wa));
  }

  lemma FirstIsSized(c: Config, s: State)
    requires Channel.Sizes(c, s.producer) && Channel.Fifo(c, s) && s.queue != []
    ensures JobSized(c, s.queue[0])
  {
    assert s.producer.enqueued[|s.log.dequeued|] == s.queue[0];
  }

  lemma EffectKeepsTapes(c: Config, s: State, t: State, i: nat, e: Effect)
    requires Tapes(c, s) && EffectFine(c, e) && i < |s.workers| && t.workers == s.workers[i := e.worker]
    requires t.log.finished == if e.done.Some? then s.log.finished + [e.done.value] else s.log.finished
    ensures Tapes(c, t)
  {}

  // ----- counters -----

  function Holding(w: Worker): nat { if HoldsJob(w) then 1 else 0 }

  /** A success counted as a request but not yet in documents. */
  function HalfCounted(w: Worker): nat { if w.Counting? then 1 else 0 }

  predicate InLoop(w: Worker) { HoldsJob(w) && !w.Took? && !w.Reporting? }

  /** Retries counted so far for the job a worker holds. */
  function Retries(w: Worker): nat {
    if InLoop(w) then |w.tape| + (if w.Waiting? then 1 else 0) else 0
  }

  /** A post has returned and is not counted yet. */
  function Uncounted(w: Worker): nat { if w.Posted? || w.Examining? || w.Decided? then 1 else 0 }

  /** Posts that have returned for the job a worker holds. */
  function PostsMade(w: Worker): nat { Retries(w) + HalfCounted(w) + Uncounted(w) }

  function FinalPosts(f: Finished): nat { |f.tape| }
  function SucceededOne(f: Finished): nat { if f.fate.Succeeded? then 1 else 0 }
  function SucceededCount(f: Finished): nat { if f.fate.Succeeded? then |f.job| else 0 }
  function FailedOne(f: Finished): nat { if f.fate.Failed? then 1 else 0 }
  function CanceledAtPostOne(f: Finished): nat { if f.fate.CanceledAtPost? then 1 else 0 }

  /** What each counter is, up to the steps between an event and its addition. */
  predicate ProducerCounted(s: State) {
    && s.counters.generatedDocs + (if s.producer.pc.CountDoc? then 1 else 0) == |s.producer.generated|
    && s.counters.droppedBatches + (if s.producer.pc.CountDrop? then 1 else 0) == |Tail(s.producer.dropped)|
  }

  predicate RequestsCounted(s: State) {
    && s.counters.successfulRequests == Total(s.log.finished, SucceededOne) + Total(s.workers, HalfCounted)
    && s.counters.successfulDocs == Total(s.log.finished, SucceededCount)
    && s.counters.terminalFailures == Total(s.log.finished, FailedOne)
  }

  predicate PostsCounted(s: State) {
    && s.counters.retryAttempts == Total(s.log.finished, FinalRetries) + Total(s.workers, Retries)
    && s.log.posts == Total(s.log.finished, FinalPosts) + Total(s.workers, PostsMade)
    && |s.log.dequeued| == |s.log.finished| + Total(s.workers, Holding)
  }

  predicate Counted(s: State) { ProducerCounted(s) && RequestsCounted(s) && PostsCounted(s) }

  function IfDone(done: Option<Finished>, f: Finished -> nat): nat { if done.Some? then f(done.value) else 0 }

  /** One worker step moves each counter by what it moves between the worker and the finished jobs. */
  lemma RequestBalance(c: Config, s: State, w: Worker, wa: WorkerAction)
    requires WorkerEnabled(c, s, w, wa)
    ensures var e, k := WorkerEffect(c, s, w, wa), s.counters;
      && e.counters.successfulRequests + HalfCounted(w)
         == k.successfulRequests + HalfCounted(e.worker) + IfDone(e.done, SucceededOne)
      && e.counters.successfulDocs == k.successfulDocs + IfDone(e.done, SucceededCount)
      && e.counters.terminalFailures == k.terminalFailures + IfDone(e.done, FailedOne)
      && e.counters.generatedDocs == k.generatedDocs && e.counters.droppedBatches == k.droppedBatches
  {}

  lemma PostBalance(c: Config, s: State, w: Worker, wa: WorkerAction)
    requires WorkerEnabled(c, s, w, wa)
    ensures var e, k := WorkerEffect(c, s, w, wa), s.counters;
      && e.counters.retryAttempts + Retries(w)
         == k.retryAttempts + Retries(e.worker) + IfDone(e.done, FinalRetries)
      && PostsMade(e.worker) + IfDone(e.done, FinalPosts) == PostsMade(w) + (if wa.EndPost? then 1 else 0)
      && Holding(e.worker) + (if e.done.Some? then 1 else 0) == Holding(w) + (if wa.Take? then 1 else 0)
  {}

  lemma FinishedTotal(s: State, t: State, done: Option<Finished>, f: Finished -> nat)
    requires t.log.finished == if done.Some? then s.log.finished + [done.value] else s.log.finished
    ensures Total(t.log.finished, f) == Total(s.log.finished, f) + IfDone(done, f)
  {
    if done.Some? {
      TotalSnoc(s.log.finished, done.value, f);
    }
  }

  /** A worker step moves what f counts of finished jobs and g of workers only at its worker and its job. */
  lemma BothMove(c: Config, s: State, i: nat, wa: WorkerAction, f: Finished -> nat, g: Worker -> nat)
    requires Enabled(c, s, Work(i, wa))
    ensures var t, e := ApplyWorker(c, s, i, wa), WorkerEffect(c, s, s.workers[i], wa);
      && Total(t.log.finished, f) == Total(s.log.finished, f) + IfDone(e.done, f)
      && Total(t.workers, g) + g(s.workers[i]) == Total(s.workers, g) + g(e.worker)
  {
    var t, e := ApplyWorker(c, s, i, wa), WorkerEffect(c, s, s.workers[i], wa);
    TotalUpdate(s.workers, i, e.worker, g);
    FinishedTotal(s, t, e.done, f);
  }

  lemma RequestsStep(c: Config, s: State, i: nat, wa: WorkerAction)
    requires RequestsCounted(s) && Enabled(c, s, Work(i, wa))
    ensures RequestsCounted(ApplyWorker(c, s, i, wa))
  {
    RequestBalance(c, s, s.workers[i], wa);
    BothMove(c, s, i, wa, SucceededOne, HalfCounted);
    BothMove(c, s, i, wa, SucceededCount, HalfCounted);
    BothMove(c, s, i, wa, FailedOne, HalfCounted);
  }

  lemma PostsStep(c: Config, s: State, i: nat, wa: WorkerAction)
    requires PostsCounted(s) && Enabled(c, s, Work(i, wa))
    ensures PostsCounted(ApplyWorker(c, s, i, wa))
  {
    PostBalance(c, s, s.workers[i], wa);
    BothMove(c, s, i, wa, FinalRetries, Retries);
    BothMove(c, s, i, wa, FinalPosts, PostsMade);
    BothMove(c, s, i, wa, FinalPosts, Holding);
  }

  lemma CountedInit(c: Config)
    ensures Counted(Init(c)) && Tapes(c, Init(c))
  {
    TotalZero(Init(c).workers, HalfCounted);
    TotalZero(Init(c).workers, Retries);
    TotalZero(Init(c).workers, PostsMade);
    TotalZero(Init(c).workers, Holding);
  }

  lemma CountedStep(c: Config, s: State, a: Action)
    requires c.Valid() && Channel.Shape(c, s) && Counted(s) && Enabled(c, s, a)
    ensures Counted(Apply(c, s, a))
  {
    if a.Work? {
      RequestsStep(c, s, a.i, a.wa);
      PostsStep(c, s, a.i, a.wa);
      RequestBalance(c, s, s.workers[a.i], a.wa);
    } else {
      OthersCountNoRequests(c, s, a);
      ProducerCountedStep(c, s, a);
    }
  }

  lemma OthersCountNoRequests(c: Config, s: State, a: Action)
    requires Enabled(c, s, a) && !a.Work?
    ensures var t := Apply(c, s, a);
      && t.workers == s.workers && t.log == s.log
      && t.counters.(generatedDocs := 0, droppedBatches := 0) == s.counters.(generatedDocs := 0, droppedBatches := 0)
  {}

  lemma ProducerCountedStep(c: Config, s: State, a: Action)
    requires c.Valid() && Channel.PcShape(c, s.stop, s.producer) && Channel.Sizes(c, s.producer)
    requires ProducerCounted(s) && Enabled(c, s, a) && !a.Work?
    ensures ProducerCounted(Apply(c, s, a))
  {}

  // ----- settling the finished jobs in turn -----

  /** The counters after settling these jobs one after the other, each by its own rounds. */
  function SettleLog(attempts: nat, fs: seq<Finished>): Counters {
    if fs == [] then ZERO
    else
      var last := fs[|fs| - 1];
      Settle(SettleLog(attempts, fs[..|fs| - 1]), |last.job|, Judge(attempts, 1, last.tape))
  }

  lemma {:induction false} LogSettles(c: Config, fs: seq<Finished>)
    requires forall k :: 0 <= k < |fs| ==> FinishedOk(c, fs[k])
    ensures var t := SettleLog(c.attempts, fs);
      && t.successfulRequests == Total(fs, SucceededOne) && t.successfulDocs == Total(fs, SucceededCount)
      && t.terminalFailures == Total(fs, FailedOne) && t.retryAttempts == Total(fs, FinalRetries)
      && t.generatedDocs == 0 && t.droppedBatches == 0
  {
    if fs != [] {
      LogSettles(c, fs[..|fs| - 1]);
      assert FinishedOk(c, fs[|fs| - 1]);
    }
  }

  // ----- conservation of documents -----

  function Held(w: Worker): Job { if HoldsJob(w) then w.job else [] }
  function SucceededDocs(f: Finished): Job { if f.fate.Succeeded? then f.job else [] }
  function FailedDocs(f: Finished): Job { if f.fate.Failed? then f.job else [] }
  function CanceledDocs(f: Finished): Job { if f.fate.Succeeded? || f.fate.Failed? then [] else f.job }

  /** The documents taken from the queue are, with multiplicity, exactly those of succeeded, failed
      and canceled jobs and of the jobs workers hold. */
  predicate Conserved(s: State) {
    multiset(Flatten(s.log.dequeued)) == Settled(s.log.finished) + Gather(s.workers, Held)
  }

  function Settled(fs: seq<Finished>): multiset<Doc> {
    Gather(fs, SucceededDocs) + Gather(fs, FailedDocs) + Gather(fs, CanceledDocs)
  }

  /** A worker step keeps the held job, takes one from the queue, or finishes the held one. */
  lemma HeldEffect(c: Config, s: State, w: Worker, wa: WorkerAction)
    requires WorkerEnabled(c, s, w, wa)
    ensures var e := WorkerEffect(c, s, w, wa);
      if wa.Take? then Held(w) == [] && Held(e.worker) == s.queue[0] && e.done.None?
      else if e.done.Some? then e.done.value.job == Held(w) && Held(e.worker) == []
      else Held(e.worker) == Held(w)
  {}

  lemma ConservedStep(c: Config, s: State, a: Action)
    requires Conserved(s) && Enabled(c, s, a)
    ensures Conserved(Apply(c, s, a))
  {
    match a
    case Work(i, wa) =>
      var w, t := s.workers[i], Apply(c, s, a);
      var e := WorkerEffect(c, s, w, wa);
      HeldEffect(c, s, w, wa);
      if wa.Take? {
        assert s.queue[..1] == [s.queue[0]];
        ConservedTake(s, t, i, e.worker, s.queue[0]);
      } else if e.done.Some? {
        ConservedDone(s, t, i, e.worker, e.done.value);
      } else {
        GatherKept(s.workers, i, e.worker, Held);
      }
    case _ =>
  }

  lemma ConservedTake(s: State, t: State, i: nat, w: Worker, job: Job)
    requires Conserved(s) && i < |s.workers| && t.workers == s.workers[i := w]
    requires Held(s.workers[i]) == [] && Held(w) == job
    requires t.log.dequeued == s.log.dequeued + [job] && t.log.finished == s.log.finished
    ensures Conserved(t)
  {
    FlattenSnoc(s.log.dequeued, job);
    GatherPut(s.workers, i, w, Held);
    Regroup(Settled(s.log.finished), Gather(s.workers, Held), multiset(job));
  }

  lemma ConservedDone(s: State, t: State, i: nat, w: Worker, f: Finished)
    requires Conserved(s) && i < |s.workers| && t.workers == s.workers[i := w]
    requires Held(s.workers[i]) == f.job && Held(w) == []
    requires t.log.dequeued == s.log.dequeued && t.log.finished == s.log.finished + [f]
    ensures Conserved(t)
  {
    FinishedDocs(s.log.finished, f);
    GatherRemoved(s.workers, i, w, Held);
    Regroup(Settled(s.log.finished), Gather(t.workers, Held), multiset(f.job));
  }

  /** A finished job falls into exactly one of the three classes. */
  lemma FinishedDocs(fs: seq<Finished>, f: Finished)
    ensures Settled(fs + [f]) == Settled(fs) + multiset(f.job)
  {
    GatherSnoc(fs, f, SucceededDocs);
    GatherSnoc(fs, f, FailedDocs);
    GatherSnoc(fs, f, CanceledDocs);
  }

  lemma ConservedInit(c: Config)
    ensures Conserved(Init(c))
  {
    GatherEmpty(Init(c).workers, Held);
  }

  // ----- conservation of jobs -----

  function HeldJob(w: Worker): seq<Job> { if HoldsJob(w) then [w.job] else [] }
  function FinishedJob(f: Finished): seq<Job> { [f.job] }

  /** The jobs taken from the queue are, with multiplicity, exactly the finished ones and those workers
      hold: none finishes twice and none gets lost. */
  predicate JobsConserved(s: State) {
    multiset(s.log.dequeued) == Gather(s.log.finished, FinishedJob) + Gather(s.workers, HeldJob)
  }

  lemma HeldJobEffect(c: Config, s: State, w: Worker, wa: WorkerAction)
    requires WorkerEnabled(c, s, w, wa)
    ensures var e := WorkerEffect(c, s, w, wa);
      if wa.Take? then HeldJob(w) == [] && HeldJob(e.worker) == [s.queue[0]] && e.done.None?
      else if e.done.Some? then HeldJob(w) == [e.done.value.job] && HeldJob(e.worker) == []
      else HeldJob(e.worker) == HeldJob(w)
  {}

  lemma JobsConservedStep(c: Config, s: State, a: Action)
    requires JobsConserved(s) && Enabled(c, s, a)
    ensures JobsConserved(Apply(c, s, a))
  {
    if a.Work? {
      JobsConservedWork(c, s, a.i, a.wa);
    }
  }

  lemma JobsConservedWork(c: Config, s: State, i: nat, wa: WorkerAction)
    requires JobsConserved(s) && Enabled(c, s, Work(i, wa))
    ensures JobsConserved(ApplyWorker(c, s, i, wa))
  {
    var t, e := ApplyWorker(c, s, i, wa), WorkerEffect(c, s, s.workers[i], wa);
    HeldJobEffect(c, s, s.workers[i], wa);
    if wa.Take? {
      assert s.queue[..1] == [s.queue[0]];
      JobTaken(s, t, i, e.worker, s.queue[0]);
    } else if e.done.Some? {
      JobDone(s, t, i, e.worker, e.done.value);
    } else {
      GatherKept(s.workers, i, e.worker, HeldJob);
    }
  }

  lemma JobTaken(s: State, t: State, i: nat, w: Worker, job: Job)
    requires JobsConserved(s) && i < |s.workers| && t.workers == s.workers[i := w]
    requires HeldJob(s.workers[i]) == [] && HeldJob(w) == [job]
    requires t.log.dequeued == s.log.dequeued + [job] && t.log.finished == s.log.finished
    ensures JobsConserved(t)
  {
    GatherPut(s.workers, i, w, HeldJob);
    Regroup(Gather(s.log.finished, FinishedJob), Gather(s.workers, HeldJob), multiset([job]));
  }

  lemma JobDone(s: State, t: State, i: nat, w: Worker, f: Finished)
    requires JobsConserved(s) && i < |s.workers| && t.workers == s.workers[i := w]
    requires HeldJob(s.workers[i]) == [f.job] && HeldJob(w) == []
    requires t.log.dequeued == s.log.dequeued && t.log.finished == s.log.finished + [f]
    ensures JobsConserved(t)
  {
    GatherSnoc(s.log.finished, f, FinishedJob);
    GatherRemoved(s.workers, i, w, HeldJob);
    Regroup(Gather(s.log.finished, FinishedJob), Gather(t.workers, HeldJob), multiset([f.job]));
  }

  lemma JobsConservedInit(c: Config)
    ensures JobsConserved(Init(c))
  {
    GatherEmpty(Init(c).workers, HeldJob);
  }

  // ----- cancellation -----

  predicate Quiet(w: Worker) {
    match w
    case Posted(_, _, x) => !MentionsCancel(x)
    case Examining(_, _, x) => !MentionsCancel(x)
    case Decided(_, _, round) => !MentionsCancel(round.x) && !round.seen
    case _ => true
  }

  predicate Leaving(w: Worker) { w.Exiting? || w.Exited? }

  /** Before a forced shutdown nothing is canceled, and workers leave only a closed, empty queue. */
  predicate Undisturbed(s: State) {
    && (!s.forced ==>
      && (forall i :: 0 <= i < |s.workers| ==> Quiet(s.workers[i]))
      && (forall k :: 0 <= k < |s.log.finished| ==>
            s.log.finished[k].fate.Succeeded? || s.log.finished[k].fate.Failed?)
      && (forall i :: 0 <= i < |s.workers| && Leaving(s.workers[i]) ==> s.producer.pc.Closed? && s.queue == []))
  }

  lemma UndisturbedInit(c: Config)
    ensures Undisturbed(Init(c))
  {}

  lemma QuietEffect(c: Config, s: State, w: Worker, wa: WorkerAction)
    requires Quiet(w) && WorkerEnabled(c, s, w, wa) && !s.forced
    ensures var e := WorkerEffect(c, s, w, wa);
      && Quiet(e.worker)
      && (e.done.Some? ==> e.done.value.fate.Succeeded? || e.done.value.fate.Failed?)
      && (Leaving(e.worker) ==> Leaving(w) || (s.producer.pc.Closed? && s.queue == []))
  {
    if wa.Conclude? && Decide(c.attempts, |w.tape| + 1, w.round.x, w.round.seen).Cancel? {
      ReplyCarriesExactly(w.round.x, ContextCanceled);
    }
  }

  lemma UndisturbedStep(c: Config, s: State, a: Action)
    requires Undisturbed(s) && Enabled(c, s, a)
    ensures Undisturbed(Apply(c, s, a))
  {
    if a.Work? && !s.forced {
      QuietEffect(c, s, s.workers[a.i], a.wa);
    }
  }
}
