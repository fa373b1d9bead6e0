/** The main results about one core, for every state of every run. */
module Theorems {
  import opened Sums
  import opened Chunking
  import opened Stats
  import opened Pipeline
  import Channel
  import Gauging
  import Indexing
  import Ledger
  import Reachable
  import Retry
  import SolrClient

  /** Conservation: every generated document is in exactly one place, and the counters are the sizes
      of those places up to the one addition that may be pending. */
  lemma DocumentsAreConserved(c: Config, states: seq<State>, actions: seq<Action>, k: nat)
    requires c.Valid() && IsRun(c, states, actions) && k < |states|
    ensures var s := states[k];
      && multiset(s.producer.generated)
         == Gather(s.log.finished, Ledger.SucceededDocs) + Gather(s.log.finished, Ledger.FailedDocs)
          + Gather(s.log.finished, Ledger.CanceledDocs) + Gather(s.workers, Ledger.Held)
          + multiset(Flatten(s.queue)) + multiset(s.producer.batch) + multiset(s.producer.dropped)
      && s.counters.successfulDocs == |Gather(s.log.finished, Ledger.SucceededDocs)|
      && s.counters.generatedDocs + (if s.producer.pc.CountDoc? then 1 else 0) == |s.producer.generated|
      && s.counters.droppedBatches + (if s.producer.pc.CountDrop? then 1 else 0) == |Tail(s.producer.dropped)|
  {
    Reachable.InvAlways(c, states, actions, k);
    Reachable.Conservation(c, states[k]);
    UnsentParts(c, states[k]);
    Reachable.CountersAreSizes(c, states[k]);
  }

  /** What is in no job is in the buffer or was dropped, never both. */
  lemma UnsentParts(c: Config, s: State)
    requires Channel.Sizes(c, s.producer)
    ensures multiset(Channel.Unsent(s.producer)) == multiset(s.producer.batch) + multiset(s.producer.dropped)
  {}

  /** The channel: N competing workers take jobs in the order they were put, never more than 2N wait,
      it is closed at most once, and what was put on it, with the unsent rest, is the pure chunking of
      the generated documents. */
  lemma ChannelIsDisciplined(c: Config, states: seq<State>, actions: seq<Action>, k: nat)
    requires c.Valid() && IsRun(c, states, actions) && k < |states|
    ensures var s := states[k];
      && s.producer.enqueued == s.log.dequeued + s.queue
      && |s.queue| <= 2 * c.workers
      && s.producer.closes <= 1
      && s.producer.enqueued + Tail(Channel.Unsent(s.producer)) == Chunk(s.producer.generated, c.batchSize)
  {
    Reachable.InvAlways(c, states, actions, k);
    Channel.EnqueuedAreChunks(c, states[k]);
  }

  /** Fates and posts: every job that was taken, with multiplicity, is either held by a worker or
      finished once, with the fate its rounds dictate after 1 to attempts posts; no failure is recorded
      as canceled, nothing is canceled before a forced shutdown, and the posts add up. */
  lemma FatesAndPosts(c: Config, states: seq<State>, actions: seq<Action>, k: nat)
    requires c.Valid() && IsRun(c, states, actions) && k < |states|
    ensures var s := states[k];
      && (forall j :: 0 <= j < |s.log.finished| ==>
            var f := s.log.finished[j];
            && 1 <= |f.tape| <= c.attempts
            && Retry.Judge(c.attempts, 1, f.tape).fate == f.fate
            && (f.fate.Failed? ==> f.fate.kind !in {SolrClient.Canceled, SolrClient.Unknown})
            && (!s.forced ==> f.fate.Succeeded? || f.fate.Failed?))
      && multiset(s.log.dequeued) == Gather(s.log.finished, Ledger.FinishedJob) + Gather(s.workers, Ledger.HeldJob)
      && |s.log.dequeued| == |s.log.finished| + Total(s.workers, Ledger.Holding)
      && s.log.posts == s.counters.successfulRequests + s.counters.terminalFailures + s.counters.retryAttempts
                      + Total(s.log.finished, Ledger.CanceledAtPostOne) + Total(s.workers, Ledger.Uncounted)
      && s.counters.retryAttempts <= (c.attempts - 1) * |s.log.dequeued|
  {
    var s := states[k];
    Reachable.InvAlways(c, states, actions, k);
    Reachable.PostLedger(c, s);
    forall j | 0 <= j < |s.log.finished|
      ensures var f := s.log.finished[j];
            && 1 <= |f.tape| <= c.attempts
            && Retry.Judge(c.attempts, 1, f.tape).fate == f.fate
            && (f.fate.Failed? ==> f.fate.kind !in {SolrClient.Canceled, SolrClient.Unknown})
    {
      Reachable.EveryFateIsJudged(c, s, j);
    }
  }

  /** The counters of a run are those of the sequential retry loop: settling the finished jobs in turn, from
      zero, gives the request, document, failure and retry counters, up to what workers still hold: a
      request counted before its documents, and the retries of unfinished jobs. */
  lemma RunsSettleJobs(c: Config, states: seq<State>, actions: seq<Action>, k: nat)
    requires c.Valid() && IsRun(c, states, actions) && k < |states|
    ensures var s := states[k];
      var t := Ledger.SettleLog(c.attempts, s.log.finished);
      && s.counters.successfulRequests == t.successfulRequests + Total(s.workers, Ledger.HalfCounted)
      && s.counters.successfulDocs == t.successfulDocs
      && s.counters.terminalFailures == t.terminalFailures
      && s.counters.retryAttempts == t.retryAttempts + Total(s.workers, Ledger.Retries)
  {
    Reachable.InvAlways(c, states, actions, k);
    Ledger.LogSettles(c, states[k].log.finished);
  }

  /** Delivery: below 2^64 documents the index holds every document of every succeeded job with its
      generated value, nothing but documents of taken jobs, and its size lies between the counters. */
  lemma DeliveryIsIdempotent(c: Config, states: seq<State>, actions: seq<Action>, k: nat)
    requires c.Valid() && IsRun(c, states, actions) && k < |states| && |states[k].producer.generated| < TWO_TO_64
    ensures var s := states[k];
      && (forall d :: d in Gather(s.log.finished, Ledger.SucceededDocs) ==> Indexed(s.index, d))
      && (forall id :: id in s.index ==> s.index[id].id == id && s.index[id] in Flatten(s.log.dequeued))
      && s.counters.successfulDocs <= |s.index| <= s.counters.generatedDocs
  {
    Reachable.InvAlways(c, states, actions, k);
    Reachable.IdempotentDelivery(c, states[k]);
  }

  /** Any two documents of a run have distinct ids, for any clock readings, repeated or backwards. */
  lemma IdsAreDistinct(c: Config, states: seq<State>, actions: seq<Action>, k: nat, i: nat, j: nat)
    requires c.Valid() && IsRun(c, states, actions) && k < |states|
    requires i < j < |states[k].producer.generated| < TWO_TO_64
    ensures states[k].producer.generated[i].id != states[k].producer.generated[j].id
  {
    Reachable.InvAlways(c, states, actions, k);
    if states[k].producer.generated[i].id == states[k].producer.generated[j].id {
      Indexing.SameIdSameDoc(c, states[k].producer, i, j);
    }
  }

  /** Gauges: in every state of every run. */
  lemma GaugesAreBounded(c: Config, states: seq<State>, actions: seq<Action>, k: nat)
    requires c.Valid() && IsRun(c, states, actions) && k < |states|
    ensures var s := states[k];
      && 0 <= s.gauges.inFlight <= s.gauges.activeWorkers <= c.workers
      && 0 <= s.gauges.queueDepth <= 2 * c.workers
      && (c.telemetry ==>
            && s.gauges.inFlight == Total(s.workers, Gauging.InPost)
            && s.gauges.activeWorkers == Total(s.workers, Gauging.Running))
      && (Reachable.AllExited(s) ==> s.gauges.inFlight == 0 && s.gauges.activeWorkers == 0)
  {
    Reachable.InvAlways(c, states, actions, k);
    Gauging.GaugeBounds(c, states[k]);
  }

  /** A failed reply that its worker has examined before the force-cancel, and not yet acted on. */
  function Unseen(w: Worker): nat { if w.Decided? && !w.round.seen then 1 else 0 }

  /** What a forced core may still count: the failures and retries counted, and those left unseen. */
  function Countable(s: State): nat {
    s.counters.retryAttempts + s.counters.terminalFailures + Total(s.workers, Unseen)
  }

  lemma ForcedEffect(c: Config, s: State, w: Worker, wa: WorkerAction)
    requires WorkerEnabled(c, s, w, wa) && s.forced
    ensures var e := WorkerEffect(c, s, w, wa);
      e.counters.retryAttempts + e.counters.terminalFailures + Unseen(e.worker)
      <= s.counters.retryAttempts + s.counters.terminalFailures + Unseen(w)
  {}

  lemma ForcedStep(c: Config, s: State, a: Action)
    requires Enabled(c, s, a) && s.forced
    ensures Apply(c, s, a).forced && Countable(Apply(c, s, a)) <= Countable(s)
  {
    if a.Work? {
      var e := WorkerEffect(c, s, s.workers[a.i], a.wa);
      ForcedEffect(c, s, s.workers[a.i], a.wa);
      TotalUpdate(s.workers, a.i, e.worker, Unseen);
    }
  }

  lemma {:induction false} ForcedSince(c: Config, states: seq<State>, actions: seq<Action>, j: nat, k: nat)
    requires IsRun(c, states, actions) && j <= k < |states| && states[j].forced
    ensures states[k].forced && Countable(states[k]) <= Countable(states[j])
  {
    if j < k {
      ForcedSince(c, states, actions, j, k - 1);
      ForcedStep(c, states[k - 1], actions[k - 1]);
    }
  }

  lemma CrewSize(c: Config, states: seq<State>, actions: seq<Action>, k: nat)
    requires c.Valid() && IsRun(c, states, actions) && k < |states|
    ensures |states[k].workers| == c.workers
  {
    Reachable.InvAlways(c, states, actions, k);
  }

  /** Force-cancel ends retrying: from then on at most one more retry or final failure per worker is counted,
      and only of a reply that was examined before. */
  lemma ForceEndsRetrying(c: Config, states: seq<State>, actions: seq<Action>, j: nat, k: nat)
    requires c.Valid() && IsRun(c, states, actions) && j <= k < |states| && states[j].forced
    ensures var before, after := states[j].counters, states[k].counters;
      && after.retryAttempts + after.terminalFailures
         <= before.retryAttempts + before.terminalFailures + Total(states[j].workers, Unseen)
      && Total(states[j].workers, Unseen) <= c.workers
  {
    ForcedSince(c, states, actions, j, k);
    CrewSize(c, states, actions, j);
    TotalAtMost(states[j].workers, Unseen, 1);
  }
}
