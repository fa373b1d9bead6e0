/** All invariants of one core hold in every state of every run, and what they say together. */
module Reachable {
  import opened Sums
  import opened Chunking
  import opened Stats
  import opened Pipeline
  import Retry
  import SolrClient
  import Channel
  import Ledger
  import Gauging
  import Indexing

  ghost predicate Inv(c: Config, s: State) {
    && Channel.Shape(c, s)
    && Ledger.Tapes(c, s) && Ledger.Counted(s) && Ledger.Conserved(s) && Ledger.JobsConserved(s)
    && Ledger.Undisturbed(s)
    && Gauging.Gauged(c, s)
    && Indexing.Indices(c, s) && Indexing.FinishedTaken(s)
  }

  lemma InvInit(c: Config)
    requires c.Valid()
    ensures Inv(c, Init(c))
  {
    Channel.ShapeInit(c);
    Ledger.CountedInit(c);
    Ledger.ConservedInit(c);
    Ledger.JobsConservedInit(c);
    Ledger.UndisturbedInit(c);
    Gauging.GaugedInit(c);
    Indexing.IndicesInit(c);
  }

  lemma InvStep(c: Config, s: State, a: Action)
    requires c.Valid() && Inv(c, s) && Enabled(c, s, a)
    ensures Inv(c, Apply(c, s, a))
  {
    Channel.ShapeStep(c, s, a);
    Ledger.TapesStep(c, s, a);
    Ledger.CountedStep(c, s, a);
    Ledger.ConservedStep(c, s, a);
    Ledger.JobsConservedStep(c, s, a);
    Ledger.UndisturbedStep(c, s, a);
    Gauging.GaugedStep(c, s, a);
    Indexing.IndicesStep(c, s, a);
    Indexing.FinishedTakenStep(c, s, a);
  }

  /** Every state of every run of a core. */
  lemma {:induction false} InvAlways(c: Config, states: seq<State>, actions: seq<Action>, k: nat)
    requires c.Valid() && IsRun(c, states, actions) && k < |states|
    ensures Inv(c, states[k])
  {
    if k == 0 {
      InvInit(c);
    } else {
      InvAlways(c, states, actions, k - 1);
      InvStep(c, states[k - 1], actions[k - 1]);
    }
  }

  // ----- conservation end to end -----

  /** The generated documents are, as a multiset, exactly the disjoint union of the succeeded,
      failed and canceled ones, those workers hold, those queued, and those in the buffer or dropped. */
  lemma Conservation(c: Config, s: State)
    requires Channel.Shape(c, s) && Ledger.Conserved(s)
    ensures multiset(s.producer.generated)
         == Gather(s.log.finished, Ledger.SucceededDocs) + Gather(s.log.finished, Ledger.FailedDocs)
          + Gather(s.log.finished, Ledger.CanceledDocs) + Gather(s.workers, Ledger.Held)
          + multiset(Flatten(s.queue)) + multiset(Channel.Unsent(s.producer))
    ensures s.log.dequeued <= s.producer.enqueued
  {
    Indexing.DequeuedAreGenerated(c, s);
  }

  /** The document counters are the cardinalities of those parts. */
  lemma CountersAreSizes(c: Config, s: State)
    requires Ledger.Counted(s)
    ensures s.counters.successfulDocs == |Gather(s.log.finished, Ledger.SucceededDocs)|
    ensures s.counters.terminalFailures == Total(s.log.finished, Ledger.FailedOne)
    ensures s.counters.generatedDocs + (if s.producer.pc.CountDoc? then 1 else 0) == |s.producer.generated|
  {
    GatherSize(s.log.finished, Ledger.SucceededDocs, Ledger.SucceededCount);
  }

  predicate AllExited(s: State) { forall i :: 0 <= i < |s.workers| ==> s.workers[i].Exited? }

  function FailedDocCount(s: State): nat { |Gather(s.log.finished, Ledger.FailedDocs)| }
  function CanceledDocCount(s: State): nat { |Gather(s.log.finished, Ledger.CanceledDocs)| }

  /** Once the producer has closed and every worker has exited, the counters account for every
      document; without a forced shutdown nothing is canceled and nothing stays queued. */
  lemma FinalAccount(c: Config, s: State)
    requires c.Valid() && Inv(c, s) && s.producer.pc.Closed? && AllExited(s)
    ensures s.counters.generatedDocs == s.counters.successfulDocs + FailedDocCount(s) + CanceledDocCount(s)
                                      + |Flatten(s.queue)| + |s.producer.dropped|
    ensures s.counters.droppedBatches == |Tail(s.producer.dropped)| <= 1
    ensures s.counters.successfulRequests == Total(s.log.finished, Ledger.SucceededOne)
    ensures !s.forced ==> s.queue == [] && CanceledDocCount(s) == 0
    ensures !s.forced ==>
      s.counters.generatedDocs == s.counters.successfulDocs + FailedDocCount(s) + |s.producer.dropped|
  {
    FinalSizes(c, s);
    NothingHeld(s.workers);
    if !s.forced {
      UnforcedLeavesNothing(c, s);
    }
  }

  lemma FinalSizes(c: Config, s: State)
    requires Channel.Shape(c, s) && Ledger.Conserved(s) && Ledger.Counted(s) && s.producer.pc.Closed? && AllExited(s)
    ensures s.counters.generatedDocs == s.counters.successfulDocs + FailedDocCount(s) + CanceledDocCount(s)
                                      + |Flatten(s.queue)| + |s.producer.dropped|
  {
    DocSizes(c, s);
    CountersAreSizes(c, s);
    NothingHeld(s.workers);
    AddUp(s);
  }

  lemma AddUp(s: State)
    requires |s.producer.generated| == |Gather(s.log.finished, Ledger.SucceededDocs)| + FailedDocCount(s)
               + CanceledDocCount(s) + |Gather(s.workers, Ledger.Held)| + |Flatten(s.queue)|
               + |Channel.Unsent(s.producer)|
    requires s.counters.successfulDocs == |Gather(s.log.finished, Ledger.SucceededDocs)|
    requires s.counters.generatedDocs == |s.producer.generated|
    requires s.producer.batch == [] && Gather(s.workers, Ledger.Held) == multiset{}
    ensures s.counters.generatedDocs == s.counters.successfulDocs + FailedDocCount(s) + CanceledDocCount(s)
                                      + |Flatten(s.queue)| + |s.producer.dropped|
  {}

  lemma NothingHeld(ws: seq<Worker>)
    requires forall i :: 0 <= i < |ws| ==> ws[i].Exited?
    ensures Gather(ws, Ledger.Held) == multiset{} && Total(ws, Ledger.HalfCounted) == 0
  {
    GatherEmpty(ws, Ledger.Held);
    TotalZero(ws, Ledger.HalfCounted);
  }

  lemma UnforcedLeavesNothing(c: Config, s: State)
    requires c.Valid() && Inv(c, s) && AllExited(s) && !s.forced
    ensures s.producer.pc.Closed? && s.queue == [] && CanceledDocCount(s) == 0
  {
    assert Ledger.Leaving(s.workers[0]);
    GatherEmpty(s.log.finished, Ledger.CanceledDocs);
  }

  lemma DocSizes(c: Config, s: State)
    requires Channel.Shape(c, s) && Ledger.Conserved(s)
    ensures |s.producer.generated|
         == |Gather(s.log.finished, Ledger.SucceededDocs)| + FailedDocCount(s) + CanceledDocCount(s)
          + |Gather(s.workers, Ledger.Held)| + |Flatten(s.queue)| + |Channel.Unsent(s.producer)|
  {
    Conservation(c, s);
    SixParts(Gather(s.log.finished, Ledger.SucceededDocs), Gather(s.log.finished, Ledger.FailedDocs),
             Gather(s.log.finished, Ledger.CanceledDocs), Gather(s.workers, Ledger.Held),
             multiset(Flatten(s.queue)), multiset(Channel.Unsent(s.producer)));
  }

  lemma SixParts<D>(a: multiset<D>, b: multiset<D>, c: multiset<D>, d: multiset<D>, e: multiset<D>, f: multiset<D>)
    ensures |a + b + c + d + e + f| == |a| + |b| + |c| + |d| + |e| + |f|
  {}

  // ----- fates and posts -----

  /** Every job that ended did so exactly as its rounds dictate: 1 to attempts posts, one of four
      fates, and never the return after the retry loop. */
  lemma EveryFateIsJudged(c: Config, s: State, k: nat)
    requires Inv(c, s) && k < |s.log.finished|
    ensures var f := s.log.finished[k];
      && 1 <= |f.tape| <= c.attempts
      && Retry.Judge(c.attempts, 1, f.tape).fate == f.fate
      && f.fate != Retry.FellThrough && f.fate != Retry.Pending
      && (f.fate.Failed? ==> f.fate.kind !in {SolrClient.Canceled, SolrClient.Unknown})
  {
    var f := s.log.finished[k];
    if f.fate.Failed? {
      Retry.FailureKinds(c.attempts, 1, f.tape);
    }
  }

  /** The post ledger: completed posts are the counted requests, failures and retries, the jobs
      canceled at a post, and the posts whose result no counter shows yet. */
  lemma PostLedger(c: Config, s: State)
    requires c.Valid() && Inv(c, s)
    ensures s.log.posts == s.counters.successfulRequests + s.counters.terminalFailures + s.counters.retryAttempts
                         + Total(s.log.finished, Ledger.CanceledAtPostOne) + Total(s.workers, Ledger.Uncounted)
    ensures s.counters.retryAttempts <= (c.attempts - 1) * |s.log.dequeued|
  {
    var fs := s.log.finished;
    FinalPostsSplit(c, fs);
    WorkerPostsSplit(s.workers);
    RetriesBounded(c, s);
  }

  function FinalCalls(f: Finished): nat { Ledger.SucceededOne(f) + Ledger.FailedOne(f) + Ledger.CanceledAtPostOne(f) }
  function FinalCounts(f: Finished): nat { Ledger.SucceededOne(f) + Ledger.FailedOne(f) }
  function Shown(w: Worker): nat { Ledger.Retries(w) + Ledger.HalfCounted(w) }

  lemma FinalPostsSplit(c: Config, fs: seq<Finished>)
    requires forall k :: 0 <= k < |fs| ==> Ledger.FinishedOk(c, fs[k])
    ensures Total(fs, Ledger.FinalPosts) == Total(fs, Ledger.SucceededOne) + Total(fs, Ledger.FailedOne)
                                          + Total(fs, Ledger.CanceledAtPostOne) + Total(fs, Ledger.FinalRetries)
  {
    TotalOfSum(fs, Ledger.FinalPosts, FinalCalls, Ledger.FinalRetries);
    TotalOfSum(fs, FinalCalls, FinalCounts, Ledger.CanceledAtPostOne);
    TotalOfSum(fs, FinalCounts, Ledger.SucceededOne, Ledger.FailedOne);
  }

  lemma WorkerPostsSplit(ws: seq<Worker>)
    ensures Total(ws, Ledger.PostsMade)
         == Total(ws, Ledger.Retries) + Total(ws, Ledger.HalfCounted) + Total(ws, Ledger.Uncounted)
  {
    TotalOfSum(ws, Ledger.PostsMade, Shown, Ledger.Uncounted);
    TotalOfSum(ws, Shown, Ledger.Retries, Ledger.HalfCounted);
  }

  lemma RetriesBounded(c: Config, s: State)
    requires c.Valid() && Ledger.Tapes(c, s) && Ledger.PostsCounted(s)
    ensures s.counters.retryAttempts <= (c.attempts - 1) * |s.log.dequeued|
  {
    var r := c.attempts - 1;
    TotalAtMost(s.log.finished, Ledger.FinalRetries, r);
    forall i | 0 <= i < |s.workers|
      ensures Ledger.Retries(s.workers[i]) <= r * Ledger.Holding(s.workers[i])
    {
      WorkerRetriesBounded(c, s.workers[i]);
    }
    TotalScaled(s.workers, Ledger.Retries, Ledger.Holding, r);
    Distribute(r, |s.log.finished|, Total(s.workers, Ledger.Holding));
  }

  lemma WorkerRetriesBounded(c: Config, w: Worker)
    requires c.Valid() && Ledger.WorkerOk(c, w)
    ensures Ledger.Retries(w) <= (c.attempts - 1) * Ledger.Holding(w)
  {}

  lemma Distribute(r: nat, a: nat, b: nat)
    ensures r * a + r * b == r * (a + b)
  {}

  // ----- idempotent delivery -----

  /** At-least-once posting with distinct ids and overwriting is idempotent: every document of a
      succeeded job is indexed with its generated value, the index holds nothing but documents of
      jobs taken from the queue, and the counters bracket its size. */
  lemma IdempotentDelivery(c: Config, s: State)
    requires Inv(c, s) && |s.producer.generated| < TWO_TO_64
    ensures forall d :: d in Gather(s.log.finished, Ledger.SucceededDocs) ==> Indexed(s.index, d)
    ensures forall id :: id in s.index ==> s.index[id].id == id && s.index[id] in Flatten(s.log.dequeued)
    ensures s.counters.successfulDocs <= |s.index| <= s.counters.generatedDocs
  {
    var done := Gather(s.log.finished, Ledger.SucceededDocs);
    forall d | d in done
      ensures Indexed(s.index, d)
    {
      var k := GatheredFrom(s.log.finished, d);
    }
    forall id | id in s.index
      ensures s.index[id].id == id && s.index[id] in Flatten(s.log.dequeued)
    {
      var k :| 0 <= k < |s.log.posted| && s.index[id] in s.log.posted[k];
      FlattenMember(s.log.dequeued, s.index[id]);
    }
    IndexBelowGenerated(c, s);
    SucceededBelowIndex(c, s);
  }

  lemma {:induction false} GatheredFrom(fs: seq<Finished>, d: Doc) returns (k: nat)
    requires d in Gather(fs, Ledger.SucceededDocs)
    ensures k < |fs| && fs[k].fate.Succeeded? && d in fs[k].job
  {
    var n := |fs| - 1;
    if d in Ledger.SucceededDocs(fs[n]) {
      k := n;
    } else {
      k := GatheredFrom(fs[..n], d);
    }
  }

  lemma IndexBelowGenerated(c: Config, s: State)
    requires Inv(c, s)
    requires forall id :: id in s.index ==> s.index[id].id == id && s.index[id] in Flatten(s.log.dequeued)
    ensures |s.index| <= s.counters.generatedDocs
  {
    TakenBelowGenerated(c, s);
    Indexing.KeysFit(s.index.Keys, Flatten(s.log.dequeued));
  }

  /** A document is counted as generated before its job can be taken. */
  lemma TakenBelowGenerated(c: Config, s: State)
    requires Inv(c, s)
    ensures |Flatten(s.log.dequeued)| <= s.counters.generatedDocs
  {
    Indexing.DequeuedAreGenerated(c, s);
  }

  lemma SucceededBelowIndex(c: Config, s: State)
    requires Inv(c, s) && |s.producer.generated| < TWO_TO_64
    requires forall d :: d in Gather(s.log.finished, Ledger.SucceededDocs) ==> Indexed(s.index, d)
    ensures s.counters.successfulDocs <= |s.index|
  {
    CountersAreSizes(c, s);
    var done := Gather(s.log.finished, Ledger.SucceededDocs);
    SucceededAreDistinct(c, s);
    NoRepetition(done);
    Indexing.IndexedFit((set d | d in done), s.index);
  }

  lemma SucceededAreDistinct(c: Config, s: State)
    requires Inv(c, s) && |s.producer.generated| < TWO_TO_64
    ensures forall d :: Gather(s.log.finished, Ledger.SucceededDocs)[d] <= 1
  {
    var g, done := s.producer.generated, Gather(s.log.finished, Ledger.SucceededDocs);
    SucceededAreGenerated(c, s);
    forall i, j | 0 <= i < j < |g|
      ensures g[i] != g[j]
    {
      GeneratedAreDistinct(c, s.producer, i, j);
    }
    forall d
      ensures done[d] <= 1
    {
      DistinctOnce(g, d);
    }
  }

  lemma GeneratedAreDistinct(c: Config, p: Producer, i: nat, j: nat)
    requires Indexing.Identified(c, p) && i < j < |p.generated| < TWO_TO_64
    ensures p.generated[i] != p.generated[j]
  {
    if p.generated[i] == p.generated[j] {
      Indexing.SameIdSameDoc(c, p, i, j);
    }
  }

  lemma SucceededAreGenerated(c: Config, s: State)
    requires Inv(c, s)
    ensures Gather(s.log.finished, Ledger.SucceededDocs) <= multiset(s.producer.generated)
  {
    Conservation(c, s);
  }
}
