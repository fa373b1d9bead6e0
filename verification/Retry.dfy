/** The retry loop of one job: sendWithRetry in app/internal/seeder/runner/worker.go. */
module Retry {
  import opened Options
  import opened SolrClient
  import opened Stats
  import opened Telemetry

  /** What one attempt meets: the post, whether the batch context is done when the failure is
      examined, and whether it ends the backoff wait. */
  datatype Round = Round(x: Exchange, seen: bool, cut: bool)

  /** What the loop body does with a reply. */
  datatype Decision = Succeed | Cancel | Fail(kind: FailureKind) | TryAgain

  function Decide(attempts: nat, attempt: nat, x: Exchange, seen: bool): Decision {
    match Classify(x)
    case None => Succeed
    case Some(err) =>
      if Is(err, ContextCanceled) || seen then Cancel
      else if !IsRetryable(err) || attempt == attempts then Fail(FailureType(err))
      else TryAgain
  }

  /** How a job ends. FellThrough is the return after the loop; Pending means the rounds ran out. */
  datatype Fate = Succeeded | Failed(kind: FailureKind) | CanceledAtPost | CanceledInBackoff | FellThrough | Pending

  datatype Outcome = Outcome(fate: Fate, posts: nat) {
    /** A post is followed by a counted retry unless its reply ended the job. */
    function Retries(): nat {
      if (fate.Succeeded? || fate.Failed? || fate.CanceledAtPost?) && posts > 0 then posts - 1 else posts
    }
  }

  /** How a loop decides about the round of an attempt. */
  type Decider = (nat, Round) -> Decision

  /** The round leads to another attempt. */
  predicate GoesOn(decide: Decider, attempt: nat, r: Round) { decide(attempt, r).TryAgain? && !r.cut }

  /** How the loop ends from a given attempt on, for any way to decide. */
  function FateBy(decide: Decider, attempts: nat, attempt: nat, rounds: seq<Round>): Fate
    decreases |rounds|
  {
    if attempt > attempts then FellThrough
    else if rounds == [] then Pending
    else if GoesOn(decide, attempt, rounds[0]) then FateBy(decide, attempts, attempt + 1, rounds[1..])
    else FateOf(decide(attempt, rounds[0]))
  }

  /** How many posts it makes. */
  function PostsBy(decide: Decider, attempts: nat, attempt: nat, rounds: seq<Round>): nat
    decreases |rounds|
  {
    if attempt > attempts || rounds == [] then 0
    else if GoesOn(decide, attempt, rounds[0]) then PostsBy(decide, attempts, attempt + 1, rounds[1..]) + 1
    else 1
  }

  function JudgeBy(decide: Decider, attempts: nat, attempt: nat, rounds: seq<Round>): Outcome {
    Outcome(FateBy(decide, attempts, attempt, rounds), PostsBy(decide, attempts, attempt, rounds))
  }

  function By(attempts: nat): Decider { (n: nat, r: Round) => Decide(attempts, n, r.x, r.seen) }

  /** The outcome of the loop from a given attempt on. */
  function Judge(attempts: nat, attempt: nat, rounds: seq<Round>): Outcome {
    JudgeBy(By(attempts), attempts, attempt, rounds)
  }

  /** One turn of the loop: what the decision makes of the outcome of the remaining turns. */
  function Turn(d: Decision, cut: bool, later: Outcome): Outcome {
    if d.TryAgain? && !cut then Later(later, 1)
    else Outcome(FateOf(d), 1)
  }

  /** An outcome after k retried posts. */
  function Later(o: Outcome, k: nat): Outcome { Outcome(o.fate, o.posts + k) }

  /** The round ends in another attempt, provided one is left. */
  predicate Retried(r: Round) { Transient(r) && !r.cut }

  /** The round's failure is final: uncanceled, and not retryable or of the last attempt. */
  predicate Refused(attempts: nat, attempt: nat, r: Round) {
    var reply := Classify(r.x);
    && reply.Some? && !Is(reply.value, ContextCanceled) && !r.seen
    && (!IsRetryable(reply.value) || attempt == attempts)
  }

  /** The round's failure is worth a retry: uncanceled and retryable. */
  predicate Transient(r: Round) {
    var reply := Classify(r.x);
    reply.Some? && !Is(reply.value, ContextCanceled) && !r.seen && IsRetryable(reply.value)
  }

  /** How a job ends by this decision; one that would try again ends only if its wait is cut. */
  function FateOf(d: Decision): Fate {
    match d
    case Succeed => Succeeded
    case Cancel => CanceledAtPost
    case Fail(kind) => Failed(kind)
    case TryAgain => CanceledInBackoff
  }

  /** The counters after one job with this outcome. */
  function Settle(total: Counters, count: nat, o: Outcome): Counters {
    var t := total.AddRetries(o.Retries());
    match o.fate
    case Succeeded => t.AddRequest().AddDocs(count)
    case Failed(_) => t.AddFailure()
    case _ => t
  }

  /** The counters after one decision. */
  function Record(total: Counters, count: nat, d: Decision): Counters {
    match d
    case Succeed => total.AddRequest().AddDocs(count)
    case Cancel => total
    case Fail(_) => total.AddFailure()
    case TryAgain => total.AddRetries(1)
  }

  /** One attempt counted right: a good answer as a request with its documents, a rejection for good as
      a failure, a transient failure with an attempt left as a retry, and nothing else. */
  predicate CountedOnce(before: Counters, after: Counters, count: nat, attempts: nat, attempt: nat, r: Round) {
    var good := Classify(r.x).None?;
    && after.successfulRequests == before.successfulRequests + (if good then 1 else 0)
    && after.successfulDocs == before.successfulDocs + (if good then count else 0)
    && after.terminalFailures == before.terminalFailures + (if Refused(attempts, attempt, r) then 1 else 0)
    && after.retryAttempts == before.retryAttempts + (if Transient(r) && attempt != attempts then 1 else 0)
    && after.generatedDocs == before.generatedDocs && after.droppedBatches == before.droppedBatches
  }

  lemma RecordCounts(total: Counters, count: nat, attempts: nat, attempt: nat, r: Round)
    ensures var d := Decide(attempts, attempt, r.x, r.seen);
      CountedOnce(total, Record(total, count, d), count, attempts, attempt, r)
  {}

  /** What the gauges go through during n posts. */
  function Blips(g: Gauges, n: nat): seq<Gauges> {
    if n == 0 then [] else Blips(g, n - 1) + [g.(inFlight := g.inFlight + 1), g]
  }

  /** The loop body up to the backoff wait: post, examine the reply, count. */
  method Attempt(attempts: nat, attempt: nat, count: nat, round: Round, stats: CoreStats, gauges: CoreState)
    returns (d: Decision)
    requires stats.Valid()
    modifies stats, gauges
    ensures stats.Valid() && gauges.Value() == old(gauges.Value())
    ensures gauges.history == old(gauges.history) + Blips(old(gauges.Value()), 1)
    ensures d == Decide(attempts, attempt, round.x, round.seen)
    ensures stats.total == Record(old(stats.total), count, d)
    ensures CountedOnce(old(stats.total), stats.total, count, attempts, attempt, round)
  {
    RecordCounts(stats.total, count, attempts, attempt, round);
    ghost var g := gauges.Value();
    assert Blips(g, 1) == [g.(inFlight := g.inFlight + 1), g];
    gauges.StartRequest();
    var reply := PostBatch(round.x);
    gauges.FinishRequest();
    if reply.None? {
      stats.IncSuccessfulRequest(count);
      return Succeed;
    }
    var err := reply.value;
    if Is(err, ContextCanceled) || round.seen {
      return Cancel;
    }
    var failureType := FailureType(err);
    if !IsRetryable(err) {
      stats.IncTerminalFailure();
      return Fail(failureType);
    }
    if attempt == attempts {
      stats.IncTerminalFailure();
      return Fail(failureType);
    }
    stats.IncRetryAttempt();
    return TryAgain;
  }

  lemma {:induction false} JudgeFrom(decide: Decider, attempts: nat, attempt: nat, rounds: seq<Round>, k: nat)
    requires attempt <= attempts && k < |rounds|
    ensures JudgeBy(decide, attempts, attempt, rounds[k..])
         == Turn(decide(attempt, rounds[k]), rounds[k].cut, JudgeBy(decide, attempts, attempt + 1, rounds[k + 1..]))
  {
    assert rounds[k..][1..] == rounds[k + 1..];
  }

  /** What the k-th turn settles, given that of the turns after it. */
  lemma TurnSettles(total: Counters, count: nat, d: Decision, cut: bool, later: Outcome, k: nat)
    ensures var goal, now := Later(Turn(d, cut, later), k), Record(total.AddRetries(k), count, d);
      if d.TryAgain? && !cut then goal == Later(later, k + 1) && now == total.AddRetries(k + 1)
      else goal.fate == FateOf(d) && goal.posts == k + 1 && now == Settle(total, count, goal)
  {}

  /** Retry number q, from 0, is counted: all rounds before went on to the next, this one failed in a way
      worth a retry, with an attempt left. Its wait may still be cut. */
  predicate RetryCounted(attempts: nat, rounds: seq<Round>, q: nat) {
    q < |rounds| && q + 1 < attempts && Transient(rounds[q]) && forall i :: 0 <= i < q ==> Retried(rounds[i])
  }

  /** One job counted right: a success with its documents exactly if some attempt succeeds, a failure
      exactly if some attempt is rejected for good, and every retry there is. */
  ghost predicate CountedAsSent(before: Counters, after: Counters, count: nat, attempts: nat, rounds: seq<Round>) {
    var good := exists p: nat :: SucceedsAt(attempts, 1, rounds, p);
    && after.successfulRequests == before.successfulRequests + (if good then 1 else 0)
    && after.successfulDocs == before.successfulDocs + (if good then count else 0)
    && after.terminalFailures == before.terminalFailures
         + (if exists p: nat, kind :: FailsAt(attempts, 1, rounds, p, kind) then 1 else 0)
    && before.retryAttempts <= after.retryAttempts
    && (forall q: nat :: q < after.retryAttempts - before.retryAttempts <==> RetryCounted(attempts, rounds, q))
    && after.generatedDocs == before.generatedDocs && after.droppedBatches == before.droppedBatches
  }

  lemma SettleCounts(total: Counters, count: nat, attempts: nat, rounds: seq<Round>)
    ensures CountedAsSent(total, Settle(total, count, Judge(attempts, 1, rounds)), count, attempts, rounds)
  {
    var o := Judge(attempts, 1, rounds);
    SucceedsExactly(attempts, 1, rounds);
    FailsSomehow(attempts, rounds);
    forall q: nat
      ensures q < o.Retries() <==> RetryCounted(attempts, rounds, q)
    {
      RetriesExactly(attempts, rounds, q);
    }
  }

  lemma FailsSomehow(attempts: nat, rounds: seq<Round>)
    ensures Judge(attempts, 1, rounds).fate.Failed? <==> exists p: nat, kind :: FailsAt(attempts, 1, rounds, p, kind)
  {
    var fate := Judge(attempts, 1, rounds).fate;
    if fate.Failed? {
      FailsExactly(attempts, 1, rounds, fate.kind);
    }
    if p: nat, kind :| FailsAt(attempts, 1, rounds, p, kind) {
      FailsExactly(attempts, 1, rounds, kind);
    }
  }

  /** After k retried posts: the rest of the loop decides the outcome, and k retries are counted. */
  predicate Midway(attempts: nat, rounds: seq<Round>, k: nat, before: Counters, now: Counters) {
    && k <= |rounds| && k <= attempts
    && Judge(attempts, 1, rounds) == Later(Judge(attempts, k + 1, rounds[k..]), k)
    && now == before.AddRetries(k)
  }

  /** The job is over after these posts. */
  predicate Over(attempts: nat, rounds: seq<Round>, count: nat, fate: Fate, posts: nat,
                 before: Counters, now: Counters)
  {
    var o := Judge(attempts, 1, rounds);
    fate == o.fate && posts == o.posts && now == Settle(before, count, o)
  }

  lemma MidwayTurn(attempts: nat, rounds: seq<Round>, count: nat, k: nat, before: Counters, now: Counters)
    requires Midway(attempts, rounds, k, before, now) && k < attempts && k < |rounds|
    ensures var d := Decide(attempts, k + 1, rounds[k].x, rounds[k].seen);
      var next := Record(now, count, d);
      if d.TryAgain? && !rounds[k].cut then Midway(attempts, rounds, k + 1, before, next)
      else Over(attempts, rounds, count, FateOf(d), k + 1, before, next)
  {
    var d := Decide(attempts, k + 1, rounds[k].x, rounds[k].seen);
    JudgeFrom(By(attempts), attempts, k + 1, rounds, k);
    TurnSettles(before, count, d, rounds[k].cut, Judge(attempts, k + 2, rounds[k + 1..]), k);
  }

  lemma MidwayStarts(attempts: nat, rounds: seq<Round>, before: Counters)
    ensures Midway(attempts, rounds, 0, before, before)
  {
    assert rounds[0..] == rounds;
  }

  /** The loop over the attempts computes Judge and moves the in-flight gauge up and down once for every
      post. */
  method TryAttempts(attempts: nat, count: nat, rounds: seq<Round>, stats: CoreStats, gauges: CoreState)
    returns (fate: Fate, ghost posts: nat)
    requires stats.Valid() && |rounds| >= attempts
    modifies stats, gauges
    ensures stats.Valid() && gauges.Value() == old(gauges.Value())
    ensures gauges.history == old(gauges.history) + Blips(old(gauges.Value()), posts)
    ensures Over(attempts, rounds, count, fate, posts, old(stats.total), stats.total)
    ensures fate.FellThrough? <==> attempts == 0
  {
    OutcomeBounds(attempts, 1, rounds);
    MidwayStarts(attempts, rounds, stats.total);
    posts := 0;
    var attempt := 1;
    while attempt <= attempts
      invariant 1 <= attempt <= attempts + 1 && posts == attempt - 1
      invariant stats.Valid() && gauges.Value() == old(gauges.Value())
      invariant gauges.history == old(gauges.history) + Blips(old(gauges.Value()), posts)
      invariant Midway(attempts, rounds, posts, old(stats.total), stats.total)
    {
      MidwayTurn(attempts, rounds, count, posts, old(stats.total), stats.total);
      MoreBlips(old(gauges.history), old(gauges.Value()), posts);
      var d := Attempt(attempts, attempt, count, rounds[attempt - 1], stats, gauges);
      posts := posts + 1;
      match d {
        case Succeed => return Succeeded, posts;
        case Cancel => return CanceledAtPost, posts;
        case Fail(kind) => return Failed(kind), posts;
        case TryAgain =>
      }
      if rounds[attempt - 1].cut {
        return CanceledInBackoff, posts;
      }
      attempt := attempt + 1;
    }
    return FellThrough, posts;
  }

  /** sendWithRetry: the loop, and what it leaves in the counters in terms of the rounds alone. */
  method SendWithRetry(attempts: nat, count: nat, rounds: seq<Round>, stats: CoreStats, gauges: CoreState)
    returns (fate: Fate, ghost posts: nat)
    requires stats.Valid() && |rounds| >= attempts
    modifies stats, gauges
    ensures stats.Valid() && gauges.Value() == old(gauges.Value())
    ensures gauges.history == old(gauges.history) + Blips(old(gauges.Value()), posts)
    ensures Over(attempts, rounds, count, fate, posts, old(stats.total), stats.total)
    ensures CountedAsSent(old(stats.total), stats.total, count, attempts, rounds)
    ensures fate.FellThrough? <==> attempts == 0
  {
    fate, posts := TryAttempts(attempts, count, rounds, stats, gauges);
    SettleCounts(old(stats.total), count, attempts, rounds);
  }

  lemma MoreBlips(before: seq<Gauges>, g: Gauges, n: nat)
    ensures (before + Blips(g, n)) + Blips(g, 1) == before + Blips(g, n + 1)
  {
    assert Blips(g, 1) == [g.(inFlight := g.inFlight + 1), g];
  }

  /** With enough rounds a job makes 1 to attempts posts, at most attempts - 1 retries, and ends in
      one of the four real fates; every post but a final one is followed by a retry. */
  lemma OutcomeBounds(attempts: nat, attempt: nat, rounds: seq<Round>)
    requires |rounds| + attempt > attempts
    ensures Bounded(attempts, attempt, Judge(attempts, attempt, rounds))
  {
    forall r
      ensures !By(attempts)(attempts, r).TryAgain?
    {
      LastIsFinal(attempts, r);
    }
    BoundsBy(By(attempts), attempts, attempt, rounds);
  }

  predicate Bounded(attempts: nat, attempt: nat, o: Outcome) {
    if attempt > attempts then o.fate.FellThrough?
    else
      && !o.fate.FellThrough? && !o.fate.Pending?
      && 1 <= o.posts <= attempts - attempt + 1
      && o.Retries() <= attempts - attempt
      && o.posts == o.Retries() + (if o.fate.CanceledInBackoff? then 0 else 1)
  }

  lemma LastIsFinal(attempts: nat, r: Round)
    ensures !Decide(attempts, attempts, r.x, r.seen).TryAgain?
  {}

  lemma {:induction false} BoundsBy(decide: Decider, attempts: nat, attempt: nat, rounds: seq<Round>)
    requires |rounds| + attempt > attempts && forall r :: !decide(attempts, r).TryAgain?
    ensures Bounded(attempts, attempt, JudgeBy(decide, attempts, attempt, rounds))
    decreases |rounds|
  {
    if attempt <= attempts {
      BoundsBy(decide, attempts, attempt + 1, rounds[1..]);
    }
  }

  /** The p-th round from here is reached: all before it went on. */
  predicate Reaches(decide: Decider, attempts: nat, attempt: nat, rounds: seq<Round>, p: nat) {
    && p < |rounds| && attempt + p <= attempts
    && forall q :: 0 <= q < p ==> GoesOn(decide, attempt + q, rounds[q])
  }

  lemma ReachesLater(decide: Decider, attempts: nat, attempt: nat, rounds: seq<Round>, p: nat)
    requires rounds != [] && GoesOn(decide, attempt, rounds[0])
    ensures Reaches(decide, attempts, attempt + 1, rounds[1..], p)
      <==> Reaches(decide, attempts, attempt, rounds, p + 1)
  {
    if Reaches(decide, attempts, attempt, rounds, p + 1) {
      forall q | 0 <= q < p
        ensures GoesOn(decide, attempt + 1 + q, rounds[1..][q])
      {
        assert GoesOn(decide, attempt + (q + 1), rounds[q + 1]);
      }
    }
  }

  /** A post is made for each round that is reached, and a retry counted for each that then tries again. */
  lemma {:induction false} CountsExactly(decide: Decider, attempts: nat, attempt: nat, rounds: seq<Round>, q: nat)
    ensures var o := JudgeBy(decide, attempts, attempt, rounds);
      && (q < o.posts <==> Reaches(decide, attempts, attempt, rounds, q))
      && (q < o.Retries() <==>
            Reaches(decide, attempts, attempt, rounds, q) && decide(attempt + q, rounds[q]).TryAgain?)
    decreases |rounds|
  {
    if attempt <= attempts && rounds != [] && q > 0 {
      assert Reaches(decide, attempts, attempt, rounds, q) ==> GoesOn(decide, attempt + 0, rounds[0]);
      if GoesOn(decide, attempt, rounds[0]) {
        CountsExactly(decide, attempts, attempt + 1, rounds[1..], q - 1);
        ReachesLater(decide, attempts, attempt, rounds, q - 1);
      }
    }
    if attempt <= attempts && rounds != [] {
      EndedMeansPosted(decide, attempts, attempt + 1, rounds[1..]);
    }
  }

  lemma EndedMeansPosted(decide: Decider, attempts: nat, attempt: nat, rounds: seq<Round>)
    ensures var o := JudgeBy(decide, attempts, attempt, rounds);
      o.posts == 0 ==> o.fate.FellThrough? || o.fate.Pending?
  {}

  /** The p-th round from here is the last, and is decided so. */
  predicate EndsAt(decide: Decider, attempts: nat, attempt: nat, rounds: seq<Round>, p: nat, d: Decision) {
    && p < |rounds| && attempt + p <= attempts && decide(attempt + p, rounds[p]) == d
    && forall q :: 0 <= q < p ==> GoesOn(decide, attempt + q, rounds[q])
  }

  /** A job is decided in some way exactly when some attempt within the limit decides so and all earlier
      ones go on. */
  lemma {:induction false} DecidedExactly(decide: Decider, attempts: nat, attempt: nat, rounds: seq<Round>, d: Decision)
    requires !d.TryAgain?
    ensures JudgeBy(decide, attempts, attempt, rounds).fate == FateOf(d) <==>
      exists p: nat :: EndsAt(decide, attempts, attempt, rounds, p, d)
    decreases |rounds|
  {
    if attempt <= attempts && rounds != [] {
      DecidedExactly(decide, attempts, attempt + 1, rounds[1..], d);
      if JudgeBy(decide, attempts, attempt, rounds).fate == FateOf(d) {
        if GoesOn(decide, attempt, rounds[0]) {
          var p: nat :| EndsAt(decide, attempts, attempt + 1, rounds[1..], p, d);
          EndsLater(decide, attempts, attempt, rounds, p, d);
        } else {
          assert EndsAt(decide, attempts, attempt, rounds, 0, d);
        }
      }
      if p: nat :| EndsAt(decide, attempts, attempt, rounds, p, d) {
        if p > 0 {
          assert GoesOn(decide, attempt + 0, rounds[0]);
          EndsLater(decide, attempts, attempt, rounds, p - 1, d);
        }
      }
    }
  }

  lemma EndsLater(decide: Decider, attempts: nat, attempt: nat, rounds: seq<Round>, p: nat, d: Decision)
    requires rounds != [] && GoesOn(decide, attempt, rounds[0])
    ensures EndsAt(decide, attempts, attempt + 1, rounds[1..], p, d)
      <==> EndsAt(decide, attempts, attempt, rounds, p + 1, d)
  {
    assert forall q :: 0 <= q < |rounds| - 1 ==> rounds[1..][q] == rounds[q + 1];
    if EndsAt(decide, attempts, attempt, rounds, p + 1, d) {
      forall q | 0 <= q < p
        ensures GoesOn(decide, attempt + 1 + q, rounds[1..][q])
      {
        assert GoesOn(decide, attempt + (q + 1), rounds[q + 1]);
      }
    }
  }

  lemma GoesOnExactly(attempts: nat, attempt: nat, r: Round)
    requires attempt < attempts
    ensures GoesOn(By(attempts), attempt, r) <==> Retried(r)
  {}

  lemma EachGoesOn(attempts: nat, attempt: nat, rounds: seq<Round>, p: nat)
    requires p <= |rounds| && attempt + p <= attempts
    ensures (forall q :: 0 <= q < p ==> GoesOn(By(attempts), attempt + q, rounds[q]))
      <==> forall q :: 0 <= q < p ==> Retried(rounds[q])
  {
    forall q | 0 <= q < p
      ensures GoesOn(By(attempts), attempt + q, rounds[q]) <==> Retried(rounds[q])
    {
      GoesOnExactly(attempts, attempt + q, rounds[q]);
    }
  }

  lemma TriesAgainExactly(attempts: nat, attempt: nat, r: Round)
    ensures Decide(attempts, attempt, r.x, r.seen).TryAgain? <==> Transient(r) && attempt != attempts
  {}

  lemma RetriesExactly(attempts: nat, rounds: seq<Round>, q: nat)
    ensures q < Judge(attempts, 1, rounds).Retries() <==> RetryCounted(attempts, rounds, q)
  {
    CountsExactly(By(attempts), attempts, 1, rounds, q);
    if q < |rounds| && 1 + q <= attempts {
      EachGoesOn(attempts, 1, rounds, q);
      TriesAgainExactly(attempts, 1 + q, rounds[q]);
    }
  }

  /** Posts are made exactly for the rounds within the limit that only retried ones precede. */
  lemma PostsExactly(attempts: nat, rounds: seq<Round>, q: nat)
    ensures q < Judge(attempts, 1, rounds).posts <==>
      q < |rounds| && q < attempts && forall i :: 0 <= i < q ==> Retried(rounds[i])
  {
    CountsExactly(By(attempts), attempts, 1, rounds, q);
    if q < |rounds| && 1 + q <= attempts {
      EachGoesOn(attempts, 1, rounds, q);
    }
  }

  predicate SucceedsAt(attempts: nat, attempt: nat, rounds: seq<Round>, p: nat) {
    && p < |rounds| && attempt + p <= attempts
    && Classify(rounds[p].x).None? && forall q :: 0 <= q < p ==> Retried(rounds[q])
  }

  lemma SucceedsWhere(attempts: nat, attempt: nat, rounds: seq<Round>, p: nat)
    ensures SucceedsAt(attempts, attempt, rounds, p) <==> EndsAt(By(attempts), attempts, attempt, rounds, p, Succeed)
  {
    if p < |rounds| && attempt + p <= attempts {
      EachGoesOn(attempts, attempt, rounds, p);
    }
  }

  /** A job succeeds exactly when some attempt within the limit is answered well and all earlier
      ones were retryable and not cut short. */
  lemma SucceedsExactly(attempts: nat, attempt: nat, rounds: seq<Round>)
    ensures Judge(attempts, attempt, rounds).fate.Succeeded? <==>
      exists p: nat :: SucceedsAt(attempts, attempt, rounds, p)
  {
    DecidedExactly(By(attempts), attempts, attempt, rounds, Succeed);
    forall p: nat
      ensures SucceedsAt(attempts, attempt, rounds, p) <==> EndsAt(By(attempts), attempts, attempt, rounds, p, Succeed)
    {
      SucceedsWhere(attempts, attempt, rounds, p);
    }
  }

  /** The backoff is cut in some round that tries again and is cut. */
  predicate CutAt(decide: Decider, attempts: nat, attempt: nat, rounds: seq<Round>, p: nat) {
    Reaches(decide, attempts, attempt, rounds, p) && decide(attempt + p, rounds[p]).TryAgain? && rounds[p].cut
  }

  lemma {:induction false} CutExactly(decide: Decider, attempts: nat, attempt: nat, rounds: seq<Round>)
    ensures JudgeBy(decide, attempts, attempt, rounds).fate.CanceledInBackoff? <==>
      exists p: nat :: CutAt(decide, attempts, attempt, rounds, p)
    decreases |rounds|
  {
    if attempt <= attempts && rounds != [] {
      if GoesOn(decide, attempt, rounds[0]) {
        var next, rest := attempt + 1, rounds[1..];
        CutExactly(decide, attempts, next, rest);
        if p: nat :| CutAt(decide, attempts, next, rest, p) {
          ReachesLater(decide, attempts, attempt, rounds, p);
          assert CutAt(decide, attempts, attempt, rounds, p + 1);
        }
        if p: nat :| CutAt(decide, attempts, attempt, rounds, p) {
          ReachesLater(decide, attempts, attempt, rounds, p - 1);
          assert CutAt(decide, attempts, next, rest, p - 1);
        }
      } else {
        CutInFirst(decide, attempts, attempt, rounds);
      }
    }
  }

  lemma ReachesPastFirst(decide: Decider, attempts: nat, attempt: nat, rounds: seq<Round>, p: nat)
    requires Reaches(decide, attempts, attempt, rounds, p) && p > 0
    ensures GoesOn(decide, attempt, rounds[0])
  {
    assert GoesOn(decide, attempt + 0, rounds[0]);
  }

  lemma CutInFirst(decide: Decider, attempts: nat, attempt: nat, rounds: seq<Round>)
    requires attempt <= attempts && rounds != [] && !GoesOn(decide, attempt, rounds[0])
    ensures (exists p: nat :: CutAt(decide, attempts, attempt, rounds, p))
      <==> decide(attempt, rounds[0]).TryAgain? && rounds[0].cut
  {
    if decide(attempt, rounds[0]).TryAgain? && rounds[0].cut {
      assert CutAt(decide, attempts, attempt, rounds, 0);
    }
    if p: nat :| CutAt(decide, attempts, attempt, rounds, p) {
      if p > 0 {
        ReachesPastFirst(decide, attempts, attempt, rounds, p);
      }
    }
  }

  predicate CanceledAt(attempts: nat, rounds: seq<Round>, p: nat) {
    && p < |rounds| && p < attempts && (forall q :: 0 <= q < p ==> Retried(rounds[q]))
    && var reply := Classify(rounds[p].x);
    reply.Some? && (Is(reply.value, ContextCanceled) || rounds[p].seen)
  }

  /** A job is canceled at a post exactly when a failed attempt, reached through retried ones, carries a
      cancellation or finds its context canceled; and in a backoff exactly when a counted retry is cut. */
  lemma CanceledExactly(attempts: nat, rounds: seq<Round>)
    ensures Judge(attempts, 1, rounds).fate.CanceledAtPost? <==> exists p: nat :: CanceledAt(attempts, rounds, p)
    ensures Judge(attempts, 1, rounds).fate.CanceledInBackoff? <==>
      exists p: nat :: RetryCounted(attempts, rounds, p) && rounds[p].cut
  {
    DecidedExactly(By(attempts), attempts, 1, rounds, Cancel);
    CutExactly(By(attempts), attempts, 1, rounds);
    forall p: nat
      ensures CanceledAt(attempts, rounds, p) <==> EndsAt(By(attempts), attempts, 1, rounds, p, Cancel)
      ensures RetryCounted(attempts, rounds, p) && rounds[p].cut <==> CutAt(By(attempts), attempts, 1, rounds, p)
    {
      CanceledWhere(attempts, rounds, p);
    }
  }

  lemma CanceledWhere(attempts: nat, rounds: seq<Round>, p: nat)
    ensures CanceledAt(attempts, rounds, p) <==> EndsAt(By(attempts), attempts, 1, rounds, p, Cancel)
    ensures RetryCounted(attempts, rounds, p) && rounds[p].cut <==> CutAt(By(attempts), attempts, 1, rounds, p)
  {
    if p < |rounds| && 1 + p <= attempts {
      EachGoesOn(attempts, 1, rounds, p);
      TriesAgainExactly(attempts, 1 + p, rounds[p]);
    }
  }

  /** The reply is rejected with this kind for good. */
  predicate Rejected(attempts: nat, attempt: nat, r: Round, kind: FailureKind) {
    Refused(attempts, attempt, r) && kind == FailureType(Classify(r.x).value)
  }

  predicate FailsAt(attempts: nat, attempt: nat, rounds: seq<Round>, p: nat, kind: FailureKind) {
    && p < |rounds| && attempt + p <= attempts
    && (forall q :: 0 <= q < p ==> Retried(rounds[q]))
    && Rejected(attempts, attempt + p, rounds[p], kind)
  }

  lemma RejectedExactly(attempts: nat, attempt: nat, r: Round, kind: FailureKind)
    ensures Rejected(attempts, attempt, r, kind) <==> By(attempts)(attempt, r) == Fail(kind)
  {}

  lemma FailsWhere(attempts: nat, attempt: nat, rounds: seq<Round>, p: nat, kind: FailureKind)
    ensures FailsAt(attempts, attempt, rounds, p, kind)
      <==> EndsAt(By(attempts), attempts, attempt, rounds, p, Fail(kind))
  {
    if p < |rounds| && attempt + p <= attempts {
      EachGoesOn(attempts, attempt, rounds, p);
      RejectedExactly(attempts, attempt + p, rounds[p], kind);
    }
  }

  /** A job fails with a kind exactly when some attempt is rejected with that kind, not canceled, and
      either not retryable or the last allowed, after attempts that were all retried. */
  lemma FailsExactly(attempts: nat, attempt: nat, rounds: seq<Round>, kind: FailureKind)
    ensures Judge(attempts, attempt, rounds).fate == Failed(kind) <==>
      exists p: nat :: FailsAt(attempts, attempt, rounds, p, kind)
  {
    DecidedExactly(By(attempts), attempts, attempt, rounds, Fail(kind));
    forall p: nat
      ensures FailsAt(attempts, attempt, rounds, p, kind)
        <==> EndsAt(By(attempts), attempts, attempt, rounds, p, Fail(kind))
    {
      FailsWhere(attempts, attempt, rounds, p, kind);
    }
  }

  lemma RejectedKind(attempts: nat, attempt: nat, r: Round, kind: FailureKind)
    requires Rejected(attempts, attempt, r, kind)
    ensures kind !in {Canceled, Unknown}
  {
    GuardedFailureIsNotCanceled(Classify(r.x).value);
  }

  /** No failure is ever recorded as canceled. */
  lemma FailureKinds(attempts: nat, attempt: nat, rounds: seq<Round>)
    requires Judge(attempts, attempt, rounds).fate.Failed?
    ensures Judge(attempts, attempt, rounds).fate.kind !in {Canceled, Unknown}
  {
    var kind := Judge(attempts, attempt, rounds).fate.kind;
    FailsExactly(attempts, attempt, rounds, kind);
    var p: nat :| FailsAt(attempts, attempt, rounds, p, kind);
    RejectedKind(attempts, attempt + p, rounds[p], kind);
  }

  /** The one outcome is the other after k retried posts. */
  predicate Shifted(o: Outcome, p: Outcome, k: nat) {
    o.fate == p.fate && o.posts == p.posts + k
  }

  lemma {:induction false} GoingOnShifts(decide: Decider, attempts: nat, attempt: nat, rounds: seq<Round>, k: nat)
    requires k < |rounds| && attempt <= attempts && GoesOn(decide, attempt, rounds[k])
    ensures Shifted(JudgeBy(decide, attempts, attempt, rounds[k..]),
                    JudgeBy(decide, attempts, attempt + 1, rounds[k + 1..]), 1)
  {
    JudgeFrom(decide, attempts, attempt, rounds, k);
  }

  /** The outcome from each of the first n rounds on, and from after them. */
  function Outcomes(decide: Decider, attempts: nat, attempt: nat, rounds: seq<Round>, n: nat): (os: seq<Outcome>)
    requires n <= |rounds|
    ensures |os| == n + 1
    ensures forall k :: 0 <= k <= n ==> os[k] == JudgeBy(decide, attempts, attempt + k, rounds[k..])
  {
    seq(n + 1, k requires 0 <= k <= n => JudgeBy(decide, attempts, attempt + k, rounds[k..]))
  }

  lemma {:induction false} ShiftsAdd(os: seq<Outcome>, n: nat)
    requires n < |os| && forall k :: 0 <= k < n ==> Shifted(os[k], os[k + 1], 1)
    ensures Shifted(os[0], os[n], n)
  {
    if n > 0 {
      ShiftsAdd(os, n - 1);
    }
  }

  lemma {:induction false} SkipBy(decide: Decider, attempts: nat, attempt: nat, rounds: seq<Round>, n: nat)
    requires n <= |rounds| && attempt + n <= attempts
    requires forall q :: 0 <= q < n ==> GoesOn(decide, attempt + q, rounds[q])
    ensures Shifted(JudgeBy(decide, attempts, attempt, rounds),
                    JudgeBy(decide, attempts, attempt + n, rounds[n..]), n)
  {
    var os := Outcomes(decide, attempts, attempt, rounds, n);
    forall k | 0 <= k < n
      ensures Shifted(os[k], os[k + 1], 1)
    {
      GoingOnShifts(decide, attempts, attempt + k, rounds, k);
    }
    ShiftsAdd(os, n);
    assert rounds[0..] == rounds;
  }

  /** The outcome depends on the rounds before the last only through their number. */
  lemma {:induction false} JudgeSnoc(attempts: nat, attempt: nat, rounds: seq<Round>, last: Round)
    requires attempt + |rounds| <= attempts
    requires forall k :: 0 <= k < |rounds| ==> Retried(rounds[k])
    ensures var o := Judge(attempts, attempt + |rounds|, [last]);
      Judge(attempts, attempt, rounds + [last]) == Later(o, |rounds|)
  {
    var whole, n := rounds + [last], |rounds|;
    EachGoesOn(attempts, attempt, whole, n);
    SkipBy(By(attempts), attempts, attempt, whole, n);
    assert whole[n..] == [last];
  }
}
