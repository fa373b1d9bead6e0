/** One worker's loop: worker in app/internal/seeder/runner/worker.go. */
module Working {
  import opened Sums
  import opened Stats
  import opened Telemetry
  import opened Retry

  /** What one turn of the loop meets: a canceled context, a closed and empty channel, or a job with the
      queue it leaves behind, its rounds, and whether a configured rest is cut short. */
  datatype Turn =
    | Canceled
    | NoMoreJobs
    | GotJob(count: nat, depth: nat, rounds: seq<Round>, restCut: bool)

  /** The turn is the worker's last. */
  predicate Last(turn: Turn, workerSleep: int) { !turn.GotJob? || (workerSleep > 0 && turn.restCut) }

  /** The jobs a worker takes: those of the turns up to its last. */
  function Taken(turns: seq<Turn>, workerSleep: int): seq<Turn> {
    if turns == [] || !turns[0].GotJob? then []
    else if Last(turns[0], workerSleep) then [turns[0]]
    else [turns[0]] + Taken(turns[1..], workerSleep)
  }

  predicate Leaves(turns: seq<Turn>, workerSleep: int) {
    exists k :: 0 <= k < |turns| && Last(turns[k], workerSleep)
  }

  /** The counters after these jobs. */
  function SettleAll(total: Counters, attempts: nat, jobs: seq<Turn>): Counters
    requires forall k :: 0 <= k < |jobs| ==> jobs[k].GotJob?
  {
    if jobs == [] then total
    else
      var last := jobs[|jobs| - 1];
      Settle(SettleAll(total, attempts, jobs[..|jobs| - 1]), last.count, Judge(attempts, 1, last.rounds))
  }

  lemma {:induction false} TakenUntil(turns: seq<Turn>, workerSleep: int, n: nat)
    requires n <= |turns|
    requires forall k :: 0 <= k < n ==> turns[k].GotJob?
    requires forall k :: 0 <= k < n - 1 ==> !Last(turns[k], workerSleep)
    requires n == |turns| || !turns[n].GotJob? || (n > 0 && Last(turns[n - 1], workerSleep))
    ensures Taken(turns, workerSleep) == turns[..n]
    ensures Leaves(turns, workerSleep) <==> n < |turns| || (n > 0 && Last(turns[n - 1], workerSleep))
  {
    if n > 0 && !Last(turns[0], workerSleep) {
      TakenUntil(turns[1..], workerSleep, n - 1);
      assert forall k :: 0 < k < |turns| ==> turns[k] == turns[1..][k - 1];
      assert turns[..n] == [turns[0]] + turns[1..][..n - 1];
    } else if n > 0 {
      assert n == 1;
      assert turns[..1] == [turns[0]];
    }
  }

  /** The counters and gauges after these jobs, with the worker counted as active or not. */
  predicate After(attempts: nat, jobs: seq<Turn>, active: int, total: Counters, g: Gauges, now: Counters, h: Gauges) {
    && (forall k :: 0 <= k < |jobs| ==> jobs[k].GotJob?)
    && now == SettleAll(total, attempts, jobs)
    && h == Gauges(g.activeWorkers + active, g.inFlight, if jobs == [] then g.queueDepth else jobs[|jobs| - 1].depth)
  }

  lemma AfterSnoc(attempts: nat, jobs: seq<Turn>, job: Turn, total: Counters, g: Gauges, now: Counters, h: Gauges)
    requires After(attempts, jobs, 1, total, g, now, h) && job.GotJob?
    ensures After(attempts, jobs + [job], 1, total, g,
                  Settle(now, job.count, Judge(attempts, 1, job.rounds)), h.(queueDepth := job.depth))
  {
    assert (jobs + [job])[..|jobs|] == jobs;
  }

  lemma AfterLeaving(attempts: nat, jobs: seq<Turn>, total: Counters, g: Gauges, now: Counters, h: Gauges)
    requires After(attempts, jobs, 1, total, g, now, h)
    ensures After(attempts, jobs, 0, total, g, now, h.(activeWorkers := h.activeWorkers - 1))
  {}

  /** Stores the depth the take left and sends the job. */
  method DoJob(attempts: nat, job: Turn, stats: CoreStats, gauges: CoreState)
    requires stats.Valid() && job.GotJob? && |job.rounds| >= attempts
    modifies stats, gauges
    ensures stats.Valid()
    ensures stats.total == Settle(old(stats.total), job.count, Judge(attempts, 1, job.rounds))
    ensures CountedAsSent(old(stats.total), stats.total, job.count, attempts, job.rounds)
    ensures gauges.Value() == old(gauges.Value()).(queueDepth := job.depth)
  {
    gauges.SetQueueDepth(job.depth);
    var _, _ := SendWithRetry(attempts, job.count, job.rounds, stats, gauges);
  }

  /** The loop settles exactly the jobs it takes, in order, each by the outcome of its own rounds, stores
      the depth each take leaves, and gives up its place among the active workers exactly when it leaves,
      whichever way that is. */
  method Work(attempts: nat, workerSleep: int, turns: seq<Turn>, stats: CoreStats, gauges: CoreState)
    returns (left: bool)
    requires stats.Valid()
    requires forall k :: 0 <= k < |turns| && turns[k].GotJob? ==> |turns[k].rounds| >= attempts
    modifies stats, gauges
    ensures stats.Valid() && left == Leaves(turns, workerSleep)
    ensures After(attempts, Taken(turns, workerSleep), if left then 0 else 1,
                  old(stats.total), old(gauges.Value()), stats.total, gauges.Value())
  {
    gauges.StartWorker();
    for i := 0 to |turns|
      invariant stats.Valid()
      invariant forall k :: 0 <= k < i ==> !Last(turns[k], workerSleep)
      invariant After(attempts, turns[..i], 1, old(stats.total), old(gauges.Value()), stats.total, gauges.Value())
    {
      var turn := turns[i];
      if !turn.GotJob? {
        TakenUntil(turns, workerSleep, i);
        AfterLeaving(attempts, turns[..i], old(stats.total), old(gauges.Value()), stats.total, gauges.Value());
        gauges.FinishWorker();
        return true;
      }
      AfterSnoc(attempts, turns[..i], turn, old(stats.total), old(gauges.Value()), stats.total, gauges.Value());
      DoJob(attempts, turn, stats, gauges);
      assert turns[..i + 1] == turns[..i] + [turn];
      if workerSleep > 0 && turn.restCut {
        TakenUntil(turns, workerSleep, i + 1);
        AfterLeaving(attempts, turns[..i + 1], old(stats.total), old(gauges.Value()), stats.total, gauges.Value());
        gauges.FinishWorker();
        return true;
      }
    }
    TakenUntil(turns, workerSleep, |turns|);
    assert turns[..|turns|] == turns;
    return false;
  }

  // ----- what the worker's jobs add up to -----

  /** The loop takes a job in every turn up to its last: after a canceled context, a closed channel or a
      rest cut short it takes none. */
  lemma {:induction false} TakenExactly(turns: seq<Turn>, workerSleep: int, k: nat)
    ensures k < |Taken(turns, workerSleep)| <==>
      && k < |turns| && (forall j :: 0 <= j <= k ==> turns[j].GotJob?)
      && (forall j :: 0 <= j < k ==> !(workerSleep > 0 && turns[j].restCut))
    ensures k < |Taken(turns, workerSleep)| ==> Taken(turns, workerSleep)[k] == turns[k]
  {
    if turns != [] && k > 0 {
      var rest := turns[1..];
      TakenExactly(rest, workerSleep, k - 1);
      assert forall j :: 0 <= j < |rest| ==> rest[j] == turns[j + 1];
      assert (forall j :: 0 <= j <= k - 1 && j < |rest| ==> rest[j].GotJob?)
        <==> (forall j :: 1 <= j <= k && j < |turns| ==> turns[j].GotJob?);
    }
  }

  /** One for a job some attempt of which succeeds. */
  ghost function Succeeding(attempts: nat): Turn -> nat {
    (job: Turn) => if job.GotJob? && exists p: nat :: SucceedsAt(attempts, 1, job.rounds, p) then 1 else 0
  }

  ghost function SucceedingDocs(attempts: nat): Turn -> nat {
    (job: Turn) => if job.GotJob? && exists p: nat :: SucceedsAt(attempts, 1, job.rounds, p) then job.count else 0
  }

  /** One for a job some attempt of which is rejected for good. */
  ghost function Failing(attempts: nat): Turn -> nat {
    (job: Turn) => if job.GotJob? && exists p: nat, kind :: FailsAt(attempts, 1, job.rounds, p, kind) then 1 else 0
  }

  /** The retries of a job, which RetriesExactly enumerates. */
  function Retrying(attempts: nat): Turn -> nat {
    (job: Turn) => if job.GotJob? then Judge(attempts, 1, job.rounds).Retries() else 0
  }

  /** A worker counts exactly the successes, their documents, the final failures and the retries of the
      jobs it takes, and nothing else. */
  lemma {:induction false} JobsCounted(total: Counters, attempts: nat, jobs: seq<Turn>)
    requires forall k :: 0 <= k < |jobs| ==> jobs[k].GotJob?
    ensures var t := SettleAll(total, attempts, jobs);
      && t.successfulRequests == total.successfulRequests + Total(jobs, Succeeding(attempts))
      && t.successfulDocs == total.successfulDocs + Total(jobs, SucceedingDocs(attempts))
      && t.terminalFailures == total.terminalFailures + Total(jobs, Failing(attempts))
      && t.retryAttempts == total.retryAttempts + Total(jobs, Retrying(attempts))
      && t.generatedDocs == total.generatedDocs && t.droppedBatches == total.droppedBatches
  {
    if jobs != [] {
      var rest, job := jobs[..|jobs| - 1], jobs[|jobs| - 1];
      JobsCounted(total, attempts, rest);
      SettleCounts(SettleAll(total, attempts, rest), job.count, attempts, job.rounds);
    }
  }

  /** The job ends in neither a counted success nor a counted failure. */
  function Uncounted(attempts: nat): Turn -> nat {
    (turn: Turn) => if !turn.GotJob? then 0
            else match Judge(attempts, 1, turn.rounds).fate
              case Succeeded => 0
              case Failed(_) => 0
              case _ => 1
  }

  /** A worker counts every job it takes once, as a success or as a failure, or finds it canceled. */
  lemma {:induction false} EveryJobOnce(total: Counters, attempts: nat, jobs: seq<Turn>)
    requires forall k :: 0 <= k < |jobs| ==> jobs[k].GotJob?
    ensures var t := SettleAll(total, attempts, jobs);
      t.successfulRequests + t.terminalFailures + Total(jobs, Uncounted(attempts))
      == total.successfulRequests + total.terminalFailures + |jobs|
  {
    if jobs != [] {
      EveryJobOnce(total, attempts, jobs[..|jobs| - 1]);
    }
  }
}
