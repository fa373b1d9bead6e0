/** Snapshot reads the six counters one load at a time (app/internal/seeder/stats/stats.go) while
    workers keep counting: what a torn snapshot still guarantees. */
module Snapshots {
  import opened Sums
  import opened Stats
  import opened Pipeline
  import Ledger
  import Reachable

  /** Where in the run each of the six loads happens, in program order. */
  predicate LoadTimes(at: seq<nat>, states: seq<State>) {
    && |at| == 6
    && (forall i, j :: 0 <= i < j < 6 ==> at[i] <= at[j])
    && at[5] < |states|
  }

  function Torn(states: seq<State>, at: seq<nat>): Counters
    requires LoadTimes(at, states)
  {
    Counters(states[at[0]].counters.generatedDocs,
             states[at[1]].counters.successfulRequests,
             states[at[2]].counters.successfulDocs,
             states[at[3]].counters.retryAttempts,
             states[at[4]].counters.terminalFailures,
             states[at[5]].counters.droppedBatches)
  }

  predicate Below(a: Counters, b: Counters) {
    && a.generatedDocs <= b.generatedDocs && a.successfulRequests <= b.successfulRequests
    && a.successfulDocs <= b.successfulDocs && a.retryAttempts <= b.retryAttempts
    && a.terminalFailures <= b.terminalFailures && a.droppedBatches <= b.droppedBatches
  }

  lemma EffectGrows(c: Config, s: State, w: Worker, wa: WorkerAction)
    requires WorkerEnabled(c, s, w, wa)
    ensures Below(s.counters, WorkerEffect(c, s, w, wa).counters)
  {}

  lemma StepGrows(c: Config, s: State, a: Action)
    requires Enabled(c, s, a)
    ensures Below(s.counters, Apply(c, s, a).counters)
  {
    match a
    case Work(i, wa) => EffectGrows(c, s, s.workers[i], wa);
    case _ =>
  }

  lemma {:induction false} ChainGrows(cs: seq<Counters>, i: nat, j: nat)
    requires forall k :: 0 <= k < |cs| - 1 ==> Below(cs[k], cs[k + 1])
    requires i <= j < |cs|
    ensures Below(cs[i], cs[j])
  {
    if i < j {
      ChainGrows(cs, i, j - 1);
    }
  }

  lemma CountersMonotone(c: Config, states: seq<State>, actions: seq<Action>, i: nat, j: nat)
    requires IsRun(c, states, actions) && i <= j < |states|
    ensures Below(states[i].counters, states[j].counters)
  {
    var cs := seq(|states|, k requires 0 <= k < |states| => states[k].counters);
    forall k | 0 <= k < |cs| - 1
      ensures Below(cs[k], cs[k + 1])
    {
      StepGrows(c, states[k], actions[k]);
    }
    ChainGrows(cs, i, j);
  }

  /** At one instant: requests lead documents by at most the workers between the two additions, and
      documents are bounded by full batches and by what was generated. */
  lemma AtOneInstant(c: Config, s: State)
    requires c.Valid() && Reachable.Inv(c, s)
    ensures s.counters.successfulRequests <= s.counters.successfulDocs + c.workers
    ensures s.counters.successfulDocs <= c.batchSize * s.counters.successfulRequests
    ensures s.counters.successfulDocs <= s.counters.generatedDocs
  {
    RequestsBracketed(c, s);
    DocsBelowTaken(c, s);
    Reachable.TakenBelowGenerated(c, s);
  }

  lemma RequestsBracketed(c: Config, s: State)
    requires c.Valid() && Ledger.Tapes(c, s) && Ledger.RequestsCounted(s) && |s.workers| == c.workers
    ensures s.counters.successfulRequests <= s.counters.successfulDocs + c.workers
    ensures s.counters.successfulDocs <= c.batchSize * s.counters.successfulRequests
  {
    TotalLe(s.log.finished, Ledger.SucceededOne, Ledger.SucceededCount);
    TotalAtMost(s.workers, Ledger.HalfCounted, 1);
    TotalScaled(s.log.finished, Ledger.SucceededCount, Ledger.SucceededOne, c.batchSize);
    Scaled(c.batchSize, Total(s.log.finished, Ledger.SucceededOne), s.counters.successfulRequests);
  }

  lemma DocsBelowTaken(c: Config, s: State)
    requires Reachable.Inv(c, s)
    ensures s.counters.successfulDocs <= |Flatten(s.log.dequeued)|
  {
    Reachable.CountersAreSizes(c, s);
    var done, taken := Gather(s.log.finished, Ledger.SucceededDocs), multiset(Flatten(s.log.dequeued));
    assert done <= taken;
    SubSize(done, taken);
  }

  lemma Scaled(b: nat, x: nat, y: nat)
    requires x <= y
    ensures b * x <= b * y
  {}

  lemma SubSize<D>(a: multiset<D>, b: multiset<D>)
    requires a <= b
    ensures |a| <= |b|
  {
    assert b == a + (b - a);
  }

  /** Each field of a snapshot covers what had been counted when its own load was made, and nothing that was
      counted later. */
  predicate Timely(states: seq<State>, at: seq<nat>, shot: Counters)
    requires LoadTimes(at, states)
  {
    && (forall j :: 0 <= j <= at[0] ==> states[j].counters.generatedDocs <= shot.generatedDocs)
    && (forall j :: at[0] <= j < |states| ==> shot.generatedDocs <= states[j].counters.generatedDocs)
    && (forall j :: 0 <= j <= at[1] ==> states[j].counters.successfulRequests <= shot.successfulRequests)
    && (forall j :: at[1] <= j < |states| ==> shot.successfulRequests <= states[j].counters.successfulRequests)
    && (forall j :: 0 <= j <= at[2] ==> states[j].counters.successfulDocs <= shot.successfulDocs)
    && (forall j :: at[2] <= j < |states| ==> shot.successfulDocs <= states[j].counters.successfulDocs)
    && (forall j :: 0 <= j <= at[3] ==> states[j].counters.retryAttempts <= shot.retryAttempts)
    && (forall j :: at[3] <= j < |states| ==> shot.retryAttempts <= states[j].counters.retryAttempts)
    && (forall j :: 0 <= j <= at[4] ==> states[j].counters.terminalFailures <= shot.terminalFailures)
    && (forall j :: at[4] <= j < |states| ==> shot.terminalFailures <= states[j].counters.terminalFailures)
    && (forall j :: 0 <= j <= at[5] ==> states[j].counters.droppedBatches <= shot.droppedBatches)
    && (forall j :: at[5] <= j < |states| ==> shot.droppedBatches <= states[j].counters.droppedBatches)
  }

  lemma LoadsAreTimely(c: Config, states: seq<State>, actions: seq<Action>, at: seq<nat>)
    requires IsRun(c, states, actions) && LoadTimes(at, states)
    ensures Timely(states, at, Torn(states, at))
  {
    forall i, j | 0 <= i <= j < |states|
      ensures Below(states[i].counters, states[j].counters)
    {
      CountersMonotone(c, states, actions, i, j);
    }
  }

  /** The channel is closed and every worker has exited. */
  predicate Resting(s: State) { s.producer.pc.Closed? && Reachable.AllExited(s) }

  /** A load made once every worker has exited is exact, however stale the snapshot's earlier loads are. */
  lemma LateLoadsAreExact(c: Config, states: seq<State>, actions: seq<Action>, at: seq<nat>)
    requires IsRun(c, states, actions) && LoadTimes(at, states)
    ensures var shot, last := Torn(states, at), states[|states| - 1].counters;
      && (Resting(states[at[0]]) ==> shot.generatedDocs == last.generatedDocs)
      && (Resting(states[at[1]]) ==> shot.successfulRequests == last.successfulRequests)
      && (Resting(states[at[2]]) ==> shot.successfulDocs == last.successfulDocs)
      && (Resting(states[at[3]]) ==> shot.retryAttempts == last.retryAttempts)
      && (Resting(states[at[4]]) ==> shot.terminalFailures == last.terminalFailures)
      && (Resting(states[at[5]]) ==> shot.droppedBatches == last.droppedBatches)
  {
    forall k | 0 <= k < 6 && Resting(states[at[k]])
      ensures states[at[k]].counters == states[|states| - 1].counters
    {
      CountersRest(c, states, actions, at[k], |states| - 1);
    }
  }

  /** One torn snapshot, wherever its loads fall: requests exceed documents by at most the workers. */
  lemma WithinOneSnapshot(c: Config, states: seq<State>, actions: seq<Action>, at: seq<nat>)
    requires c.Valid() && IsRun(c, states, actions) && LoadTimes(at, states)
    ensures Torn(states, at).successfulRequests <= Torn(states, at).successfulDocs + c.workers
  {
    Reachable.InvAlways(c, states, actions, at[1]);
    AtOneInstant(c, states[at[1]]);
    CountersMonotone(c, states, actions, at[1], at[2]);
  }

  /** Two snapshots, the second begun after the first: every field grows, and the first one's
      documents are covered by the second one's requests and generated documents. */
  lemma AcrossSnapshots(c: Config, states: seq<State>, actions: seq<Action>, at: seq<nat>, later: seq<nat>)
    requires c.Valid() && IsRun(c, states, actions)
    requires LoadTimes(at, states) && LoadTimes(later, states) && at[5] <= later[0]
    ensures Below(Torn(states, at), Torn(states, later))
    ensures Torn(states, at).successfulDocs <= c.batchSize * Torn(states, later).successfulRequests
    ensures Torn(states, at).successfulDocs <= Torn(states, later).generatedDocs
  {
    forall k | 0 <= k < 6
      ensures Below(states[at[k]].counters, states[later[k]].counters)
    {
      CountersMonotone(c, states, actions, at[k], later[k]);
    }
    CountersMonotone(c, states, actions, at[2], later[0]);
    CountersMonotone(c, states, actions, at[2], later[1]);
    Reachable.InvAlways(c, states, actions, at[2]);
    AtOneInstant(c, states[at[2]]);
    Scaled(c.batchSize, states[at[2]].counters.successfulRequests, states[later[1]].counters.successfulRequests);
  }

  /** Inside one snapshot, documents can exceed generated documents. A snapshot that begins in a given
      state can show it exactly when the run goes on to count more successful documents than were generated
      by then: the reader only has to be delayed after its first load. */
  lemma TornInvertsExactly(c: Config, states: seq<State>, actions: seq<Action>, i: nat)
    requires IsRun(c, states, actions) && i < |states|
    ensures (exists at :: LoadTimes(at, states) && at[0] == i && Inverted(states, at))
      <==> states[|actions|].counters.successfulDocs > states[i].counters.generatedDocs
  {
    var n := |actions|;
    if states[n].counters.successfulDocs > states[i].counters.generatedDocs {
      assert LoadTimes([i, n, n, n, n, n], states) && Inverted(states, [i, n, n, n, n, n]);
    }
    forall at | LoadTimes(at, states) && at[0] == i && Inverted(states, at)
      ensures states[n].counters.successfulDocs > states[i].counters.generatedDocs
    {
      CountersMonotone(c, states, actions, at[2], n);
    }
  }

  predicate Inverted(states: seq<State>, at: seq<nat>)
    requires LoadTimes(at, states)
  {
    Torn(states, at).successfulDocs > Torn(states, at).generatedDocs
  }

  /** Some snapshot of a run can show it exactly when the run counts a success. */
  lemma TornMayInvert(c: Config, states: seq<State>, actions: seq<Action>)
    requires IsRun(c, states, actions)
    ensures (exists at :: LoadTimes(at, states) && Inverted(states, at))
      <==> states[|actions|].counters.successfulDocs > 0
  {
    TornInvertsExactly(c, states, actions, 0);
    forall at | LoadTimes(at, states) && Inverted(states, at)
      ensures states[|actions|].counters.successfulDocs > 0
    {
      CountersMonotone(c, states, actions, at[2], |actions|);
    }
  }

  /** Nothing is counted once the channel is closed and every worker has exited. */
  lemma {:induction false} CountersRest(c: Config, states: seq<State>, actions: seq<Action>, i: nat, j: nat)
    requires IsRun(c, states, actions) && i <= j < |states|
    requires states[i].producer.pc.Closed? && Reachable.AllExited(states[i])
    ensures states[j].counters == states[i].counters
    ensures states[j].producer.pc.Closed? && Reachable.AllExited(states[j])
  {
    if i < j {
      CountersRest(c, states, actions, i, j - 1);
      var s, a := states[j - 1], actions[j - 1];
      assert !a.Work?;
    }
  }

  /** The final totals are exact: loads made after every worker has exited all see one state. */
  lemma FinalSnapshotIsExact(c: Config, states: seq<State>, actions: seq<Action>, at: seq<nat>)
    requires c.Valid() && IsRun(c, states, actions) && LoadTimes(at, states)
    requires states[at[0]].producer.pc.Closed? && Reachable.AllExited(states[at[0]])
    ensures Torn(states, at) == states[at[0]].counters == states[|states| - 1].counters
  {
    forall k | 0 <= k < 6
      ensures states[at[k]].counters == states[at[0]].counters
    {
      CountersRest(c, states, actions, at[0], at[k]);
    }
    CountersRest(c, states, actions, at[0], |states| - 1);
  }
}
