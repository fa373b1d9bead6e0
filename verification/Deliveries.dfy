/** Runs of one core that deliver batch after batch, and the snapshots that misread them. */
module Deliveries {
  import opened Options
  import opened Chunking
  import opened SolrClient
  import opened Stats
  import opened Pipeline
  import opened Paths
  import Drain
  import Ledger
  import Reachable
  import Retry
  import Shutdown
  import Snapshots

  /** Some run of the core leads to the state. */
  ghost predicate Visited(c: Config, s: State) {
    exists states, actions :: IsRun(c, states, actions) && states[|actions|] == s
  }

  lemma VisitedInit(c: Config)
    ensures Visited(c, Init(c))
  {
    var actions: seq<Action> := [];
    assert IsRun(c, [Init(c)], actions);
  }

  lemma VisitedNext(c: Config, s: State, a: Action)
    requires Visited(c, s) && Enabled(c, s, a)
    ensures Visited(c, Apply(c, s, a))
  {
    var states, actions :| IsRun(c, states, actions) && states[|actions|] == s;
    var longer, steps := Shutdown.Extend(c, states, actions, a);
  }

  lemma {:induction false} VisitedAlong(c: Config, t: Clock, path: seq<Drain.TimedAction>, u: Clock)
    requires Visited(c, t.s) && Drives(c, t, path, u)
    ensures Visited(c, u.s)
    decreases |path|
  {
    if path != [] {
      VisitedNext(c, t.s, path[0].a);
      VisitedAlong(c, Drain.TimedApply(c, t, path[0]), path[1..], u);
    }
  }

  lemma VisitedLed(c: Config, t: Clock, u: Clock)
    requires Visited(c, t.s) && Leads(c, t, u)
    ensures Visited(c, u.s)
  {
    var path :| Drives(c, t, path, u);
    VisitedAlong(c, t, path, u);
  }

  /** The state with all its clocks run out. */
  function Unclocked(c: Config, s: State): Clock {
    Drain.Timed(s, seq(c.workers, _ => 0.0), seq(c.workers, _ => 0), 0.0)
  }

  /** A core whose first worker waits for the next batch. */
  predicate AtRest(c: Config, s: State) {
    BetweenBatches(c, Unclocked(c, s)) && !s.forced && s.queue == [] && c.workers >= 1 && s.workers[0].Idle?
  }

  /** Plain documents of one id are the same, so applying one more keeps the others. */
  lemma IndexedAfter(index: map<string, Doc>, docs: seq<Doc>, n: nat)
    requires n < |docs| && Plain(docs) && forall i :: 0 <= i < n ==> Indexed(index, docs[i])
    ensures forall i :: 0 <= i <= n ==> Indexed(index[docs[n].id := docs[n]], docs[i])
  {}

  /** The server applies what was posted, document by document. */
  lemma {:induction false} ApplyDocs(c: Config, from: Clock, t: Clock, k: nat, n: nat) returns (u: Clock)
    requires Leads(c, from, t) && Drain.Clocked(c, t)
    requires k < |t.s.log.posted| && n <= |t.s.log.posted[k]| && Plain(t.s.log.posted[k])
    ensures Leads(c, from, u) && u == t.(s := t.s.(index := u.s.index))
    ensures forall i :: 0 <= i < n ==> Indexed(u.s.index, t.s.log.posted[k][i])
  {
    if n == 0 {
      u := t;
    } else {
      var v := ApplyDocs(c, from, t, k, n - 1);
      u := ApplyDoc(c, from, v, k, n - 1);
    }
  }

  lemma ApplyDoc(c: Config, from: Clock, t: Clock, k: nat, n: nat) returns (u: Clock)
    requires Leads(c, from, t) && Drain.Clocked(c, t)
    requires k < |t.s.log.posted| && n < |t.s.log.posted[k]| && Plain(t.s.log.posted[k])
    requires forall i :: 0 <= i < n ==> Indexed(t.s.index, t.s.log.posted[k][i])
    ensures Leads(c, from, u) && u == t.(s := t.s.(index := u.s.index))
    ensures forall i :: 0 <= i <= n ==> Indexed(u.s.index, t.s.log.posted[k][i])
  {
    u := Step1(c, from, t, ServerApplies(k, t.s.log.posted[k][n]));
    IndexedAfter(t.s.index, t.s.log.posted[k], n);
  }

  const WELL := Answered(200, Header(0))

  lemma BeginsPost(c: Config, from: Clock, t: Clock) returns (u: Clock)
    requires Leads(c, from, t) && Able(c, t, 0, BeginPost)
    ensures Leads(c, from, u) && Beside(c, t, u, 0) && u.s.queue == t.s.queue && u.s.counters == t.s.counters
    ensures u.s.workers[0] == Posting(t.s.workers[0].job, t.s.workers[0].tape)
    ensures u.s.log.posted == t.s.log.posted + [t.s.workers[0].job]
  {
    u := Step(c, from, t, Work(0, BeginPost), 0.0);
  }

  lemma PostApplied(c: Config, from: Clock, t: Clock) returns (u: Clock)
    requires Leads(c, from, t) && Able(c, t, 0, BeginPost) && Plain(t.s.workers[0].job)
    ensures Leads(c, from, u) && Beside(c, t, u, 0) && u.s.queue == t.s.queue && u.s.counters == t.s.counters
    ensures u.s.workers[0] == Posting(t.s.workers[0].job, t.s.workers[0].tape)
    ensures forall i :: 0 <= i < |t.s.workers[0].job| ==> Indexed(u.s.index, t.s.workers[0].job[i])
  {
    var v := BeginsPost(c, from, t);
    u := ApplyDocs(c, from, v, |t.s.log.posted|, |t.s.workers[0].job|);
    BesideTrans(c, t, v, u, 0);
  }

  /** A loaded job is posted, applied and answered well. */
  lemma PostWell(c: Config, from: Clock, t: Clock) returns (u: Clock)
    requires Leads(c, from, t) && Able(c, t, 0, BeginPost) && Plain(t.s.workers[0].job)
    ensures Leads(c, from, u) && Beside(c, t, u, 0) && u.s.queue == t.s.queue && u.s.counters == t.s.counters
    ensures var w := t.s.workers[0];
      u.s.workers[0] == Decided(w.job, w.tape, Retry.Round(WELL, t.s.forced, false))
  {
    var v := PostApplied(c, from, t);
    u := EndPostWith(c, from, v, 0, WELL);
    BesideTrans(c, t, v, u, 0);
  }

  /** A good answer is counted, request first and documents second. */
  lemma CountWell(c: Config, from: Clock, t: Clock) returns (u: Clock)
    requires Leads(c, from, t) && Drain.Clocked(c, t) && c.workers >= 1
    requires t.s.workers[0].Decided? && t.s.workers[0].round.x == WELL
    ensures Leads(c, from, u) && Beside(c, t, u, 0) && u.s.queue == t.s.queue
    ensures u.s.counters.successfulDocs == t.s.counters.successfulDocs + |t.s.workers[0].job|
    ensures u.s.workers[0] == AfterJob(c)
  {
    var v := CountRequest(c, from, t);
    u := Work1(c, from, v, 0, CountDocs, 0.0);
    BesideTrans(c, t, v, u, 0);
  }

  lemma CountRequest(c: Config, from: Clock, t: Clock) returns (u: Clock)
    requires Leads(c, from, t) && Drain.Clocked(c, t) && c.workers >= 1
    requires t.s.workers[0].Decided? && t.s.workers[0].round.x == WELL
    ensures Leads(c, from, u) && Beside(c, t, u, 0) && u.s.queue == t.s.queue
    ensures u.s.counters == t.s.counters.AddRequest()
    ensures var w := t.s.workers[0]; u.s.workers[0] == Counting(w.job, w.tape, w.round)
  {
    u := Work1(c, from, t, 0, Conclude, 0.0);
  }

  lemma DeliverJob(c: Config, from: Clock, t: Clock) returns (u: Clock)
    requires c.Valid() && Leads(c, from, t) && BetweenBatches(c, t) && !t.s.forced
    requires t.s.workers[0].Idle? && t.s.queue == []
    ensures Leads(c, from, u) && BetweenBatches(c, u) && !u.s.forced && u.s.queue == []
    ensures u.s.counters.successfulDocs == t.s.counters.successfulDocs + c.batchSize
    ensures u.s.workers[0] == AfterJob(c)
  {
    var sent := SendBatch(c, from, t);
    var loaded := Load(c, from, sent, 0);
    var decided := PostWell(c, from, loaded);
    u := CountWell(c, from, decided);
  }

  lemma DeliverBatch(c: Config, s: State) returns (u: State)
    requires c.Valid() && Visited(c, s) && AtRest(c, s)
    ensures Visited(c, u) && AtRest(c, u)
    ensures u.counters.successfulDocs == s.counters.successfulDocs + c.batchSize
  {
    var t := Unclocked(c, s);
    Begins(c, t);
    var v := DeliverJob(c, t, t);
    VisitedLed(c, t, v);
    u := v.s;
    if u.workers[0].Resting? {
      VisitedNext(c, u, Work(0, WakeUp));
      u := Apply(c, u, Work(0, WakeUp));
    }
  }

  lemma {:induction false} DeliverBatches(c: Config, n: nat) returns (s: State)
    requires c.Valid()
    ensures Visited(c, s) && AtRest(c, s) && s.counters.successfulDocs >= n
  {
    if n == 0 {
      VisitedInit(c);
      VisitedNext(c, Init(c), Work(0, Start));
      s := Apply(c, Init(c), Work(0, Start));
    } else {
      var t := DeliverBatches(c, n - 1);
      s := DeliverBatch(c, t);
    }
  }

  lemma GrowsByOne(c: Config, s: State, a: Action)
    requires Enabled(c, s, a)
    ensures Apply(c, s, a).counters.generatedDocs <= s.counters.generatedDocs + 1
  {
    if a.Work? {
      Ledger.RequestBalance(c, s, s.workers[a.i], a.wa);
    }
  }

  predicate Climbs(counts: seq<nat>) {
    && counts != [] && counts[0] == 0
    && forall k :: 0 <= k < |counts| - 1 ==> counts[k + 1] <= counts[k] + 1
  }

  lemma {:induction false} EveryCountSeen(counts: seq<nat>, k: nat, m: nat) returns (i: nat)
    requires Climbs(counts) && k < |counts| && m <= counts[k]
    ensures i <= k && counts[i] == m
  {
    i := k;
    if counts[k] > m {
      i := EveryCountSeen(counts, k - 1, m);
    }
  }

  /** Generated documents are counted one at a time, so every number up to the last is seen. */
  lemma EveryNumberGenerated(c: Config, states: seq<State>, actions: seq<Action>, m: nat) returns (i: nat)
    requires IsRun(c, states, actions) && m <= states[|actions|].counters.generatedDocs
    ensures i <= |actions| && states[i].counters.generatedDocs == m
  {
    var counts := seq(|states|, k requires 0 <= k < |states| => states[k].counters.generatedDocs);
    forall k | 0 <= k < |counts| - 1
      ensures counts[k + 1] <= counts[k] + 1
    {
      GrowsByOne(c, states[k], actions[k]);
    }
    i := EveryCountSeen(counts, |actions|, m);
  }

  lemma SucceedingRun(c: Config, n: nat) returns (states: seq<State>, actions: seq<Action>)
    requires c.Valid()
    ensures IsRun(c, states, actions)
    ensures n <= states[|actions|].counters.successfulDocs <= states[|actions|].counters.generatedDocs
  {
    var s := DeliverBatches(c, n);
    states, actions :| IsRun(c, states, actions) && states[|actions|] == s;
    Reachable.InvAlways(c, states, actions, |actions|);
    Snapshots.AtOneInstant(c, s);
  }

  /** The inversion has no bound: whatever the settings, some run and load times show a given number of
      generated documents and any number more of successful ones. */
  lemma InversionIsUnbounded(c: Config, m: nat, excess: nat)
    returns (states: seq<State>, actions: seq<Action>, at: seq<nat>)
    requires c.Valid()
    ensures IsRun(c, states, actions) && Snapshots.LoadTimes(at, states)
    ensures Snapshots.Torn(states, at).generatedDocs == m && Snapshots.Torn(states, at).successfulDocs >= m + excess
  {
    states, actions := SucceedingRun(c, m + excess);
    var i := EveryNumberGenerated(c, states, actions, m);
    var n := |actions|;
    at := [i, n, n, n, n, n];
  }
}
