/** The telemetry gauges under every interleaving. */
module Gauging {
  import opened Sums
  import opened Pipeline
  import Channel

  /** Between the in-flight increment and its decrement. */
  function InPost(w: Worker): nat { if w.Posting? || w.Posted? then 1 else 0 }

  /** Between the active-worker increment and its decrement. */
  function Running(w: Worker): nat { if w.Starting? || w.Exited? then 0 else 1 }

  predicate Gauged(c: Config, s: State) {
    && (forall i :: 0 <= i < |s.workers| && s.workers[i].Reporting? ==> s.workers[i].depth <= c.Capacity())
    && 0 <= s.gauges.queueDepth <= c.Capacity()
    && s.gauges.inFlight == (if c.telemetry then Total(s.workers, InPost) else 0)
    && s.gauges.activeWorkers == (if c.telemetry then Total(s.workers, Running) else 0)
  }

  lemma GaugeBalance(c: Config, s: State, w: Worker, wa: WorkerAction)
    requires WorkerEnabled(c, s, w, wa)
    ensures var e := WorkerEffect(c, s, w, wa);
      && (c.telemetry ==>
            && e.gauges.inFlight + InPost(w) == s.gauges.inFlight + InPost(e.worker)
            && e.gauges.activeWorkers + Running(w) == s.gauges.activeWorkers + Running(e.worker))
      && (!c.telemetry ==> e.gauges == s.gauges)
      && (e.gauges.queueDepth == s.gauges.queueDepth || (wa.WorkerStoreDepth? && e.gauges.queueDepth == w.depth))
      && (e.worker.Reporting? ==> e.worker.depth == |s.queue|)
  {}

  lemma GaugedInit(c: Config)
    ensures Gauged(c, Init(c))
  {
    TotalZero(Init(c).workers, InPost);
    TotalZero(Init(c).workers, Running);
  }

  lemma GaugedStep(c: Config, s: State, a: Action)
    requires c.Valid() && Channel.Shape(c, s) && Gauged(c, s) && Enabled(c, s, a)
    ensures Gauged(c, Apply(c, s, a))
  {
    match a
    case Work(i, wa) =>
      var e := WorkerEffect(c, s, s.workers[i], wa);
      GaugeBalance(c, s, s.workers[i], wa);
      TotalUpdate(s.workers, i, e.worker, InPost);
      TotalUpdate(s.workers, i, e.worker, Running);
    case _ =>
  }

  /** In every reachable state 0 <= inFlight <= activeWorkers <= workers and the stored depth is
      within the channel's capacity; once every worker has exited both worker gauges read zero. */
  lemma GaugeBounds(c: Config, s: State)
    requires Channel.Shape(c, s) && Gauged(c, s)
    ensures 0 <= s.gauges.inFlight <= s.gauges.activeWorkers <= c.workers
    ensures 0 <= s.gauges.queueDepth <= 2 * c.workers
    ensures (forall i :: 0 <= i < |s.workers| ==> s.workers[i].Exited?) ==>
              s.gauges.inFlight == 0 && s.gauges.activeWorkers == 0
  {
    TotalLe(s.workers, InPost, Running);
    TotalAtMost(s.workers, Running, 1);
    if forall i :: 0 <= i < |s.workers| ==> s.workers[i].Exited? {
      TotalZero(s.workers, InPost);
      TotalZero(s.workers, Running);
    }
  }

  // ----- which depth is stored -----

  predicate IsStore(a: Action) { a.StoreQueueDepth? || (a.Work? && a.wa.WorkerStoreDepth?) }

  /** The read is one of the goroutine that makes the store. */
  predicate ReadFor(store: Action, read: Action) {
    if store.Work? then read.Work? && read.i == store.i && read.wa.WorkerReadDepth? else read.ReadQueueDepth?
  }

  /** The last store before state k is action j. */
  predicate LastStore(actions: seq<Action>, k: nat, j: nat) {
    && j < k <= |actions| && IsStore(actions[j])
    && forall m: nat :: j < m < k ==> !IsStore(actions[m])
  }

  /** The goroutine of a store made its latest read before action j at action r. */
  predicate LatestRead(actions: seq<Action>, store: Action, j: nat, r: nat) {
    && r < j <= |actions| && ReadFor(store, actions[r])
    && forall m: nat :: r < m < j ==> !ReadFor(store, actions[m])
  }

  /** The depth was the length of the queue at the goroutine's latest read. */
  ghost predicate ReadBy(states: seq<State>, actions: seq<Action>, store: Action, k: nat, d: int)
    requires |states| == |actions| + 1
  {
    exists r: nat :: LatestRead(actions, store, k, r) && |states[r].queue| == d
  }

  /** Whoever is about to store a depth holds the one it read last. */
  ghost predicate Pending(states: seq<State>, actions: seq<Action>, k: nat)
    requires |states| == |actions| + 1 && k < |states|
  {
    var s := states[k];
    && (s.producer.pc.StoreDepth? ==> ReadBy(states, actions, StoreQueueDepth, k, s.producer.pc.depth))
    && (forall i: nat :: i < |s.workers| && s.workers[i].Reporting? ==>
          ReadBy(states, actions, Work(i, WorkerStoreDepth), k, s.workers[i].depth))
  }

  lemma ReadNow(states: seq<State>, actions: seq<Action>, store: Action, k: nat)
    requires |states| == |actions| + 1 && 0 < k < |states| && ReadFor(store, actions[k - 1])
    ensures ReadBy(states, actions, store, k, |states[k - 1].queue|)
  {
    assert LatestRead(actions, store, k, k - 1);
  }

  lemma ReadBefore(states: seq<State>, actions: seq<Action>, store: Action, k: nat, d: int)
    requires |states| == |actions| + 1 && 0 < k < |states| && !ReadFor(store, actions[k - 1])
    requires ReadBy(states, actions, store, k - 1, d)
    ensures ReadBy(states, actions, store, k, d)
  {
    var r: nat :| LatestRead(actions, store, k - 1, r) && |states[r].queue| == d;
    assert LatestRead(actions, store, k, r);
  }

  /** A depth about to be stored is the one just read, or was about to be stored before. */
  lemma DepthsFromReads(c: Config, s: State, a: Action)
    requires Enabled(c, s, a)
    ensures var t := Apply(c, s, a);
      && (t.producer.pc.StoreDepth? ==>
            if a.ReadQueueDepth? then t.producer.pc.depth == |s.queue| else t.producer.pc == s.producer.pc)
      && (forall i: nat :: i < |t.workers| && t.workers[i].Reporting? ==>
            if a == Work(i, WorkerReadDepth) then t.workers[i].depth == |s.queue| else t.workers[i] == s.workers[i])
      && |t.workers| == |s.workers|
  {
    if a.Work? {
      WorkerDepthsFromReads(c, s, s.workers[a.i], a.wa);
    }
  }

  lemma WorkerDepthsFromReads(c: Config, s: State, w: Worker, wa: WorkerAction)
    requires WorkerEnabled(c, s, w, wa)
    ensures var v := WorkerEffect(c, s, w, wa).worker;
      v.Reporting? ==> wa.WorkerReadDepth? && v.depth == |s.queue|
  {}

  lemma {:induction false} PendingAlways(c: Config, states: seq<State>, actions: seq<Action>, k: nat)
    requires IsRun(c, states, actions) && k < |states|
    ensures Pending(states, actions, k)
  {
    if k > 0 {
      PendingAlways(c, states, actions, k - 1);
      PendingStep(c, states, actions, k);
    }
  }

  lemma PendingStep(c: Config, states: seq<State>, actions: seq<Action>, k: nat)
    requires IsRun(c, states, actions) && 0 < k < |states| && Pending(states, actions, k - 1)
    ensures Pending(states, actions, k)
  {
    var s, a, t := states[k - 1], actions[k - 1], states[k];
    DepthsFromReads(c, s, a);
    if t.producer.pc.StoreDepth? {
      if a.ReadQueueDepth? {
        ReadNow(states, actions, StoreQueueDepth, k);
      } else {
        ReadBefore(states, actions, StoreQueueDepth, k, t.producer.pc.depth);
      }
    }
    forall i: nat | i < |t.workers| && t.workers[i].Reporting?
      ensures ReadBy(states, actions, Work(i, WorkerStoreDepth), k, t.workers[i].depth)
    {
      if a == Work(i, WorkerReadDepth) {
        ReadNow(states, actions, Work(i, WorkerStoreDepth), k);
      } else {
        ReadBefore(states, actions, Work(i, WorkerStoreDepth), k, t.workers[i].depth);
      }
    }
  }

  /** A store stores what its goroutine holds, and nothing else touches the gauge. */
  lemma StoreEffect(c: Config, s: State, a: Action)
    requires Enabled(c, s, a)
    ensures Apply(c, s, a).gauges.queueDepth ==
      if !c.telemetry || !IsStore(a) then s.gauges.queueDepth
      else if a.Work? then s.workers[a.i].depth
      else s.producer.pc.depth
  {}

  /** The depth stored by action j is the length of the queue at its goroutine's latest read. */
  ghost predicate Shows(c: Config, states: seq<State>, actions: seq<Action>, k: nat, j: nat)
    requires |states| == |actions| + 1 && k < |states| && j < |actions|
  {
    && (exists r: nat :: LatestRead(actions, actions[j], j, r))
    && (c.telemetry ==> forall r: nat :: LatestRead(actions, actions[j], j, r) ==>
          states[k].gauges.queueDepth == |states[r].queue|)
  }

  lemma OneLatest(actions: seq<Action>, store: Action, j: nat, q: nat, r: nat)
    requires LatestRead(actions, store, j, q) && LatestRead(actions, store, j, r)
    ensures q == r
  {}

  lemma StoresRead(c: Config, states: seq<State>, actions: seq<Action>, j: nat)
    requires IsRun(c, states, actions) && j < |actions| && IsStore(actions[j]) && Pending(states, actions, j)
    ensures Shows(c, states, actions, j + 1, j)
  {
    var s, a := states[j], actions[j];
    StoreEffect(c, s, a);
    var d := if a.Work? then s.workers[a.i].depth else s.producer.pc.depth;
    assert ReadBy(states, actions, a, j, d);
    var r: nat :| LatestRead(actions, a, j, r) && |states[r].queue| == d;
    forall q: nat | LatestRead(actions, a, j, q)
      ensures q == r
    {
      OneLatest(actions, a, j, q, r);
    }
  }

  lemma GaugeStays(c: Config, states: seq<State>, actions: seq<Action>, k: nat)
    requires IsRun(c, states, actions) && 0 < k < |states| && !IsStore(actions[k - 1])
    ensures states[k].gauges.queueDepth == states[k - 1].gauges.queueDepth
  {
    StoreEffect(c, states[k - 1], actions[k - 1]);
  }

  /** The values of the gauge over a run. */
  function Depths(states: seq<State>): (ds: seq<int>)
    ensures |ds| == |states| && forall k :: 0 <= k < |states| ==> ds[k] == states[k].gauges.queueDepth
  {
    seq(|states|, k requires 0 <= k < |states| => states[k].gauges.queueDepth)
  }

  predicate KeptBetweenStores(ds: seq<int>, actions: seq<Action>) {
    |ds| == |actions| + 1 && forall k :: 0 <= k < |actions| && !IsStore(actions[k]) ==> ds[k + 1] == ds[k]
  }

  lemma {:induction false} KeptSince(ds: seq<int>, actions: seq<Action>, i: nat, k: nat)
    requires KeptBetweenStores(ds, actions) && i <= k <= |actions|
    requires forall m :: i <= m < k ==> !IsStore(actions[m])
    ensures ds[k] == ds[i]
  {
    if i < k {
      KeptSince(ds, actions, i, k - 1);
    }
  }

  lemma RunKeepsBetweenStores(c: Config, states: seq<State>, actions: seq<Action>)
    requires IsRun(c, states, actions)
    ensures KeptBetweenStores(Depths(states), actions)
  {
    forall k | 0 <= k < |actions| && !IsStore(actions[k])
      ensures states[k + 1].gauges.queueDepth == states[k].gauges.queueDepth
    {
      GaugeStays(c, states, actions, k + 1);
    }
  }

  lemma ShownSince(c: Config, states: seq<State>, actions: seq<Action>, k: nat, j: nat)
    requires IsRun(c, states, actions) && LastStore(actions, k, j)
    ensures Shows(c, states, actions, k, j)
  {
    PendingAlways(c, states, actions, j);
    StoresRead(c, states, actions, j);
    RunKeepsBetweenStores(c, states, actions);
    KeptSince(Depths(states), actions, j + 1, k);
  }

  lemma ZeroBeforeStores(c: Config, states: seq<State>, actions: seq<Action>, k: nat)
    requires IsRun(c, states, actions) && k < |states| && forall j: nat :: j < k ==> !IsStore(actions[j])
    ensures states[k].gauges.queueDepth == 0
  {
    RunKeepsBetweenStores(c, states, actions);
    KeptSince(Depths(states), actions, 0, k);
  }

  lemma {:induction false} ZeroWithoutTelemetry(c: Config, states: seq<State>, actions: seq<Action>, k: nat)
    requires IsRun(c, states, actions) && k < |states| && !c.telemetry
    ensures states[k].gauges.queueDepth == 0
  {
    if k > 0 {
      ZeroWithoutTelemetry(c, states, actions, k - 1);
      StoreEffect(c, states[k - 1], actions[k - 1]);
    }
  }

  /** The queue-depth gauge, exactly: zero until the first store, and from then on the length the queue had
      when the goroutine of the last store made its latest read. Without telemetry it stays zero. */
  lemma StoredDepthExactly(c: Config, states: seq<State>, actions: seq<Action>, k: nat)
    requires IsRun(c, states, actions) && k < |states|
    ensures !c.telemetry || (forall j: nat :: j < k ==> !IsStore(actions[j])) ==> states[k].gauges.queueDepth == 0
    ensures forall j: nat :: LastStore(actions, k, j) ==>
      && (exists r: nat :: LatestRead(actions, actions[j], j, r))
      && (c.telemetry ==> forall r: nat :: LatestRead(actions, actions[j], j, r) ==>
            states[k].gauges.queueDepth == |states[r].queue|)
  {
    if !c.telemetry {
      ZeroWithoutTelemetry(c, states, actions, k);
    } else if forall j: nat :: j < k ==> !IsStore(actions[j]) {
      ZeroBeforeStores(c, states, actions, k);
    }
    forall j: nat | LastStore(actions, k, j)
      ensures Shows(c, states, actions, k, j)
    {
      ShownSince(c, states, actions, k, j);
    }
  }

  // ----- what the stored depth means -----

  /** Some state up to k had exactly d queued jobs. */
  ghost predicate WasDepth(states: seq<State>, k: nat, d: int) {
    exists j :: 0 <= j <= k && j < |states| && |states[j].queue| == d
  }

  /** The stored depth and every depth about to be stored were once the length of the queue. */
  ghost predicate DepthsSeen(states: seq<State>, k: nat)
    requires k < |states|
  {
    var s := states[k];
    && WasDepth(states, k, s.gauges.queueDepth)
    && (s.producer.pc.StoreDepth? ==> WasDepth(states, k, s.producer.pc.depth))
    && (forall i :: 0 <= i < |s.workers| && s.workers[i].Reporting? ==> WasDepth(states, k, s.workers[i].depth))
  }

  lemma {:induction false} FindLastStore(actions: seq<Action>, k: nat) returns (j: nat)
    requires k <= |actions| && exists m :: 0 <= m < k && IsStore(actions[m])
    ensures LastStore(actions, k, j)
  {
    if IsStore(actions[k - 1]) {
      j := k - 1;
    } else {
      j := FindLastStore(actions, k - 1);
    }
  }

  lemma SeenIfRead(states: seq<State>, actions: seq<Action>, k: nat)
    requires |states| == |actions| + 1 && k < |states|
    ensures forall store, d :: ReadBy(states, actions, store, k, d) ==> WasDepth(states, k, d)
  {}

  /** The gauge can lag behind the queue, but never invents a value: in every state of every run it
      shows the length the queue had at that or some earlier moment. */
  lemma DepthWasSeen(c: Config, states: seq<State>, actions: seq<Action>, k: nat)
    requires IsRun(c, states, actions) && k < |states|
    ensures DepthsSeen(states, k)
  {
    StoredDepthExactly(c, states, actions, k);
    PendingAlways(c, states, actions, k);
    SeenIfRead(states, actions, k);
    assert |states[0].queue| == 0;
    if c.telemetry && exists j :: 0 <= j < k && IsStore(actions[j]) {
      var j := FindLastStore(actions, k);
      var r: nat :| LatestRead(actions, actions[j], j, r);
      assert |states[r].queue| == states[k].gauges.queueDepth;
    }
  }
}
