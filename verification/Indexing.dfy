/** At-least-once posting against an index that overwrites by id. */
module Indexing {
  import opened Options
  import opened Sums
  import opened Chunking
  import opened SolrClient
  import opened Stats
  import opened Pipeline
  import Channel
  import Ledger
  import Ids

  /** The id is the n-th of its generator, for some clock reading. */
  ghost predicate Numbered(prefix: string, id: string, n: nat) { exists clock :: id == Ids.Id(prefix, clock, n) }

  /** Every generated document carries its serial number in its id, whatever the clock read. */
  ghost predicate Identified(c: Config, p: Producer) {
    forall k :: 0 <= k < |p.generated| ==> Numbered(c.prefix, p.generated[k].id, Wrap(k + 1))
  }

  lemma IdentifiedSnoc(c: Config, p: Producer, q: Producer, clock: int, d: Doc)
    requires Identified(c, p) && q.generated == p.generated + [d]
    requires d.id == Ids.Id(c.prefix, clock, Wrap(|p.generated| + 1))
    ensures Identified(c, q)
  {
    forall k | 0 <= k < |q.generated|
      ensures Numbered(c.prefix, q.generated[k].id, Wrap(k + 1))
    {
      if k == |p.generated| {
        assert q.generated[k].id == Ids.Id(c.prefix, clock, Wrap(k + 1));
      } else {
        assert q.generated[k] == p.generated[k];
      }
    }
  }

  lemma IdentifiedStep(c: Config, s: State, a: Action)
    requires Identified(c, s.producer) && Enabled(c, s, a)
    ensures Identified(c, Apply(c, s, a).producer)
  {
    match a
    case Generate(clock, _) =>
      var q := Apply(c, s, a).producer;
      IdentifiedSnoc(c, s.producer, q, clock, q.generated[|s.producer.generated|]);
    case _ => assert Apply(c, s, a).producer.generated == s.producer.generated;
  }

  lemma SameNumber(prefix: string, id: string, m: nat, n: nat)
    requires Numbered(prefix, id, Wrap(m)) && Numbered(prefix, id, Wrap(n)) && m < TWO_TO_64 && n < TWO_TO_64
    ensures m == n
  {
    var clock1 :| id == Ids.Id(prefix, clock1, Wrap(m));
    var clock2 :| id == Ids.Id(prefix, clock2, Wrap(n));
    Ids.CollideExactly(prefix, clock1, m, clock2, n);
  }

  /** Below 2^64 documents, equal ids mean the same document of the run. */
  lemma SameIdSameDoc(c: Config, p: Producer, i: nat, j: nat)
    requires Identified(c, p) && |p.generated| < TWO_TO_64
    requires i < |p.generated| && j < |p.generated| && p.generated[i].id == p.generated[j].id
    ensures i == j
  {
    SameNumber(c.prefix, p.generated[i].id, i + 1, j + 1);
  }

  /** The document is the n-th generated one (from 0), with the clock and the content of its action. */
  predicate Drawn(c: Config, a: Action, n: nat, d: Doc) {
    a.Generate? && Ids.Parse(c.prefix, d.id) == Some((a.clock, Wrap(n + 1))) && d.body == a.body
  }

  /** A Generate action adds its document; nothing else touches the generated ones. */
  predicate Grown(c: Config, g: seq<Doc>, a: Action, h: seq<Doc>) {
    if a.Generate? then |h| == |g| + 1 && g <= h && Drawn(c, a, |g|, h[|g|]) else h == g
  }

  lemma GeneratedGrows(c: Config, s: State, a: Action)
    requires Enabled(c, s, a)
    ensures Grown(c, s.producer.generated, a, Apply(c, s, a).producer.generated)
  {
    if a.Generate? {
      Ids.RoundTrip(c.prefix, a.clock, Wrap(|s.producer.generated| + 1));
    }
  }

  lemma {:induction false} PileUp(c: Config, gs: seq<seq<Doc>>, actions: seq<Action>, k: nat, n: nat)
    requires |gs| == |actions| + 1 && k < |gs| && gs[0] == []
    requires forall m :: 0 <= m < |actions| ==> Grown(c, gs[m], actions[m], gs[m + 1])
    ensures n < |gs[k]| <==> exists j: nat :: j < k && actions[j].Generate? && |gs[j]| == n
    ensures forall j: nat :: j < k && actions[j].Generate? && |gs[j]| == n ==>
      n < |gs[k]| && Drawn(c, actions[j], n, gs[k][n])
  {
    if k > 0 {
      PileUp(c, gs, actions, k - 1, n);
      assert Grown(c, gs[k - 1], actions[k - 1], gs[k]);
    }
  }

  /** The generated documents are the ones drawn, in order: each comes from its own Generate action, its id
      holds that action's clock reading and its serial number, and its content is that action's. */
  lemma GeneratedAsDrawn(c: Config, states: seq<State>, actions: seq<Action>, k: nat, n: nat)
    requires IsRun(c, states, actions) && k < |states|
    ensures n < |states[k].producer.generated| <==>
      exists j: nat :: j < k && actions[j].Generate? && |states[j].producer.generated| == n
    ensures forall j: nat :: j < k && actions[j].Generate? && |states[j].producer.generated| == n ==>
      n < |states[k].producer.generated| && Drawn(c, actions[j], n, states[k].producer.generated[n])
  {
    var gs := seq(|states|, m requires 0 <= m < |states| => states[m].producer.generated);
    forall m | 0 <= m < |actions|
      ensures Grown(c, gs[m], actions[m], gs[m + 1])
    {
      GeneratedGrows(c, states[m], actions[m]);
    }
    PileUp(c, gs, actions, k, n);
  }

  /** Only jobs that were taken from the queue are held or posted. */
  predicate Taken(s: State) {
    && (forall i :: 0 <= i < |s.workers| && HoldsJob(s.workers[i]) ==> s.workers[i].job in s.log.dequeued)
    && (forall k :: 0 <= k < |s.log.posted| ==> s.log.posted[k] in s.log.dequeued)
  }

  lemma TakenStep(c: Config, s: State, a: Action)
    requires Taken(s) && Enabled(c, s, a)
    ensures Taken(Apply(c, s, a))
  {
    if a.Work? {
      TakenWork(c, s, a.i, a.wa);
    }
  }

  lemma TakenWork(c: Config, s: State, i: nat, wa: WorkerAction)
    requires Taken(s) && Enabled(c, s, Work(i, wa))
    ensures Taken(Apply(c, s, Work(i, wa)))
  {
    var w, t := s.workers[i], Apply(c, s, Work(i, wa));
    Ledger.HeldEffect(c, s, w, wa);
    HoldsEffect(c, s, w, wa);
    assert s.log.dequeued <= t.log.dequeued;
    if wa.Take? {
      assert s.queue[..1][0] == s.queue[0];
      assert s.queue[0] in t.log.dequeued;
    }
  }

  lemma HoldsEffect(c: Config, s: State, w: Worker, wa: WorkerAction)
    requires WorkerEnabled(c, s, w, wa)
    ensures var e := WorkerEffect(c, s, w, wa);
      HoldsJob(e.worker) ==> if wa.Take? then e.worker.job == s.queue[0] else HoldsJob(w) && e.worker.job == w.job
  {}

  /** Some post has carried the document. */
  predicate Carried(s: State, d: Doc) { exists k :: 0 <= k < |s.log.posted| && d in s.log.posted[k] }

  /** A good answer to the job the worker holds has been received. */
  predicate Answered(w: Worker) {
    match w
    case Posted(_, _, x) => Classify(x).None?
    case Examining(_, _, x) => Classify(x).None?
    case Decided(_, _, round) => Classify(round.x).None?
    case Counting(_, _, _) => true
    case _ => false
  }

  /** The index holds only carried documents, each under its own id. */
  predicate IndexSound(s: State) {
    forall id :: id in s.index ==> s.index[id].id == id && Carried(s, s.index[id])
  }

  /** Every document of a job with a good answer is indexed with its generated value. */
  predicate IndexComplete(s: State) {
    && (forall i, d :: 0 <= i < |s.workers| && Answered(s.workers[i]) && d in s.workers[i].job ==> Indexed(s.index, d))
    && (forall k, d :: 0 <= k < |s.log.finished| && s.log.finished[k].fate.Succeeded? && d in s.log.finished[k].job ==>
          Indexed(s.index, d))
  }

  lemma IndexSoundStep(c: Config, s: State, a: Action)
    requires IndexSound(s) && Enabled(c, s, a)
    ensures IndexSound(Apply(c, s, a))
  {
    var t := Apply(c, s, a);
    assert s.log.posted <= t.log.posted;
    forall id | id in t.index
      ensures t.index[id].id == id && Carried(t, t.index[id])
    {
      if id in s.index && t.index[id] == s.index[id] {
        var k :| 0 <= k < |s.log.posted| && s.index[id] in s.log.posted[k];
        assert t.log.posted[k] == s.log.posted[k];
      }
    }
  }

  lemma AnsweredEffect(c: Config, s: State, w: Worker, wa: WorkerAction)
    requires Ledger.WorkerOk(c, w) && WorkerEnabled(c, s, w, wa)
    requires Answered(w) ==> forall d :: d in w.job ==> Indexed(s.index, d)
    ensures var e := WorkerEffect(c, s, w, wa);
      && (Answered(e.worker) ==> forall d :: d in e.worker.job ==> Indexed(s.index, d))
      && (e.done.Some? && e.done.value.fate.Succeeded? ==> forall d :: d in e.done.value.job ==> Indexed(s.index, d))
  {}

  /** A document that was generated, taken and then overwritten by id is overwritten by itself. */
  lemma OverwriteIsIdempotent(c: Config, s: State, d: Doc, e: Doc)
    requires Channel.Shape(c, s) && Identified(c, s.producer) && |s.producer.generated| < TWO_TO_64
    requires d in Flatten(s.log.dequeued) && e in Flatten(s.log.dequeued)
    ensures d.id == e.id ==> d == e
  {
    DequeuedAreGenerated(c, s);
    var g := s.producer.generated;
    if d.id == e.id {
      var i :| 0 <= i < |g| && g[i] == d;
      var j :| 0 <= j < |g| && g[j] == e;
      SameIdSameDoc(c, s.producer, i, j);
    }
  }

  lemma DequeuedAreGenerated(c: Config, s: State)
    requires Channel.Shape(c, s)
    ensures Flatten(s.log.dequeued) <= s.producer.generated
    ensures Flatten(s.producer.enqueued) == Flatten(s.log.dequeued) + Flatten(s.queue)
  {
    FlattenConcat(s.log.dequeued, s.queue);
  }

  ghost predicate Indices(c: Config, s: State) {
    && Identified(c, s.producer) && Taken(s) && IndexSound(s)
    && (|s.producer.generated| < TWO_TO_64 ==> IndexComplete(s))
  }

  lemma CompleteServer(c: Config, s: State, k: nat, d: Doc)
    requires Channel.Shape(c, s) && Indices(c, s) && Ledger.Tapes(c, s) && IndexComplete(s)
    requires |s.producer.generated| < TWO_TO_64 && FinishedTaken(s)
    requires Enabled(c, s, ServerApplies(k, d))
    ensures IndexComplete(Apply(c, s, ServerApplies(k, d)))
  {
    var t := Apply(c, s, ServerApplies(k, d));
    FlattenMember(s.log.dequeued, d);
    forall e | Indexed(s.index, e) && e in Flatten(s.log.dequeued)
      ensures Indexed(t.index, e)
    {
      OverwriteIsIdempotent(c, s, d, e);
    }
    forall i, e | 0 <= i < |s.workers| && Answered(s.workers[i]) && e in s.workers[i].job
      ensures Indexed(t.index, e)
    {
      FlattenMember(s.log.dequeued, e);
    }
    forall j, e | 0 <= j < |s.log.finished| && s.log.finished[j].fate.Succeeded? && e in s.log.finished[j].job
      ensures Indexed(t.index, e)
    {
      FlattenMember(s.log.dequeued, e);
    }
  }

  predicate FinishedTaken(s: State) {
    forall k :: 0 <= k < |s.log.finished| ==> s.log.finished[k].job in s.log.dequeued
  }

  lemma FinishedTakenStep(c: Config, s: State, a: Action)
    requires Taken(s) && FinishedTaken(s) && Enabled(c, s, a)
    ensures FinishedTaken(Apply(c, s, a))
  {
    if a.Work? {
      Ledger.HeldEffect(c, s, s.workers[a.i], a.wa);
      DoneHeld(c, s, s.workers[a.i], a.wa);
      assert s.log.dequeued <= Apply(c, s, a).log.dequeued;
    }
  }

  lemma DoneHeld(c: Config, s: State, w: Worker, wa: WorkerAction)
    requires WorkerEnabled(c, s, w, wa)
    ensures WorkerEffect(c, s, w, wa).done.Some? ==> HoldsJob(w) && WorkerEffect(c, s, w, wa).done.value.job == w.job
  {}

  lemma CompleteWork(c: Config, s: State, i: nat, wa: WorkerAction)
    requires Ledger.Tapes(c, s) && IndexComplete(s) && Enabled(c, s, Work(i, wa))
    ensures IndexComplete(Apply(c, s, Work(i, wa)))
  {
    AnsweredEffect(c, s, s.workers[i], wa);
  }

  lemma IndicesInit(c: Config)
    ensures Indices(c, Init(c)) && FinishedTaken(Init(c))
  {}

  lemma IndicesStep(c: Config, s: State, a: Action)
    requires c.Valid() && Channel.Shape(c, s) && Ledger.Tapes(c, s)
    requires Indices(c, s) && FinishedTaken(s) && Enabled(c, s, a)
    ensures Indices(c, Apply(c, s, a))
  {
    IdentifiedStep(c, s, a);
    TakenStep(c, s, a);
    IndexSoundStep(c, s, a);
    if |Apply(c, s, a).producer.generated| < TWO_TO_64 {
      match a
      case Work(i, wa) => CompleteWork(c, s, i, wa);
      case ServerApplies(k, d) => CompleteServer(c, s, k, d);
      case _ =>
    }
  }

  // ----- the counts -----

  lemma {:induction false} IndexedFit(docs: set<Doc>, index: map<string, Doc>)
    requires forall d :: d in docs ==> Indexed(index, d)
    ensures |docs| <= |index|
  {
    if docs != {} {
      var d :| d in docs;
      var smaller := index - {d.id};
      forall e | e in docs - {d}
        ensures Indexed(smaller, e)
      {
        assert Indexed(index, e);
      }
      IndexedFit(docs - {d}, smaller);
      assert smaller.Keys == index.Keys - {d.id};
    }
  }

  lemma {:induction false} KeysFit(ids: set<string>, docs: seq<Doc>)
    requires forall id :: id in ids ==> exists d :: d in docs && d.id == id
    ensures |ids| <= |docs|
  {
    if docs == [] {
      assert ids == {};
    } else {
      var n := |docs| - 1;
      forall id | id in ids - {docs[n].id}
        ensures exists d :: d in docs[..n] && d.id == id
      {
        var d :| d in docs && d.id == id;
        assert d in docs[..n];
      }
      KeysFit(ids - {docs[n].id}, docs[..n]);
    }
  }
}
