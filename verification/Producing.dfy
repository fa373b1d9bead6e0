/** The producer loop on its real buffer: produce in app/internal/seeder/runner/worker.go. */
module Producing {
  import opened Sums
  import opened Chunking
  import opened Stats

  /** A job shares its document slice by reference. */
  datatype Job = Job(core: string, docs: array<Doc>, count: nat)

  /** What one iteration meets: whether the context is done at the top, the next document, which
      case of the second select wins, and whether the channel has room for a final flush. */
  datatype Tick = Tick(stopped: bool, doc: Doc, sendWins: bool, room: bool)

  /** Cancellation is monotone: once the second select saw it, so does the next iteration. */
  predicate Monotone(ticks: seq<Tick>) {
    forall i :: 0 <= i < |ticks| - 1 && !ticks[i].sendWins ==> ticks[i + 1].stopped
  }

  /** The documents generated before the first stop. */
  function Supplied(ticks: seq<Tick>): seq<Doc> {
    if ticks == [] || ticks[0].stopped then [] else [ticks[0].doc] + Supplied(ticks[1..])
  }

  predicate Stops(ticks: seq<Tick>) { exists i :: 0 <= i < |ticks| && ticks[i].stopped }

  lemma {:induction false} SuppliedUntil(ticks: seq<Tick>, docs: seq<Doc>)
    requires |docs| <= |ticks| && (|docs| < |ticks| ==> ticks[|docs|].stopped)
    requires forall k :: 0 <= k < |docs| ==> !ticks[k].stopped && docs[k] == ticks[k].doc
    ensures Supplied(ticks) == docs && (Stops(ticks) <==> |docs| < |ticks|)
  {
    if docs != [] {
      assert forall i :: 0 < i < |ticks| ==> ticks[i] == ticks[1..][i - 1];
      SuppliedUntil(ticks[1..], docs[1..]);
      assert docs == [docs[0]] + docs[1..];
    }
  }

  /** What of the generated documents is still in the buffer: the last chunk, unless it was full and
      its send won. */
  function Buffered(docs: seq<Doc>, b: nat, lastSendWon: bool): seq<Doc>
    requires b >= 1
  {
    var pieces := Chunk(docs, b);
    if pieces == [] then []
    else
      var last := pieces[|pieces| - 1];
      if |last| == b && lastSendWon then [] else last
  }

  /** The stop after these documents drops what is buffered exactly if the channel has no room. */
  predicate DropsExactly(ticks: seq<Tick>, docs: seq<Doc>, b: nat, dropped: seq<Doc>)
    requires b >= 1
  {
    var i := |docs|;
    && i < |ticks| && ticks[i].stopped
    && dropped == if ticks[i].room then [] else Buffered(docs, b, i > 0 && ticks[i - 1].sendWins)
  }

  lemma BufferedRest(batches: seq<seq<Doc>>, rest: seq<Doc>, b: nat, lastSendWon: bool)
    requires b >= 1 && AllFull(batches, b) && |rest| <= b
    requires |rest| == b ==> !lastSendWon
    requires rest == [] && batches != [] ==> lastSendWon
    ensures Buffered(Flatten(batches) + rest, b, lastSendWon) == rest
  {
    ChunksOfBatches(batches, rest, b);
  }

  class Producer {
    const core: string
    const batchSize: nat
    const batch: array<Doc>
    const stats: CoreStats
    var len: nat
    /** Every job ever put on the channel, oldest first. */
    var sent: seq<Job>
    var closed: bool
    /** What each sent job held when it was sent. */
    ghost var contents: seq<seq<Doc>>
    ghost var generated: seq<Doc>
    ghost var dropped: seq<Doc>

    ghost function Slices(): set<object>
      reads this
    {
      set k | 0 <= k < |sent| :: sent[k].docs
    }

    /** The buffer is shared with no job, and every sent job still holds what it was sent with. */
    ghost predicate Valid()
      reads this, stats, Slices()
    {
      && 1 <= batchSize == batch.Length && len <= batchSize
      && stats.Valid()
      && batch !in Slices()
      && |contents| == |sent|
      && (forall k :: 0 <= k < |sent| ==> sent[k].docs[..] == contents[k] && sent[k].count == |contents[k]|)
    }

    ghost function Rest(): seq<Doc>
      reads this, batch
      requires len <= batch.Length
    {
      batch[..len]
    }

    /** While the channel is open, the full batches sent and the buffer make up what was generated. */
    ghost predicate Batching()
      reads this, batch
    {
      && !closed && dropped == []
      && len <= batch.Length == batchSize
      && AllFull(contents, batchSize)
      && Flatten(contents) + Rest() == generated
    }

    constructor (core: string, batchSize: nat, stats: CoreStats, filler: Doc)
      requires 1 <= batchSize && stats.Valid()
      ensures Valid() && fresh(batch) && Batching() && len == 0 && generated == []
      ensures this.core == core && this.batchSize == batchSize && this.stats == stats && sent == []
    {
      this.core, this.batchSize, this.stats := core, batchSize, stats;
      batch := new Doc[batchSize](_ => filler);
      len, sent, closed, contents, generated, dropped := 0, [], false, [], [], [];
    }

    /** Sends a copy of the buffered documents, in a slice of its own. */
    method SendCopy()
      requires Valid()
      modifies this`sent, this`contents
      ensures Valid()
      ensures contents == old(contents) + [Rest()]
      ensures |sent| == old(|sent|) + 1 && old(sent) <= sent
      ensures fresh(sent[|sent| - 1].docs) && sent[|sent| - 1].core == core
    {
      var docs := new Doc[len](k requires 0 <= k < len <= batch.Length reads this, batch => batch[k]);
      assert docs[..] == Rest();
      sent := sent + [Job(core, docs, len)];
      contents := contents + [Rest()];
    }

    /** Puts one document in the buffer, where there is always room, and counts it. */
    method AddDoc(doc: Doc)
      requires Valid() && Batching() && len < batchSize
      modifies this`len, this`generated, batch, stats
      ensures Valid() && Batching() && len == old(len) + 1
      ensures generated == old(generated) + [doc]
      ensures stats.total == old(stats.total).AddGenerated(1)
    {
      batch[len] := doc;
      len := len + 1;
      generated := generated + [doc];
      stats.IncGeneratedDocs(1);
      assert Rest() == old(Rest()) + [doc];
    }

    /** The winning send of a full batch; the buffer is then filled again from its start. */
    method SendFull()
      requires Valid() && Batching() && len == batchSize
      modifies this`sent, this`contents, this`len
      ensures Valid() && Batching() && len == 0
      ensures old(sent) <= sent
    {
      FlattenSnoc(contents, Rest());
      SendCopy();
      len := 0;
    }

    /** The context is done: flush the partial batch if there is room, else drop it; then close. */
    method Finish(room: bool)
      requires Valid() && Batching()
      modifies this`sent, this`contents, this`closed, this`dropped, stats
      ensures Valid() && closed
      ensures contents == old(contents) + (if room then Tail(old(Rest())) else [])
      ensures dropped == if room then [] else old(Rest())
      ensures contents + Tail(dropped) == Chunk(generated, batchSize)
      ensures stats.total == if dropped == [] then old(stats.total) else old(stats.total).AddDropped()
      ensures old(sent) <= sent
    {
      ghost var rest := Rest();
      ChunksOfBatches(contents, rest, batchSize);
      if len > 0 {
        if room {
          SendCopy();
        } else {
          dropped := rest;
          stats.IncDroppedBatch();
        }
      }
      closed := true;
    }

    /** After i iterations that met no stop: the buffer is full only after a lost send, and empty only
        at the start or after a send. */
    ghost predicate After(ticks: seq<Tick>, i: nat)
      reads this
    {
      && i <= |ticks| && |generated| == i
      && (forall k :: 0 <= k < i ==> !ticks[k].stopped && generated[k] == ticks[k].doc)
      && (len == batchSize ==> i > 0 && !ticks[i - 1].sendWins)
      && (len == 0 ==> i == 0 || ticks[i - 1].sendWins)
    }

    /** One iteration under a live context: append, and send the batch once it is full. */
    method Iterate(ticks: seq<Tick>, ghost i: nat, tick: Tick)
      requires Valid() && Batching() && len < batchSize
      requires After(ticks, i) && i < |ticks| && tick == ticks[i] && !tick.stopped
      modifies this`len, this`generated, this`sent, this`contents, batch, stats
      ensures Valid() && Batching() && After(ticks, i + 1)
      ensures stats.total == old(stats.total).AddGenerated(1)
      ensures old(sent) <= sent
    {
      AddDoc(tick.doc);
      if len < batchSize {
        return;
      }
      if tick.sendWins {
        SendFull();
      }
    }

    /** The iteration that meets the stop. */
    method StopAt(ticks: seq<Tick>, i: nat)
      requires Valid() && Batching() && After(ticks, i) && i < |ticks| && ticks[i].stopped
      modifies this`sent, this`contents, this`closed, this`dropped, stats
      ensures Valid() && closed
      ensures DropsExactly(ticks, generated, batchSize, dropped)
      ensures contents + Tail(dropped) == Chunk(generated, batchSize)
      ensures stats.total == if dropped == [] then old(stats.total) else old(stats.total).AddDropped()
      ensures old(sent) <= sent
    {
      BufferedRest(contents, Rest(), batchSize, i > 0 && ticks[i - 1].sendWins);
      Finish(ticks[i].room);
    }

    /** The whole loop over the iterations it meets. Sent jobs keep their documents although the
        buffer is reused, and what was sent is the pure chunking of what was generated; only what was
        buffered at the stop is missing, and exactly if the stop found a channel without room. */
    method Produce(ticks: seq<Tick>)
      requires Valid() && Batching() && len == 0 && generated == [] && Monotone(ticks)
      modifies this, batch, stats
      ensures Valid() && closed == Stops(ticks)
      ensures generated == Supplied(ticks)
      ensures contents + Tail(if closed then dropped else Rest()) == Chunk(generated, batchSize)
      ensures stats.total ==
        var t := old(stats.total).AddGenerated(|generated|); if dropped == [] then t else t.AddDropped()
      ensures closed ==> DropsExactly(ticks, generated, batchSize, dropped)
      ensures !closed ==> Batching()
      ensures old(sent) <= sent
    {
      for i := 0 to |ticks|
        invariant Valid() && Batching() && After(ticks, i)
        invariant stats.total == old(stats.total).AddGenerated(i)
        invariant old(sent) <= sent
      {
        if ticks[i].stopped {
          SuppliedUntil(ticks, generated);
          StopAt(ticks, i);
          return;
        }
        Iterate(ticks, i, ticks[i]);
      }
      SuppliedUntil(ticks, generated);
      ChunksOfBatches(contents, Rest(), batchSize);
    }
  }
}
