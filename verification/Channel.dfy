/** The producer side over whole runs: batching, the bounded channel, closing and dropping. */
module Channel {
  import opened Sums
  import opened Chunking
  import opened Stats
  import opened Pipeline

  /** The producer has done its final flush or drop, or will not need one. */
  predicate Flushed(pc: ProducerPc) {
    match pc
    case ReadDepth(flushed) => flushed
    case StoreDepth(_, flushed) => flushed
    case CountDrop | Closing | Closed => true
    case _ => false
  }

  predicate PcShape(c: Config, stop: bool, p: Producer) {
    match p.pc
    case AtSelect => |p.batch| <= c.batchSize && (|p.batch| == c.batchSize ==> stop)
    case Generating => |p.batch| < c.batchSize
    case CountDoc => 1 <= |p.batch| <= c.batchSize
    case Sending => |p.batch| == c.batchSize
    case ReadDepth(flushed) => p.batch == [] && (flushed ==> stop)
    case StoreDepth(depth, flushed) => p.batch == [] && depth <= c.Capacity() && (flushed ==> stop)
    case Flushing => 1 <= |p.batch| <= c.batchSize && stop
    case CountDrop | Closing | Closed => p.batch == [] && stop
  }

  function ButLast(jobs: seq<Job>): seq<Job> { if jobs == [] then [] else jobs[..|jobs| - 1] }

  /** Jobs are non-empty and full, except that the final flush may be partial. */
  predicate Sizes(c: Config, p: Producer) {
    && (forall k :: 0 <= k < |p.enqueued| ==> 1 <= |p.enqueued[k]| <= c.batchSize)
    && AllFull(if Flushed(p.pc) && p.dropped == [] then ButLast(p.enqueued) else p.enqueued, c.batchSize)
    && (p.dropped != [] ==> Flushed(p.pc) && p.batch == [])
    && (p.pc.CountDrop? ==> p.dropped != [])
    && |p.dropped| <= c.batchSize
    && p.closes == (if p.pc.Closed? then 1 else 0)
  }

  /** The generated documents that are in no job: still in the buffer, or dropped. */
  function Unsent(p: Producer): seq<Doc> { if p.dropped == [] then p.batch else p.dropped }

  /** Nothing generated is lost or reordered. */
  predicate Accounted(p: Producer) { p.generated == Flatten(p.enqueued) + Unsent(p) }

  /** Jobs leave the bounded channel in the order they entered it. */
  predicate Fifo(c: Config, s: State) {
    && |s.workers| == c.workers
    && |s.queue| <= c.Capacity()
    && s.producer.enqueued == s.log.dequeued + s.queue
  }

  predicate Shape(c: Config, s: State) {
    PcShape(c, s.stop, s.producer) && Sizes(c, s.producer) && Accounted(s.producer) && Fifo(c, s)
  }

  lemma ShapeInit(c: Config)
    requires c.Valid()
    ensures Shape(c, Init(c))
  {}

  lemma FifoStep(c: Config, s: State, a: Action)
    requires Fifo(c, s) && Enabled(c, s, a)
    ensures Fifo(c, Apply(c, s, a))
  {
    match a
    case Send | Flush =>
      assert s.log.dequeued + s.queue + [s.producer.batch] == s.log.dequeued + (s.queue + [s.producer.batch]);
    case Work(i, wa) =>
      if wa.Take? {
        assert s.log.dequeued + s.queue == (s.log.dequeued + s.queue[..1]) + s.queue[1..];
      }
    case _ =>
  }

  lemma PcStep(c: Config, s: State, a: Action)
    requires c.Valid() && PcShape(c, s.stop, s.producer) && |s.queue| <= c.Capacity() && Enabled(c, s, a)
    ensures PcShape(c, Apply(c, s, a).stop, Apply(c, s, a).producer)
  {}

  lemma EnqueuedSizes(c: Config, p: Producer, flushed: bool)
    requires Sizes(c, p) && p.pc == (if flushed then Flushing else Sending) && 1 <= |p.batch| <= c.batchSize
    requires !flushed ==> |p.batch| == c.batchSize
    ensures Sizes(c, p.(pc := ReadDepth(flushed), batch := [], enqueued := p.enqueued + [p.batch]))
  {
    assert ButLast(p.enqueued + [p.batch]) == p.enqueued;
  }

  lemma SizesStep(c: Config, s: State, a: Action)
    requires c.Valid() && PcShape(c, s.stop, s.producer) && Sizes(c, s.producer) && Enabled(c, s, a)
    ensures Sizes(c, Apply(c, s, a).producer)
  {
    match a
    case Send => EnqueuedSizes(c, s.producer, false);
    case Flush => EnqueuedSizes(c, s.producer, true);
    case _ =>
  }

  lemma EnqueuedAccounted(p: Producer, q: Producer)
    requires Accounted(p) && p.dropped == q.dropped == [] && q.batch == []
    requires q.enqueued == p.enqueued + [p.batch] && q.generated == p.generated
    ensures Accounted(q)
  {
    FlattenSnoc(p.enqueued, p.batch);
    assert Flatten(q.enqueued) + [] == Flatten(q.enqueued);
  }

  lemma GeneratedAccounted(p: Producer, q: Producer, d: Doc)
    requires Accounted(p) && p.dropped == q.dropped == []
    requires q.enqueued == p.enqueued && q.batch == p.batch + [d] && q.generated == p.generated + [d]
    ensures Accounted(q)
  {
    assert Flatten(p.enqueued) + p.batch + [d] == Flatten(p.enqueued) + (p.batch + [d]);
  }

  lemma AccountedStep(c: Config, s: State, a: Action)
    requires PcShape(c, s.stop, s.producer) && Sizes(c, s.producer) && Accounted(s.producer) && Enabled(c, s, a)
    ensures Accounted(Apply(c, s, a).producer)
  {
    var p, q := s.producer, Apply(c, s, a).producer;
    match a
    case Send | Flush => EnqueuedAccounted(p, q);
    case Generate(_, _) => GeneratedAccounted(p, q, q.generated[|p.generated|]);
    case _ =>
  }

  lemma ShapeStep(c: Config, s: State, a: Action)
    requires c.Valid() && Shape(c, s) && Enabled(c, s, a)
    ensures Shape(c, Apply(c, s, a))
  {
    FifoStep(c, s, a);
    PcStep(c, s, a);
    SizesStep(c, s, a);
    AccountedStep(c, s, a);
  }

  // ----- consequences in any reachable state -----

  /** What was enqueued, with the rest still in the buffer or dropped, is the pure chunking of what
      was generated: jobs are non-empty, and all but the very last are full. */
  lemma EnqueuedAreChunks(c: Config, s: State)
    requires c.Valid() && Shape(c, s)
    ensures s.producer.enqueued + Tail(Unsent(s.producer)) == Chunk(s.producer.generated, c.batchSize)
  {
    var p := s.producer;
    var e := p.enqueued;
    if Flushed(p.pc) && p.dropped == [] && e != [] {
      FlushedChunks(e, c.batchSize);
      assert Flatten(e) + [] == Flatten(e) && e + [] == e;
    } else {
      ChunksOfBatches(e, Unsent(p), c.batchSize);
    }
  }

  lemma FlushedChunks(e: seq<Job>, b: nat)
    requires b >= 1 && e != [] && AllFull(ButLast(e), b) && 1 <= |e[|e| - 1]| <= b
    ensures Chunk(Flatten(e), b) == e
  {
    var last := e[|e| - 1];
    ChunksOfBatches(ButLast(e), last, b);
    assert e == ButLast(e) + [last];
  }

  /** A batch is dropped only by a stopped producer that meets exactly 2 * workers queued jobs, and
      it is the first drop of the run. */
  lemma DropsOnlyWhenFull(c: Config, s: State, a: Action)
    requires c.Valid() && Shape(c, s) && Enabled(c, s, a)
    requires Apply(c, s, a).producer.dropped != s.producer.dropped
    ensures a.Drop? && s.stop && |s.queue| == 2 * c.workers && s.producer.dropped == []
    ensures 1 <= |Apply(c, s, a).producer.dropped| <= c.batchSize
  {}

  /** After a drop or a close, the producer puts no job on the channel and drops nothing more; the
      channel is closed at most once. */
  lemma NothingAfterDropOrClose(c: Config, s: State, a: Action)
    requires c.Valid() && Shape(c, s) && Enabled(c, s, a)
    requires s.producer.dropped != [] || s.producer.pc.Closed?
    ensures var t := Apply(c, s, a);
      && t.producer.enqueued == s.producer.enqueued && t.producer.dropped == s.producer.dropped
      && t.producer.generated == s.producer.generated && t.producer.closes <= 1
      && (s.producer.pc.Closed? ==> t.producer == s.producer && |t.queue| <= |s.queue|)
  {}
}
