/** One core's pipeline as a transition system: the producer, the bounded channel, the workers with
    their retry loops, the counters and gauges they touch, and the index of the server they post to.
    Every atomic addition, channel operation, select choice and context read of
    app/internal/seeder/runner/worker.go is a step of its own; steps of different goroutines
    interleave freely. */
module Pipeline {
  import opened Options
  import opened Chunking
  import opened SolrClient
  import opened Stats
  import opened Telemetry
  import opened Retry
  import Ids

  /** A job in flight: its own copy of the documents. */
  type Job = seq<Doc>

  /** The settings one core runs with; durations are nanoseconds. */
  datatype Config = Config(
    prefix: string, workers: nat, batchSize: nat, attempts: nat,
    workerSleep: int, requestTimeout: int, shutdownTimeout: int,
    initialBackoff: int, maxBackoff: int, jitter: real, telemetry: bool)
  {
    function Capacity(): nat { 2 * workers }

    /** The numeric part of validate; the source also caps the batch size at 100. */
    predicate Valid() {
      && workers >= 1 && batchSize >= 1 && attempts >= 1
      && workerSleep >= 0 && requestTimeout > 0 && shutdownTimeout >= requestTimeout
      && 0 < initialBackoff <= maxBackoff && 0.0 <= jitter <= 1.0
    }
  }

  /** Where the producer is. The flag of the gauge states tells a final flush from a regular send. */
  datatype ProducerPc =
    | AtSelect | Generating | CountDoc | Sending
    | ReadDepth(flushed: bool) | StoreDepth(depth: nat, flushed: bool)
    | Flushing | CountDrop | Closing | Closed

  /** Where a worker is, with the job it holds and the finished rounds of its retry loop. */
  datatype Worker =
    | Starting
    | Idle
    | Took(job: Job)
    | Reporting(job: Job, depth: nat)
    | Ready(job: Job, tape: seq<Round>)
    | Posting(job: Job, tape: seq<Round>)
    | Posted(job: Job, tape: seq<Round>, x: Exchange)
    | Examining(job: Job, tape: seq<Round>, x: Exchange)
    | Decided(job: Job, tape: seq<Round>, round: Round)
    | Counting(job: Job, tape: seq<Round>, round: Round)
    | Waiting(job: Job, tape: seq<Round>, round: Round)
    | Resting
    | Exiting
    | Exited

  datatype Finished = Finished(job: Job, tape: seq<Round>, fate: Fate)

  /** The producer with its buffer, and what it did so far: the documents it generated, the jobs it
      enqueued, the batch it dropped and how often it closed the channel. The program keeps no such
      history. */
  datatype Producer = Producer(
    pc: ProducerPc, batch: seq<Doc>,
    generated: seq<Doc>, enqueued: seq<Job>, dropped: seq<Doc>, closes: nat)

  /** What the workers did so far: the jobs they took and began to post, the posts that returned, and
      the jobs they finished. */
  datatype Log = Log(dequeued: seq<Job>, posted: seq<Job>, posts: nat, finished: seq<Finished>)

  datatype State = State(
    stop: bool, forced: bool,
    producer: Producer, queue: seq<Job>, workers: seq<Worker>,
    counters: Counters, gauges: Gauges, index: map<string, Doc>, log: Log)

  function Init(c: Config): State {
    State(false, false, Producer(AtSelect, [], [], [], [], 0), [], seq(c.workers, _ => Starting),
          ZERO, Gauges(0, 0, 0), map[], Log([], [], 0, []))
  }

  datatype WorkerAction =
    | Start | Quit | Take | SeeClosed | WorkerReadDepth | WorkerStoreDepth
    | BeginPost | EndPost(x: Exchange) | FinishRequest | Examine | Conclude | CountDocs
    | TimerFires | CutWait | WakeUp | Exit

  datatype Action =
    | SelectTop | Generate(clock: int, body: int) | CountGenerated
    | Send | AbandonSend | ReadQueueDepth | StoreQueueDepth
    | Flush | Drop | CountDropped | Close
    | Work(i: nat, wa: WorkerAction)
    | ServerApplies(k: nat, d: Doc)
    | Stop | Force

  /** The document is indexed with the value it was generated with. */
  predicate Indexed(index: map<string, Doc>, d: Doc) { d.id in index && index[d.id] == d }

  predicate WorkerEnabled(c: Config, s: State, w: Worker, wa: WorkerAction) {
    match wa
    case Start => w.Starting?
    case Quit => s.forced && (w.Idle? || w.Resting?)
    case Take => w.Idle? && s.queue != []
    case SeeClosed => w.Idle? && s.queue == [] && s.producer.pc.Closed?
    case WorkerReadDepth => w.Took?
    case WorkerStoreDepth => w.Reporting?
    case BeginPost => w.Ready?
    // Only a forced shutdown cancels a post, and a good answer means the server applied every document.
    case EndPost(x) =>
      && w.Posting?
      && (MentionsCancel(x) ==> s.forced)
      && (Classify(x).None? ==> forall d :: d in w.job ==> Indexed(s.index, d))
    case FinishRequest => w.Posted?
    case Examine => w.Examining?
    case Conclude => w.Decided?
    case CountDocs => w.Counting?
    case TimerFires => w.Waiting?
    case CutWait => w.Waiting? && s.forced
    case WakeUp => w.Resting?
    case Exit => w.Exiting?
  }

  predicate Enabled(c: Config, s: State, a: Action) {
    match a
    case SelectTop => s.producer.pc.AtSelect?
    case Generate(_, _) => s.producer.pc.Generating?
    case CountGenerated => s.producer.pc.CountDoc?
    case Send => s.producer.pc.Sending? && |s.queue| < c.Capacity()
    case AbandonSend => s.producer.pc.Sending? && s.stop
    case ReadQueueDepth => s.producer.pc.ReadDepth?
    case StoreQueueDepth => s.producer.pc.StoreDepth?
    case Flush => s.producer.pc.Flushing? && |s.queue| < c.Capacity()
    case Drop => s.producer.pc.Flushing? && !(|s.queue| < c.Capacity())
    case CountDropped => s.producer.pc.CountDrop?
    case Close => s.producer.pc.Closing?
    case Work(i, wa) => i < |s.workers| && WorkerEnabled(c, s, s.workers[i], wa)
    // The server may apply any document of a batch it was posted, at any later time.
    case ServerApplies(k, d) => k < |s.log.posted| && d in s.log.posted[k]
    case Stop => !s.stop
    case Force => !s.forced
  }

  /** A gauge update takes effect only with telemetry enabled. */
  function Tel(c: Config, before: Gauges, after: Gauges): Gauges { if c.telemetry then after else before }

  /** The worker after a job: it rests only if a sleep is configured. */
  function AfterJob(c: Config): Worker { if c.workerSleep > 0 then Resting else Idle }

  predicate HoldsJob(w: Worker) {
    !(w.Starting? || w.Idle? || w.Resting? || w.Exiting? || w.Exited?)
  }

  /** What one worker step does to its worker, the counters and the gauges, and the job it ends. */
  datatype Effect = Effect(worker: Worker, counters: Counters, gauges: Gauges, done: Option<Finished>)

  function WorkerEffect(c: Config, s: State, w: Worker, wa: WorkerAction): Effect
    requires WorkerEnabled(c, s, w, wa)
  {
    var k, g := s.counters, s.gauges;
    match wa
    case Start => Effect(Idle, k, Tel(c, g, g.AddActive(1)), None)
    case Quit => Effect(Exiting, k, g, None)
    case Take => Effect(Took(s.queue[0]), k, g, None)
    case SeeClosed => Effect(Exiting, k, g, None)
    case WorkerReadDepth => Effect(Reporting(w.job, |s.queue|), k, g, None)
    case WorkerStoreDepth => Effect(Ready(w.job, []), k, Tel(c, g, g.SetDepth(w.depth)), None)
    case BeginPost => Effect(Posting(w.job, w.tape), k, Tel(c, g, g.AddInFlight(1)), None)
    case EndPost(x) => Effect(Posted(w.job, w.tape, x), k, g, None)
    case FinishRequest => Effect(Examining(w.job, w.tape, w.x), k, Tel(c, g, g.AddInFlight(-1)), None)
    case Examine => Effect(Decided(w.job, w.tape, Round(w.x, s.forced, false)), k, g, None)
    case Conclude =>
      (match Decide(c.attempts, |w.tape| + 1, w.round.x, w.round.seen)
       case Succeed => Effect(Counting(w.job, w.tape, w.round), k.AddRequest(), g, None)
       case Cancel => Effect(AfterJob(c), k, g, Some(Finished(w.job, w.tape + [w.round], CanceledAtPost)))
       case Fail(kind) =>
         Effect(AfterJob(c), k.AddFailure(), g, Some(Finished(w.job, w.tape + [w.round], Failed(kind))))
       case TryAgain => Effect(Waiting(w.job, w.tape, w.round), k.AddRetries(1), g, None))
    case CountDocs =>
      Effect(AfterJob(c), k.AddDocs(|w.job|), g, Some(Finished(w.job, w.tape + [w.round], Succeeded)))
    case TimerFires => Effect(Ready(w.job, w.tape + [w.round]), k, g, None)
    case CutWait =>
      Effect(AfterJob(c), k, g, Some(Finished(w.job, w.tape + [w.round.(cut := true)], CanceledInBackoff)))
    case WakeUp => Effect(Idle, k, g, None)
    case Exit => Effect(Exited, k, Tel(c, g, g.AddActive(-1)), None)
  }

  /** What the log records of a worker step. */
  function Recorded(log: Log, w: Worker, wa: WorkerAction, taken: seq<Job>, done: Option<Finished>): Log
    requires wa.BeginPost? ==> HoldsJob(w)
  {
    log.(dequeued := if wa.Take? then log.dequeued + taken else log.dequeued,
         posted := if wa.BeginPost? then log.posted + [w.job] else log.posted,
         posts := if wa.EndPost? then log.posts + 1 else log.posts,
         finished := if done.Some? then log.finished + [done.value] else log.finished)
  }

  function ApplyWorker(c: Config, s: State, i: nat, wa: WorkerAction): State
    requires i < |s.workers| && WorkerEnabled(c, s, s.workers[i], wa)
  {
    var w := s.workers[i];
    var e := WorkerEffect(c, s, w, wa);
    s.(workers := s.workers[i := e.worker], counters := e.counters, gauges := e.gauges,
       queue := if wa.Take? then s.queue[1..] else s.queue,
       log := Recorded(s.log, w, wa, if wa.Take? then s.queue[..1] else [], e.done))
  }

  /** Puts the batch on the channel and empties it. */
  function Enqueue(s: State, flushed: bool): State {
    var p := s.producer;
    s.(producer := p.(pc := ReadDepth(flushed), batch := [], enqueued := p.enqueued + [p.batch]),
       queue := s.queue + [p.batch])
  }

  function Apply(c: Config, s: State, a: Action): State
    requires Enabled(c, s, a)
  {
    var p := s.producer;
    match a
    case SelectTop =>
      s.(producer := p.(pc := if !s.stop then Generating else if p.batch == [] then Closing else Flushing))
    case Generate(clock, body) =>
      var d := Doc(Ids.Id(c.prefix, clock, Wrap(|p.generated| + 1)), body);
      s.(producer := p.(pc := CountDoc, batch := p.batch + [d], generated := p.generated + [d]))
    case CountGenerated =>
      s.(producer := p.(pc := if |p.batch| < c.batchSize then AtSelect else Sending),
         counters := s.counters.AddGenerated(1))
    case Send => Enqueue(s, false)
    case AbandonSend => s.(producer := p.(pc := AtSelect))
    case ReadQueueDepth => s.(producer := p.(pc := StoreDepth(|s.queue|, p.pc.flushed)))
    case StoreQueueDepth =>
      s.(producer := p.(pc := if p.pc.flushed then Closing else AtSelect),
         gauges := Tel(c, s.gauges, s.gauges.SetDepth(p.pc.depth)))
    case Flush => Enqueue(s, true)
    case Drop => s.(producer := p.(pc := CountDrop, batch := [], dropped := p.batch))
    case CountDropped => s.(producer := p.(pc := Closing), counters := s.counters.AddDropped())
    case Close => s.(producer := p.(pc := Closed, closes := p.closes + 1))
    case Work(i, wa) => ApplyWorker(c, s, i, wa)
    case ServerApplies(k, d) => s.(index := s.index[d.id := d])
    case Stop => s.(stop := true)
    case Force => s.(forced := true)
  }

  /** A run: states and the actions between them. */
  predicate IsRun(c: Config, states: seq<State>, actions: seq<Action>) {
    && |states| == |actions| + 1
    && states[0] == Init(c)
    && forall k :: 0 <= k < |actions| ==>
         Enabled(c, states[k], actions[k]) && states[k + 1] == Apply(c, states[k], actions[k])
  }
}
