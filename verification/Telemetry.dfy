/** Per-core gauges: the coreState part of app/internal/seeder/telemetry/telemetry.go. */
module Telemetry {

  datatype Gauges = Gauges(activeWorkers: int, inFlight: int, queueDepth: int) {
    function AddActive(delta: int): Gauges { this.(activeWorkers := activeWorkers + delta) }
    function AddInFlight(delta: int): Gauges { this.(inFlight := inFlight + delta) }
    function SetDepth(depth: int): Gauges { this.(queueDepth := depth) }
  }

  /** The three atomic cells. StartWorker and StartRequest return a closure that undoes the
      increment; here the closures are the methods FinishWorker and FinishRequest. The ghost history
      lists the values the cells went through, oldest first. */
  class CoreState {
    var activeWorkers: int
    var inFlight: int
    var queueDepth: int
    ghost var history: seq<Gauges>

    function Value(): (g: Gauges)
      reads this
      ensures g.activeWorkers == activeWorkers && g.inFlight == inFlight && g.queueDepth == queueDepth
    {
      Gauges(activeWorkers, inFlight, queueDepth)
    }

    constructor ()
      ensures activeWorkers == 0 && inFlight == 0 && queueDepth == 0 && history == []
    {
      activeWorkers, inFlight, queueDepth, history := 0, 0, 0, [];
    }

    method StartWorker()
      modifies this
      ensures activeWorkers == old(activeWorkers) + 1
      ensures inFlight == old(inFlight) && queueDepth == old(queueDepth)
      ensures history == old(history) + [Value()]
    {
      activeWorkers := activeWorkers + 1;
      history := history + [Value()];
    }

    method FinishWorker()
      modifies this
      ensures activeWorkers == old(activeWorkers) - 1
      ensures inFlight == old(inFlight) && queueDepth == old(queueDepth)
      ensures history == old(history) + [Value()]
    {
      activeWorkers := activeWorkers - 1;
      history := history + [Value()];
    }

    method StartRequest()
      modifies this
      ensures inFlight == old(inFlight) + 1
      ensures activeWorkers == old(activeWorkers) && queueDepth == old(queueDepth)
      ensures history == old(history) + [Value()]
    {
      inFlight := inFlight + 1;
      history := history + [Value()];
    }

    method FinishRequest()
      modifies this
      ensures inFlight == old(inFlight) - 1
      ensures activeWorkers == old(activeWorkers) && queueDepth == old(queueDepth)
      ensures history == old(history) + [Value()]
    {
      inFlight := inFlight - 1;
      history := history + [Value()];
    }

    method SetQueueDepth(depth: int)
      modifies this
      ensures queueDepth == depth
      ensures activeWorkers == old(activeWorkers) && inFlight == old(inFlight)
      ensures history == old(history) + [Value()]
    {
      queueDepth := depth;
      history := history + [Value()];
    }
  }
}
