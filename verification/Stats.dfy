/** Per-core counters: app/internal/seeder/stats/stats.go. */
module Stats {

  /** The six totals, as unbounded numbers. */
  datatype Counters = Counters(
    generatedDocs: nat,
    successfulRequests: nat,
    successfulDocs: nat,
    retryAttempts: nat,
    terminalFailures: nat,
    droppedBatches: nat)
  {
    function AddGenerated(count: nat): Counters { this.(generatedDocs := generatedDocs + count) }
    function AddRequest(): Counters { this.(successfulRequests := successfulRequests + 1) }
    function AddDocs(count: nat): Counters { this.(successfulDocs := successfulDocs + count) }
    function AddRetries(count: nat): Counters { this.(retryAttempts := retryAttempts + count) }
    function AddFailure(): Counters { this.(terminalFailures := terminalFailures + 1) }
    function AddDropped(): Counters { this.(droppedBatches := droppedBatches + 1) }

    /** What six uint64 cells that took the same additions hold. */
    function Wrapped(): Counters {
      Counters(Wrap(generatedDocs), Wrap(successfulRequests), Wrap(successfulDocs),
               Wrap(retryAttempts), Wrap(terminalFailures), Wrap(droppedBatches))
    }
  }

  const ZERO := Counters(0, 0, 0, 0, 0, 0)

  const TWO_TO_64: nat := 0x1_0000_0000_0000_0000

  function Wrap(n: int): (w: nat)
    ensures w < TWO_TO_64
    ensures 0 <= n < TWO_TO_64 ==> w == n
  {
    n % TWO_TO_64
  }

  /** Each cell holds its own total modulo 2^64, so that below 2^64 the cells are the totals. */
  lemma WrappedExactly(t: Counters)
    ensures var w := t.Wrapped();
      && w.generatedDocs == Wrap(t.generatedDocs)
      && w.successfulRequests == Wrap(t.successfulRequests) && w.successfulDocs == Wrap(t.successfulDocs)
      && w.retryAttempts == Wrap(t.retryAttempts)
      && w.terminalFailures == Wrap(t.terminalFailures) && w.droppedBatches == Wrap(t.droppedBatches)
    ensures t.generatedDocs < TWO_TO_64 && t.successfulRequests < TWO_TO_64 && t.successfulDocs < TWO_TO_64
      && t.retryAttempts < TWO_TO_64 && t.terminalFailures < TWO_TO_64 && t.droppedBatches < TWO_TO_64
      ==> t.Wrapped() == t
  {}

  lemma WrapSum(n: int, k: int)
    ensures Wrap(Wrap(n) + k) == Wrap(n + k)
  {
    var q := n / TWO_TO_64;
    assert n == q * TWO_TO_64 + Wrap(n);
    assert n + k == q * TWO_TO_64 + (Wrap(n) + k);
    ModShift(Wrap(n) + k, q);
  }

  lemma ModShift(x: int, q: int)
    ensures (q * TWO_TO_64 + x) % TWO_TO_64 == x % TWO_TO_64
  {
    var a, r := x / TWO_TO_64, x % TWO_TO_64;
    assert q * TWO_TO_64 + x == (q + a) * TWO_TO_64 + r;
    var y := q * TWO_TO_64 + x;
    var b, t := y / TWO_TO_64, y % TWO_TO_64;
    assert (q + a - b) * TWO_TO_64 == t - r;
  }

  /** Six uint64 cells. The ghost total says what they would hold without wrap-around. */
  class CoreStats {
    var generatedDocs: nat
    var successfulRequests: nat
    var successfulDocs: nat
    var retryAttempts: nat
    var terminalFailures: nat
    var droppedBatches: nat
    ghost var total: Counters

    /** The six cells. */
    function Cells(): (c: Counters)
      reads this
      ensures c.generatedDocs == generatedDocs && c.successfulRequests == successfulRequests
      ensures c.successfulDocs == successfulDocs && c.retryAttempts == retryAttempts
      ensures c.terminalFailures == terminalFailures && c.droppedBatches == droppedBatches
    {
      Counters(generatedDocs, successfulRequests, successfulDocs, retryAttempts, terminalFailures, droppedBatches)
    }

    ghost predicate Valid()
      reads this
    {
      Cells() == total.Wrapped()
    }

    constructor ()
      ensures Valid() && total == ZERO
    {
      generatedDocs, successfulRequests, successfulDocs := 0, 0, 0;
      retryAttempts, terminalFailures, droppedBatches := 0, 0, 0;
      total := ZERO;
    }

    method IncGeneratedDocs(count: nat)
      requires Valid()
      modifies this
      ensures Valid() && total == old(total).AddGenerated(count)
      ensures Cells() == old(Cells()).(generatedDocs := Wrap(old(generatedDocs) + count))
    {
      WrapSum(total.generatedDocs, count);
      generatedDocs := Wrap(generatedDocs + count);
      total := total.AddGenerated(count);
    }

    method IncSuccessfulRequest(docCount: nat)
      requires Valid()
      modifies this
      ensures Valid() && total == old(total).AddRequest().AddDocs(docCount)
      ensures Cells() == old(Cells()).(successfulRequests := Wrap(old(successfulRequests) + 1),
                                       successfulDocs := Wrap(old(successfulDocs) + docCount))
    {
      WrapSum(total.successfulRequests, 1);
      WrapSum(total.successfulDocs, docCount);
      successfulRequests := Wrap(successfulRequests + 1);
      successfulDocs := Wrap(successfulDocs + docCount);
      total := total.AddRequest().AddDocs(docCount);
    }

    method IncRetryAttempt()
      requires Valid()
      modifies this
      ensures Valid() && total == old(total).AddRetries(1)
      ensures Cells() == old(Cells()).(retryAttempts := Wrap(old(retryAttempts) + 1))
    {
      WrapSum(total.retryAttempts, 1);
      retryAttempts := Wrap(retryAttempts + 1);
      total := total.AddRetries(1);
    }

    method IncTerminalFailure()
      requires Valid()
      modifies this
      ensures Valid() && total == old(total).AddFailure()
      ensures Cells() == old(Cells()).(terminalFailures := Wrap(old(terminalFailures) + 1))
    {
      WrapSum(total.terminalFailures, 1);
      terminalFailures := Wrap(terminalFailures + 1);
      total := total.AddFailure();
    }

    method IncDroppedBatch()
      requires Valid()
      modifies this
      ensures Valid() && total == old(total).AddDropped()
      ensures Cells() == old(Cells()).(droppedBatches := Wrap(old(droppedBatches) + 1))
    {
      WrapSum(total.droppedBatches, 1);
      droppedBatches := Wrap(droppedBatches + 1);
      total := total.AddDropped();
    }

    /** Undisturbed, a snapshot is the six cells, which are the totals modulo 2^64. */
    method Snapshot() returns (s: Counters)
      requires Valid()
      ensures s == total.Wrapped()
      ensures s.generatedDocs == generatedDocs && s.successfulRequests == successfulRequests
      ensures s.successfulDocs == successfulDocs && s.retryAttempts == retryAttempts
      ensures s.terminalFailures == terminalFailures && s.droppedBatches == droppedBatches
    {
      s := Counters(generatedDocs, successfulRequests, successfulDocs, retryAttempts, terminalFailures, droppedBatches);
    }
  }
}
