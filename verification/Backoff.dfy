/** Retry backoff: app/internal/seeder/retry/backoff.go. Durations are whole nanoseconds;
    reals stand in for float64. */
module Backoff {

  function Pow2(n: nat): (p: nat)
    ensures p >= 1
  {
    if n == 0 then 1 else 2 * Pow2(n - 1)
  }

  /** The capped exponential wait before jitter. */
  function Base(attempt: int, initial: int, cap: int): int {
    var raw := initial * Pow2(if attempt < 1 then 0 else attempt - 1);
    if raw > cap then cap else raw
  }

  /** The factor that one draw of rand.Float64 gives. */
  function Multiplier(jitter: real, draw: real): real {
    if jitter > 0.0 then 1.0 + (draw * 2.0 * jitter - jitter) else 1.0
  }

  /** A duration times a factor. */
  function Scaled(base: int, factor: real): real { base as real * factor }

  /** What Duration returns for one draw: scaled, clamped at zero, truncated. */
  function Jittered(attempt: int, initial: int, cap: int, jitter: real, draw: real): int {
    var scaled := Scaled(Base(attempt, initial, cap), Multiplier(jitter, draw));
    if scaled < 0.0 then 0 else scaled.Floor
  }

  method Duration(attempt: int, initial: int, cap: int, jitter: real, draw: real) returns (d: int)
    ensures d == Jittered(attempt, initial, cap, jitter, draw)
  {
    var n := attempt;
    if n < 1 {
      n := 1;
    }
    var backoff := (initial * Pow2(n - 1)) as real;
    if backoff > cap as real {
      backoff := cap as real;
    }
    if jitter > 0.0 {
      var multiplier := 1.0 + ((draw * 2.0 * jitter) - jitter);
      backoff := backoff * multiplier;
    }
    if backoff < 0.0 {
      backoff := 0.0;
    }
    d := backoff.Floor;
  }

  lemma ProductOrder(b: real, x: real, y: real)
    requires 0.0 <= b && x <= y
    ensures b * x <= b * y
  {}

  lemma FloorBand(x: real)
    ensures x - 1.0 < x.Floor as real <= x
  {}

  lemma ScaledBand(base: int, m: real, jitter: real)
    requires 0 <= base && 0.0 <= 1.0 - jitter <= m <= 1.0 + jitter
    ensures 0.0 <= Scaled(base, m)
    ensures Scaled(base, 1.0 - jitter) - 1.0 < Scaled(base, m).Floor as real <= Scaled(base, 1.0 + jitter)
  {
    ProductOrder(base as real, 0.0, m);
    ProductOrder(base as real, 1.0 - jitter, m);
    ProductOrder(base as real, m, 1.0 + jitter);
    FloorBand(Scaled(base, m));
  }

  lemma MultiplierBand(jitter: real, draw: real)
    requires 0.0 <= jitter <= 1.0 && 0.0 <= draw < 1.0
    ensures 0.0 <= 1.0 - jitter <= Multiplier(jitter, draw) <= 1.0 + jitter
  {
    if jitter > 0.0 {
      ProductOrder(2.0 * jitter, 0.0, draw);
      ProductOrder(2.0 * jitter, draw, 1.0);
      assert draw * 2.0 * jitter == (2.0 * jitter) * draw;
    }
  }

  lemma BasePositive(attempt: int, initial: int, cap: int)
    requires 0 < initial <= cap
    ensures 0 < Base(attempt, initial, cap) <= cap
  {
    var p := Pow2(if attempt < 1 then 0 else attempt - 1);
    assert initial * p >= initial * 1 by { assert p >= 1; }
  }

  /** For validated settings the negative clamp never fires, the wait is the scaled backoff in whole
      nanoseconds, and stays in the jitter band around the capped exponential. */
  lemma JitterBand(attempt: int, initial: int, cap: int, jitter: real, draw: real)
    requires 0 < initial <= cap && 0.0 <= jitter <= 1.0 && 0.0 <= draw < 1.0
    ensures var base, wait := Base(attempt, initial, cap), Jittered(attempt, initial, cap, jitter, draw);
      && 0 <= wait && wait as real <= Scaled(base, Multiplier(jitter, draw)) < (wait + 1) as real
      && Scaled(base, 1.0 - jitter) - 1.0 < wait as real <= Scaled(base, 1.0 + jitter)
  {
    BasePositive(attempt, initial, cap);
    MultiplierBand(jitter, draw);
    ScaledBand(Base(attempt, initial, cap), Multiplier(jitter, draw), jitter);
  }

  /** The factor runs straight through the band: it grows with the draw, 2 * jitter over the whole range,
      and opposite draws average to one. */
  lemma MultiplierIsLinear(jitter: real, d: real, e: real)
    requires 0.0 <= jitter
    ensures Multiplier(jitter, e) - Multiplier(jitter, d) == 2.0 * jitter * (e - d)
    ensures Multiplier(jitter, d) + Multiplier(jitter, 1.0 - d) == 2.0
    ensures Multiplier(jitter, 0.0) == 1.0 - jitter
  {
    if jitter > 0.0 {
      assert 2.0 * jitter * (e - d) == e * 2.0 * jitter - d * 2.0 * jitter;
      assert (1.0 - d) * 2.0 * jitter == 2.0 * jitter - d * 2.0 * jitter;
    }
  }

  /** The shortest wait: the lower end of the band, truncated. */
  function BestWait(attempt: int, initial: int, cap: int, jitter: real): int {
    Scaled(Base(attempt, initial, cap), 1.0 - jitter).Floor
  }

  lemma FloorOrder(x: real, y: real)
    requires x <= y
    ensures x.Floor <= y.Floor
  {}

  lemma ScaledOrder(base: int, x: real, y: real)
    requires 0 <= base && x <= y
    ensures Scaled(base, x) <= Scaled(base, y)
  {
    ProductOrder(base as real, x, y);
  }

  /** The draw zero gives the shortest wait, and no draw gives less. */
  lemma BestWaitBounds(attempt: int, initial: int, cap: int, jitter: real, draw: real)
    requires 0 < initial <= cap && 0.0 <= jitter <= 1.0 && 0.0 <= draw < 1.0
    ensures 0 <= BestWait(attempt, initial, cap, jitter) <= Jittered(attempt, initial, cap, jitter, draw)
    ensures Jittered(attempt, initial, cap, jitter, 0.0) == BestWait(attempt, initial, cap, jitter)
  {
    BasePositive(attempt, initial, cap);
    MultiplierBand(jitter, draw);
    MultiplierIsLinear(jitter, 0.0, draw);
    JitterBand(attempt, initial, cap, jitter, draw);
    JitterBand(attempt, initial, cap, jitter, 0.0);
    ScaledOrder(Base(attempt, initial, cap), 1.0 - jitter, Multiplier(jitter, draw));
    FloorOrder(Scaled(Base(attempt, initial, cap), 1.0 - jitter),
               Scaled(Base(attempt, initial, cap), Multiplier(jitter, draw)));
  }

  /** Attempt numbers below one count as the first. */
  lemma EarlyAttempts(attempt: int, initial: int, cap: int)
    requires 0 < initial <= cap && attempt <= 1
    ensures Base(attempt, initial, cap) == initial
  {
    assert Pow2(0) == 1;
  }

  /** The upper end of the jitter band. */
  function Longest(attempt: int, initial: int, cap: int, jitter: real): real {
    Scaled(Base(attempt, initial, cap), 1.0 + jitter)
  }

  /** The longest wait some draw does give: draws stay below one, so with jitter the next whole
      nanosecond below Longest. */
  function WorstWait(attempt: int, initial: int, cap: int, jitter: real): int {
    if jitter > 0.0 then Below(Longest(attempt, initial, cap, jitter)) else Base(attempt, initial, cap)
  }

  /** The largest integer less than x. */
  function Below(x: real): (n: int)
    ensures (n as real) < x <= (n + 1) as real
  {
    if x.Floor as real == x then x.Floor - 1 else x.Floor
  }

  /** The draw that gives the longest wait. */
  function WorstDraw(attempt: int, initial: int, cap: int, jitter: real): real
    requires 0 < initial <= cap
  {
    BasePositive(attempt, initial, cap);
    var share := WorstWait(attempt, initial, cap, jitter) as real / Base(attempt, initial, cap) as real;
    if jitter > 0.0 then (share - 1.0 + jitter) / (2.0 * jitter) else 0.0
  }

  lemma ScaledBelow(base: real, m: real, high: real)
    requires 0.0 < base && m < high
    ensures base * m < base * high
  {}

  lemma MultiplierBelow(jitter: real, draw: real)
    requires 0.0 < jitter && draw < 1.0
    ensures Multiplier(jitter, draw) < 1.0 + jitter
  {
    ScaledBelow(2.0 * jitter, draw, 1.0);
    assert draw * 2.0 * jitter == (2.0 * jitter) * draw;
  }

  lemma FloorBelow(base: int, m: real, high: real)
    requires 0 < base && m < high
    ensures Scaled(base, m).Floor <= Below(Scaled(base, high))
  {
    ScaledBelow(base as real, m, high);
  }

  /** No draw gives more than the longest wait. */
  lemma WorstWaitBounds(attempt: int, initial: int, cap: int, jitter: real, draw: real)
    requires 0 < initial <= cap && 0.0 <= jitter <= 1.0 && 0.0 <= draw < 1.0
    ensures 0 <= Jittered(attempt, initial, cap, jitter, draw) <= WorstWait(attempt, initial, cap, jitter)
  {
    JitterBand(attempt, initial, cap, jitter, draw);
    if jitter > 0.0 {
      MultiplierBelow(jitter, draw);
      BasePositive(attempt, initial, cap);
      FloorBelow(Base(attempt, initial, cap), Multiplier(jitter, draw), 1.0 + jitter);
    }
  }

  lemma ShareOf(worst: real, base: real, jitter: real)
    requires 0.0 < base <= worst < base * (1.0 + jitter) && 0.0 < jitter
    ensures var share := worst / base; base * share == worst && 1.0 <= share < 1.0 + jitter
  {
    var share := worst / base;
    assert base * share == worst;
    if share < 1.0 {
      ScaledBelow(base, share, 1.0);
    }
    if share >= 1.0 + jitter {
      ProductOrder(base, 1.0 + jitter, share);
    }
  }

  lemma DrawOf(share: real, jitter: real)
    requires 0.0 < jitter && 1.0 <= share < 1.0 + jitter
    ensures var draw := (share - 1.0 + jitter) / (2.0 * jitter);
      0.0 <= draw < 1.0 && Multiplier(jitter, draw) == share
  {
    var a, b := share - 1.0 + jitter, 2.0 * jitter;
    var draw := a / b;
    assert draw * b == a;
    assert draw * 2.0 * jitter == draw * b;
    if draw < 0.0 {
      ScaledBelow(b, draw, 0.0);
    }
    if draw >= 1.0 {
      ProductOrder(b, 1.0, draw);
    }
  }

  /** Some draw gives exactly the longest wait. */
  lemma WorstWaitOccurs(attempt: int, initial: int, cap: int, jitter: real)
    requires 0 < initial <= cap && 0.0 <= jitter <= 1.0
    ensures var draw := WorstDraw(attempt, initial, cap, jitter);
      0.0 <= draw < 1.0 && Jittered(attempt, initial, cap, jitter, draw) == WorstWait(attempt, initial, cap, jitter)
  {
    BasePositive(attempt, initial, cap);
    if jitter > 0.0 {
      var base, worst := Base(attempt, initial, cap), WorstWait(attempt, initial, cap, jitter);
      ScaledBelow(base as real, 1.0, 1.0 + jitter);
      assert base <= worst;
      ShareOf(worst as real, base as real, jitter);
      DrawOf(worst as real / base as real, jitter);
    }
  }

  /** The sum of the longest waits after attempts 1 to m. */
  function WorstSum(m: nat, initial: int, cap: int, jitter: real): int {
    if m == 0 then 0 else WorstSum(m - 1, initial, cap, jitter) + WorstWait(m, initial, cap, jitter)
  }

  /** Whole waits fall short of a real bound by at most a nanosecond each, and not at all without jitter. */
  predicate Short(worst: int, bound: real, m: nat, jitter: real) {
    worst as real <= bound <= (worst + m) as real && (jitter == 0.0 ==> worst as real == bound)
  }

  lemma ShortSum(w: int, b: real, m: nat, worst: int, bound: real, jitter: real)
    requires Short(w, b, m, jitter) && Short(worst, bound, 1, jitter)
    ensures Short(w + worst, b + bound, m + 1, jitter)
  {}

  /** The longest wait falls short of the jitter band's upper end by at most a nanosecond. */
  lemma WorstBelowLongest(attempt: int, initial: int, cap: int, jitter: real)
    requires 0 < initial <= cap && 0.0 <= jitter
    ensures 0 <= WorstWait(attempt, initial, cap, jitter)
    ensures Short(WorstWait(attempt, initial, cap, jitter), Longest(attempt, initial, cap, jitter), 1, jitter)
  {
    BasePositive(attempt, initial, cap);
    ProductOrder(Base(attempt, initial, cap) as real, 1.0, 1.0 + jitter);
  }

  lemma ScaledSum(a: int, b: int, f: real)
    ensures Scaled(a + b, f) == Scaled(a, f) + Scaled(b, f)
  {}

  /** Up to a nanosecond a wait, m longest waits take (1 + jitter) times the capped backoffs. */
  lemma {:induction false} WorstSumClosedForm(m: nat, initial: int, cap: int, jitter: real)
    requires 0 < initial <= cap && 0.0 <= jitter
    ensures Short(WorstSum(m, initial, cap, jitter), Scaled(BackoffSum(m, initial, cap), 1.0 + jitter), m, jitter)
  {
    if m > 0 {
      WorstSumClosedForm(m - 1, initial, cap, jitter);
      WorstBelowLongest(m, initial, cap, jitter);
      ScaledSum(BackoffSum(m - 1, initial, cap), Base(m, initial, cap), 1.0 + jitter);
      ShortSum(WorstSum(m - 1, initial, cap, jitter), Scaled(BackoffSum(m - 1, initial, cap), 1.0 + jitter), m - 1,
               WorstWait(m, initial, cap, jitter), Longest(m, initial, cap, jitter), jitter);
    }
  }

  /** Every wait after the attempt respects the cap. */
  ghost predicate Capped(attempt: int, initial: int, cap: int, jitter: real) {
    forall draw: real :: 0.0 <= draw < 1.0 ==> Jittered(attempt, initial, cap, jitter, draw) <= cap
  }

  /** Jitter comes after the cap, so the cap bounds the wait exactly when the jitter band ends at most
      one nanosecond above it. */
  lemma CapHoldsExactly(attempt: int, initial: int, cap: int, jitter: real)
    requires 0 < initial <= cap && 0.0 <= jitter <= 1.0
    ensures Capped(attempt, initial, cap, jitter) <==> Longest(attempt, initial, cap, jitter) <= (cap + 1) as real
  {
    BasePositive(attempt, initial, cap);
    WorstWaitOccurs(attempt, initial, cap, jitter);
    if Longest(attempt, initial, cap, jitter) <= (cap + 1) as real {
      forall draw: real | 0.0 <= draw < 1.0
        ensures Jittered(attempt, initial, cap, jitter, draw) <= cap
      {
        WorstWaitBounds(attempt, initial, cap, jitter, draw);
      }
    }
  }

  /** Over a whole retry loop the cap holds exactly when it holds for the last wait. */
  lemma CapHoldsThroughout(attempts: nat, initial: int, cap: int, jitter: real)
    requires 0 < initial <= cap && 0.0 <= jitter <= 1.0 && 2 <= attempts
    ensures (forall n :: 1 <= n < attempts ==> Capped(n, initial, cap, jitter))
      <==> Longest(attempts - 1, initial, cap, jitter) <= (cap + 1) as real
  {
    CapHoldsExactly(attempts - 1, initial, cap, jitter);
    forall n | 1 <= n < attempts && Capped(attempts - 1, initial, cap, jitter)
      ensures Capped(n, initial, cap, jitter)
    {
      CappedEarlier(n, attempts - 1, initial, cap, jitter);
    }
  }

  lemma CappedEarlier(m: nat, n: nat, initial: int, cap: int, jitter: real)
    requires 0 < initial <= cap && 0.0 <= jitter <= 1.0 && 1 <= m <= n && Capped(n, initial, cap, jitter)
    ensures Capped(m, initial, cap, jitter)
  {
    LongestMonotone(m, n, initial, cap, jitter);
    CapHoldsExactly(m, initial, cap, jitter);
    CapHoldsExactly(n, initial, cap, jitter);
  }

  lemma LongestMonotone(m: nat, n: nat, initial: int, cap: int, jitter: real)
    requires 0 < initial <= cap && 0.0 <= jitter && 1 <= m <= n
    ensures Longest(m, initial, cap, jitter) <= Longest(n, initial, cap, jitter)
  {
    BaseMonotone(m, n, initial, cap);
    ScaleOrder(1.0 + jitter, Base(m, initial, cap) as real, Base(n, initial, cap) as real);
  }

  lemma ScaleOrder(f: real, x: real, y: real)
    requires 0.0 <= f && x <= y
    ensures x * f <= y * f
  {}

  lemma {:induction false} BaseMonotone(m: nat, n: nat, initial: int, cap: int)
    requires 0 < initial <= cap && 1 <= m <= n
    ensures Base(m, initial, cap) <= Base(n, initial, cap)
  {
    if m < n {
      BaseMonotone(m, n - 1, initial, cap);
      BaseRecurrence(n - 1, initial, cap);
    }
  }

  /** An input beyond that condition: a wait half as long again as its cap. */
  lemma JitterExceedsCap()
    ensures Jittered(1, 100, 100, 1.0, 0.75) == 150
  {
    assert Pow2(0) == 1;
    assert Base(1, 100, 100) == 100;
    assert Multiplier(1.0, 0.75) == 1.5;
    assert 100 as real * 1.5 == 150.0;
  }

  /** The waits form a saturating doubling sequence. */
  lemma BaseRecurrence(attempt: int, initial: int, cap: int)
    requires 0 < initial <= cap && 1 <= attempt
    ensures Base(1, initial, cap) == initial
    ensures Base(attempt + 1, initial, cap)
         == if 2 * Base(attempt, initial, cap) > cap then cap else 2 * Base(attempt, initial, cap)
    ensures Base(attempt, initial, cap) <= Base(attempt + 1, initial, cap)
  {
    BasePositive(attempt, initial, cap);
    assert Pow2(attempt) == 2 * Pow2(attempt - 1);
    assert initial * Pow2(attempt) == 2 * (initial * Pow2(attempt - 1));
  }

  /** The sum of the first m capped waits. */
  function BackoffSum(m: nat, initial: int, cap: int): int {
    if m == 0 then 0 else BackoffSum(m - 1, initial, cap) + Base(m, initial, cap)
  }

  /** How many of the first m doublings stay within the cap. */
  function Unsaturated(m: nat, initial: int, cap: int): (s: nat)
    ensures s <= m
  {
    if m == 0 then 0
    else if initial * Pow2(m - 1) <= cap then m
    else Unsaturated(m - 1, initial, cap)
  }

  lemma {:induction false} UnsaturatedIsPrefix(m: nat, initial: int, cap: int, n: nat)
    requires 0 < initial <= cap && 1 <= n <= m
    ensures initial * Pow2(n - 1) <= cap <==> n <= Unsaturated(m, initial, cap)
    decreases m
  {
    if initial * Pow2(m - 1) <= cap {
      Pow2Monotone(n - 1, m - 1);
      assert initial * Pow2(n - 1) <= initial * Pow2(m - 1);
    } else if n < m {
      UnsaturatedIsPrefix(m - 1, initial, cap, n);
    }
  }

  lemma {:induction false} Pow2Monotone(a: nat, b: nat)
    requires a <= b
    ensures Pow2(a) <= Pow2(b)
  {
    if a < b {
      Pow2Monotone(a, b - 1);
    }
  }

  lemma GeometricStep(initial: int, p: int)
    ensures initial * (2 * p - 1) == initial * (p - 1) + initial * p
  {}

  lemma LinearStep(k: int, cap: int)
    ensures k * cap == (k - 1) * cap + cap
  {}

  /** The total backoff of m retries in closed form: geometric while unsaturated, linear after. */
  lemma {:induction false} BackoffSumClosedForm(m: nat, initial: int, cap: int)
    requires 0 < initial <= cap
    ensures var s := Unsaturated(m, initial, cap);
            BackoffSum(m, initial, cap) == initial * (Pow2(s) - 1) + (m - s) * cap
  {
    if m > 0 {
      BackoffSumClosedForm(m - 1, initial, cap);
      var s := Unsaturated(m - 1, initial, cap);
      if initial * Pow2(m - 1) <= cap {
        if m > 1 {
          UnsaturatedIsPrefix(m, initial, cap, m - 1);
        }
        assert s == m - 1;
        GeometricStep(initial, Pow2(m - 1));
      } else {
        LinearStep(m - s, cap);
      }
    }
  }

  /** Both simple bounds on the total backoff. */
  lemma {:induction false} BackoffSumBounds(m: nat, initial: int, cap: int)
    requires 0 < initial <= cap
    ensures BackoffSum(m, initial, cap) <= m * cap
    ensures BackoffSum(m, initial, cap) <= initial * (Pow2(m) - 1)
  {
    if m > 0 {
      BackoffSumBounds(m - 1, initial, cap);
      BasePositive(m, initial, cap);
      LinearStep(m, cap);
      GeometricStep(initial, Pow2(m - 1));
    }
  }
}
