/** updateBatchSize of pubsub/pubsub.go, over the reals: how many messages to ask for, from the rate at which
    messages are taken. */
module BatchSize {
  import opened Wrappers

  const DECAY := 0.5
  const MAX_GROWTH_FACTOR := 2.0
  const MAX_SHRINK_FACTOR := 0.75
  const MAX_BATCH_SIZE := 3000.0
  const DESIRED_QUEUE_SECONDS := 2.0
  const PREFETCH_RATIO := 0.5

  /** The receive options that matter here. */
  datatype BatchOptions = BatchOptions(maxBatchSize: int, maxHandlers: int)

  /** The running batch size, and the messages taken since a time in seconds, if one was noted. */
  datatype Rate = Rate(running: real, start: Option<real>, count: nat)

  predicate OneAtATime(opts: Option<BatchOptions>) {
    opts.Some? && opts.value.maxBatchSize == 1 && opts.value.maxHandlers == 1
  }

  function Min(a: real, b: real): real { if a < b then a else b }

  function Max(a: real, b: real): real { if a < b then b else a }

  function Abs(a: real): (r: real)
    ensures r >= 0.0
  {
    if a < 0.0 then -a else a
  }

  /** The smallest integer that is not below x. */
  function Ceil(x: real): (n: int)
    ensures n as real - 1.0 < x <= n as real
  {
    -((-x).Floor)
  }

  function Elapsed(start: real, now: real): (e: real)
    ensures e >= 0.1
  {
    Max(now - start, 0.1)
  }

  /** The messages that the queue should hold at the measured rate. */
  function Ideal(count: nat, elapsed: real): (i: real)
    requires elapsed > 0.0
    ensures i >= 0.0
  {
    DESIRED_QUEUE_SECONDS * (count as real / elapsed)
  }

  /** Moves the running size towards the ideal one, by a limited factor. */
  function Toward(running: real, ideal: real): real {
    var size := running * (1.0 - DECAY) + ideal * DECAY;
    if size > running * MAX_GROWTH_FACTOR then running * MAX_GROWTH_FACTOR
    else if size < running * MAX_SHRINK_FACTOR then running * MAX_SHRINK_FACTOR
    else size
  }

  function Measured(r: Rate, now: real): Rate {
    var running := if r.start == None then r.running
      else Toward(r.running, Ideal(r.count, Elapsed(r.start.value, now)));
    Rate(running, Some(now), 0)
  }

  function SizeOf(running: real): int {
    Ceil(Min(running, MAX_BATCH_SIZE))
  }

  /** The part of a subscription that measures throughput. */
  class Throughput {
    var runningBatchSize: real
    var throughputStart: Option<real>
    var throughputCount: nat

    ghost function State(): Rate
      reads this
    {
      Rate(runningBatchSize, throughputStart, throughputCount)
    }

    constructor ()
      ensures State() == Rate(1.0, None, 0)
    {
      runningBatchSize, throughputStart, throughputCount := 1.0, None, 0;
    }

    method UpdateBatchSize(opts: Option<BatchOptions>, now: real) returns (n: int)
      requires runningBatchSize > 0.0
      modifies this
      ensures 1 <= n <= 3000 && runningBatchSize > 0.0
      ensures OneAtATime(opts) ==> n == 1 && State() == old(State())
      ensures !OneAtATime(opts) ==> State() == Measured(old(State()), now) && n == SizeOf(runningBatchSize)
    {
      if opts.Some? && opts.value.maxBatchSize == 1 && opts.value.maxHandlers == 1 { return 1; }
      if throughputStart != None {
        var elapsed := Max(now - throughputStart.value, 0.1);
        var msgsPerSec := throughputCount as real / elapsed;
        var idealBatchSize := DESIRED_QUEUE_SECONDS * msgsPerSec;
        TowardBounds(runningBatchSize, idealBatchSize);
        var newBatchSize := runningBatchSize * (1.0 - DECAY) + idealBatchSize * DECAY;
        if newBatchSize > runningBatchSize * MAX_GROWTH_FACTOR {
          runningBatchSize := runningBatchSize * MAX_GROWTH_FACTOR;
        } else if newBatchSize < runningBatchSize * MAX_SHRINK_FACTOR {
          runningBatchSize := runningBatchSize * MAX_SHRINK_FACTOR;
        } else {
          runningBatchSize := newBatchSize;
        }
      }
      throughputStart, throughputCount := Some(now), 0;
      SizeBounds(runningBatchSize);
      n := SizeOf(runningBatchSize);
    }
  }

  lemma SizeBounds(running: real)
    requires running > 0.0
    ensures 1 <= SizeOf(running) <= 3000
  {
  }

  /** The running size changes by a factor between 0.75 and 2, so it stays positive. */
  lemma TowardBounds(running: real, ideal: real)
    requires running > 0.0
    ensures 0.75 * running <= Toward(running, ideal) <= 2.0 * running
    ensures Toward(running, ideal) > 0.0
  {
  }

  /** Measuring keeps the running size positive, and asks for at least one message and at most 3000. */
  lemma MeasuredBounds(r: Rate, now: real)
    requires r.running > 0.0
    ensures Measured(r, now).running > 0.0
    ensures 0.75 * r.running <= Measured(r, now).running <= 2.0 * r.running
    ensures 1 <= SizeOf(Measured(r, now).running) <= 3000
  {
    if r.start.Some? { TowardBounds(r.running, Ideal(r.count, Elapsed(r.start.value, now))); }
    SizeBounds(Measured(r, now).running);
  }

  /** The first measurement only notes the time. A later one goes half of the way to two seconds' worth of the
      messages taken since the last, but at most to the double and at least to three quarters; less than a tenth of
      a second counts as that. */
  lemma MeasuredMeans(r: Rate, now: real)
    requires r.running > 0.0
    ensures
      var m := Measured(r, now);
      m.start == Some(now) && m.count == 0
      && (r.start == None ==> m.running == r.running)
      && (r.start.Some? ==>
        var elapsed := if now - r.start.value < 0.1 then 0.1 else now - r.start.value;
        var middle := (r.running + 2.0 * r.count as real / elapsed) / 2.0;
        m.running == if middle > 2.0 * r.running then 2.0 * r.running
                     else if middle < 0.75 * r.running then 0.75 * r.running else middle)
  {
    if r.start.Some? {
      var elapsed := if now - r.start.value < 0.1 then 0.1 else now - r.start.value;
      Reassociated(r.count as real, elapsed);
      assert Elapsed(r.start.value, now) == elapsed;
      assert Ideal(r.count, elapsed) == 2.0 * r.count as real / elapsed;
    }
  }

  lemma Reassociated(c: real, e: real)
    requires e > 0.0
    ensures 2.0 * (c / e) == 2.0 * c / e
  {
  }

  /** What is asked for is the running size, rounded up, but at most 3000. */
  lemma SizeMeans(running: real)
    requires running > 0.0
    ensures if running >= 3000.0 then SizeOf(running) == 3000
            else running <= SizeOf(running) as real < running + 1.0
  {
  }

  /** The running size moves towards the ideal size and never past it. */
  lemma NoOvershoot(running: real, ideal: real)
    requires running > 0.0 && ideal > 0.0
    ensures running <= ideal ==> running <= Toward(running, ideal) <= ideal
    ensures running >= ideal ==> ideal <= Toward(running, ideal) <= running
    ensures running != ideal ==> Toward(running, ideal) != running
  {
  }

  // ---------------------------------------------------------------- convergence

  /** The running size after n measurements of the same ideal size. */
  function Iterate(running: real, ideal: real, n: nat): real {
    if n == 0 then running else Toward(Iterate(running, ideal, n - 1), ideal)
  }

  lemma {:induction false} SameSide(running: real, ideal: real, n: nat)
    requires running > 0.0 && ideal > 0.0
    ensures Iterate(running, ideal, n) > 0.0
    ensures running <= ideal ==> running <= Iterate(running, ideal, n) <= ideal
    ensures running >= ideal ==> ideal <= Iterate(running, ideal, n) <= running
  {
    if n > 0 {
      SameSide(running, ideal, n - 1);
      NoOvershoot(Iterate(running, ideal, n - 1), ideal);
    }
  }

  lemma {:induction false} IterateSum(running: real, ideal: real, m: nat, n: nat)
    ensures Iterate(running, ideal, m + n) == Iterate(Iterate(running, ideal, m), ideal, n)
  {
    if n > 0 { IterateSum(running, ideal, m, n - 1); }
  }

  lemma Times(a: real, b: real, c: real)
    requires a <= b && c >= 0.0
    ensures a * c <= b * c
  {
  }

  lemma FarBelow(r: real, ideal: real)
    requires r > 0.0 && 3.0 * r < ideal
    ensures Toward(r, ideal) == 2.0 * r
  {
  }

  lemma GrowsStep(r: real, ideal: real, n: real, running: real)
    requires r > 0.0 && ideal > 0.0 && running > 0.0 && n >= 1.0
    requires 3.0 * r >= ideal || r >= n * running
    ensures 3.0 * Toward(r, ideal) >= ideal || Toward(r, ideal) >= (n + 1.0) * running
  {
    hide Toward;
    if 3.0 * r < ideal {
      FarBelow(r, ideal);
      Doubled(r, n, running);
    } else {
      NoOvershoot(r, ideal);
    }
  }

  /** A small size at least doubles until it is a third of the ideal. */
  lemma {:induction false} Grows(running: real, ideal: real, n: nat)
    requires running > 0.0 && ideal > 0.0
    ensures 3.0 * Iterate(running, ideal, n) >= ideal || Iterate(running, ideal, n) >= (n as real + 1.0) * running
  {
    hide Toward;
    if n > 0 {
      Grows(running, ideal, n - 1);
      SameSide(running, ideal, n - 1);
      GrowsStep(Iterate(running, ideal, n - 1), ideal, n as real, running);
    }
  }

  lemma Doubled(r: real, n: real, running: real)
    requires r >= n * running && n >= 1.0 && running > 0.0
    ensures 2.0 * r >= (n + 1.0) * running
  {
    Times(1.0, n, running);
    assert (n + 1.0) * running == n * running + running;
  }

  /** From a third of the ideal on, every measurement takes away at least a quarter of the distance. */
  lemma QuarterLess(running: real, ideal: real)
    requires running > 0.0 && ideal > 0.0 && 3.0 * running >= ideal
    ensures Abs(Toward(running, ideal) - ideal) <= 0.75 * Abs(running - ideal)
  {
  }

  /** One more factor of three quarters makes up for one more third. */
  lemma OneMoreThird(e: real, d: real, m: real)
    requires 0.0 <= e <= 0.75 * d && d >= 0.0 && m >= 0.0
    ensures e * (1.0 + (m + 1.0) / 3.0) <= d * (1.0 + m / 3.0)
  {
    var x := 1.0 + (m + 1.0) / 3.0;
    Times(e, 0.75 * d, x);
    assert 0.75 * d * x == d * (0.75 * x);
    assert 0.75 * x <= 1.0 + m / 3.0;
    Times(0.75 * x, 1.0 + m / 3.0, d);
  }

  lemma {:induction false} Approaches(running: real, ideal: real, n: nat)
    requires running > 0.0 && ideal > 0.0 && 3.0 * running >= ideal
    ensures Abs(Iterate(running, ideal, n) - ideal) * (1.0 + n as real / 3.0) <= Abs(running - ideal)
  {
    hide Toward;
    if n > 0 {
      Approaches(running, ideal, n - 1);
      SameSide(running, ideal, n - 1);
      var r := Iterate(running, ideal, n - 1);
      QuarterLess(r, ideal);
      OneMoreThird(Abs(Toward(r, ideal) - ideal), Abs(r - ideal), (n - 1) as real);
    }
  }

  /** How many measurements are enough to come within a tolerance of the ideal. */
  function Enough(running: real, ideal: real, tolerance: real): int
    requires running > 0.0 && tolerance > 0.0
  {
    Ceil(ideal / running) + Ceil(3.0 * Abs(running - ideal) / tolerance)
  }

  lemma Divided(a: real, b: real, n: real)
    requires b > 0.0 && n >= a / b
    ensures n * b >= a
  {
    assert a / b * b == a;
    Times(a / b, n, b);
  }

  lemma GrownUp(running: real, ideal: real, n: nat)
    requires running > 0.0 && ideal > 0.0 && n as real >= ideal / running
    ensures Iterate(running, ideal, n) > 0.0 && 3.0 * Iterate(running, ideal, n) >= ideal
    ensures Abs(Iterate(running, ideal, n) - ideal) <= Abs(running - ideal)
  {
    hide Toward, Iterate;
    Grows(running, ideal, n);
    SameSide(running, ideal, n);
    Divided(ideal, running, n as real);
    AtLeastThird(running, ideal, n as real, Iterate(running, ideal, n));
  }

  lemma ComesNear(running: real, ideal: real, tolerance: real, d: real, n: nat)
    requires running > 0.0 && ideal > 0.0 && tolerance > 0.0 && 3.0 * running >= ideal
    requires Abs(running - ideal) <= d && n as real >= 3.0 * d / tolerance
    ensures Abs(Iterate(running, ideal, n) - ideal) <= tolerance
  {
    hide Toward, Iterate, Abs;
    Approaches(running, ideal, n);
    WithinTolerance(Abs(Iterate(running, ideal, n) - ideal), d, tolerance, n as real);
  }

  /** With a constant ideal size, the running size comes within any tolerance of it after that many measurements,
      and stays there. */
  lemma Converges(running: real, ideal: real, tolerance: real, n: nat)
    requires running > 0.0 && ideal > 0.0 && tolerance > 0.0 && n >= Enough(running, ideal, tolerance)
    ensures Abs(Iterate(running, ideal, n) - ideal) <= tolerance
  {
    var d := Abs(running - ideal);
    Quotient(ideal, running);
    Quotient(3.0 * d, tolerance);
    var grow, rest := Ceil(ideal / running), n - Ceil(ideal / running);
    hide *;
    GrownUp(running, ideal, grow);
    IterateSum(running, ideal, grow, rest);
    ComesNear(Iterate(running, ideal, grow), ideal, tolerance, d, rest);
  }

  lemma Quotient(a: real, b: real)
    requires a >= 0.0 && b > 0.0
    ensures a / b >= 0.0 && Ceil(a / b) >= 0
  {
  }

  lemma AtLeastThird(running: real, ideal: real, n: real, r: real)
    requires n * running >= ideal > 0.0 && running > 0.0 && (3.0 * r >= ideal || r >= (n + 1.0) * running)
    ensures 3.0 * r >= ideal
  {
    assert (n + 1.0) * running == n * running + running;
  }

  lemma WithinTolerance(e: real, d: real, tolerance: real, n: real)
    requires e >= 0.0 && d >= 0.0 && tolerance > 0.0 && n >= 3.0 * d / tolerance && e * (1.0 + n / 3.0) <= d
    ensures e <= tolerance
  {
    Divided(3.0 * d, tolerance, n);
    if e > tolerance {
      Times(tolerance, e, n / 3.0);
    }
  }
}
