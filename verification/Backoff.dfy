/** Delays between attempts. */
module Backoff {
  import opened Options

  datatype Algorithm = Fixed | Linear | Exponential

  function Min(x: real, y: real): real { if x <= y then x else y }

  function Max(x: real, y: real): real { if x <= y then y else x }

  function Pow2(n: nat): (r: real)
    ensures 1.0 <= r
  {
    if n == 0 then 1.0 else 2.0 * Pow2(n - 1)
  }

  function Multiple(initialDelay: real, attempt: nat): real { initialDelay * attempt as real }

  function Power(initialDelay: real, attempt: nat): real
    requires 1 <= attempt
  {
    initialDelay * Pow2(attempt - 1)
  }

  /** The delay before jitter. */
  function Base(algorithm: Algorithm, attempt: nat, initialDelay: real, maxDelay: real): real
    requires 1 <= attempt
  {
    match algorithm
    case Fixed => Min(initialDelay, maxDelay)
    case Linear => Min(Multiple(initialDelay, attempt), maxDelay)
    case Exponential => Min(Power(initialDelay, attempt), maxDelay)
  }

  /** `jitter` is the fraction of the base that the random draw comes to, None for no jitter. */
  predicate Draw(jitter: Option<real>) {
    jitter.Some? ==> 0.0 <= jitter.value <= 1.0
  }

  function Jittered(base: real, jitter: Option<real>): real {
    if jitter.None? then base
    else if base <= 0.0 then 0.0
    else jitter.value * base
  }

  function ComputeDelay(algorithm: Algorithm, attempt: int, initialDelay: real, maxDelay: real, jitter: Option<real>): (r: Option<real>)
    ensures r.None? <==> attempt < 1
  {
    if attempt < 1 then None else Some(Jittered(Base(algorithm, attempt, initialDelay, maxDelay), jitter))
  }

  lemma Fraction(u: real, base: real)
    requires 0.0 <= u <= 1.0 && 0.0 <= base
    ensures 0.0 <= u * base <= base
  {}

  lemma Product(x: real, y: real)
    requires 0.0 <= x && 0.0 <= y
    ensures 0.0 <= x * y
  {}

  lemma JitterBounds(base: real, jitter: Option<real>)
    requires Draw(jitter)
    ensures Jittered(base, jitter) <= Max(0.0, base)
    ensures 0.0 <= base ==> 0.0 <= Jittered(base, jitter) <= base
  {
    if jitter.Some? && 0.0 < base {
      Fraction(jitter.value, base);
    }
  }

  lemma NeverNegative(initialDelay: real, attempt: nat)
    requires 1 <= attempt && 0.0 <= initialDelay
    ensures 0.0 <= Multiple(initialDelay, attempt) && 0.0 <= Power(initialDelay, attempt)
  {
    hide Pow2;
    Product(initialDelay, attempt as real);
    Product(initialDelay, Pow2(attempt - 1));
  }

  lemma BaseBounds(algorithm: Algorithm, attempt: nat, initialDelay: real, maxDelay: real)
    requires 1 <= attempt
    ensures Base(algorithm, attempt, initialDelay, maxDelay) <= maxDelay
    ensures 0.0 <= initialDelay && 0.0 <= maxDelay ==> 0.0 <= Base(algorithm, attempt, initialDelay, maxDelay)
  {
    hide Power, Multiple;
    if 0.0 <= initialDelay {
      NeverNegative(initialDelay, attempt);
    }
  }

  /** With or without jitter a delay never exceeds the base, nor the base the cap. */
  lemma DelayBounds(algorithm: Algorithm, attempt: nat, initialDelay: real, maxDelay: real, jitter: Option<real>)
    requires 1 <= attempt && Draw(jitter)
    ensures var delay := ComputeDelay(algorithm, attempt, initialDelay, maxDelay, jitter).value;
            var base := Base(algorithm, attempt, initialDelay, maxDelay);
            && base <= maxDelay
            && delay <= Max(0.0, base) <= Max(0.0, maxDelay)
            && (0.0 <= initialDelay && 0.0 <= maxDelay ==> 0.0 <= delay <= base)
  {
    hide Base, Jittered;
    BaseBounds(algorithm, attempt, initialDelay, maxDelay);
    JitterBounds(Base(algorithm, attempt, initialDelay, maxDelay), jitter);
  }

  // The delays, attempt by attempt.

  /** What the algorithm asks for before the cap: the first delay, and each from the one before it. */
  function Uncapped(algorithm: Algorithm, attempt: nat, initialDelay: real): real
    requires 1 <= attempt
  {
    if attempt == 1 then initialDelay
    else
      var previous := Uncapped(algorithm, attempt - 1, initialDelay);
      match algorithm
      case Fixed => previous
      case Linear => previous + initialDelay
      case Exponential => previous + previous
  }

  /** `full` is the uncapped delay, or the cap if that is less. */
  predicate IsFullDelay(full: real, algorithm: Algorithm, attempt: nat, initialDelay: real, maxDelay: real)
    requires 1 <= attempt
  {
    var uncapped := Uncapped(algorithm, attempt, initialDelay);
    full == if uncapped <= maxDelay then uncapped else maxDelay
  }

  /** `delay` is `full`, or the drawn fraction of it; there is nothing to draw from when `full` is not positive. */
  predicate IsDrawnFrom(delay: real, full: real, jitter: Option<real>) {
    match jitter
    case None => delay == full
    case Some(fraction) => if full <= 0.0 then delay == 0.0 else delay == fraction * full
  }

  /** `delay` is right after attempt number `attempt`. */
  ghost predicate IsDelay(delay: real, algorithm: Algorithm, attempt: nat, initialDelay: real, maxDelay: real, jitter: Option<real>)
    requires 1 <= attempt
  {
    exists full :: IsFullDelay(full, algorithm, attempt, initialDelay, maxDelay) && IsDrawnFrom(delay, full, jitter)
  }

  lemma LinearProduct(initialDelay: real, attempt: nat)
    requires 1 <= attempt
    ensures Multiple(initialDelay, attempt) == Multiple(initialDelay, attempt - 1) + initialDelay
  {}

  lemma OneTime(initialDelay: real)
    ensures initialDelay * 1 as real == initialDelay
    ensures Multiple(initialDelay, 1) == initialDelay
  {}

  lemma DoubledProduct(initialDelay: real, power: real)
    ensures initialDelay * (2.0 * power) == initialDelay * power + initialDelay * power
  {}

  lemma {:induction false} UncappedLinear(attempt: nat, initialDelay: real)
    requires 1 <= attempt
    ensures Uncapped(Linear, attempt, initialDelay) == Multiple(initialDelay, attempt)
  {
    hide Multiple;
    if attempt == 1 {
      OneTime(initialDelay);
    } else {
      UncappedLinear(attempt - 1, initialDelay);
      LinearProduct(initialDelay, attempt);
    }
  }

  lemma {:induction false} UncappedExponential(attempt: nat, initialDelay: real)
    requires 1 <= attempt
    ensures Uncapped(Exponential, attempt, initialDelay) == Power(initialDelay, attempt)
  {
    hide Power;
    if attempt == 1 {
      FirstPowerIsInitial(initialDelay);
    } else {
      UncappedExponential(attempt - 1, initialDelay);
      PowerDoubles(initialDelay, attempt - 1);
    }
  }

  lemma FirstPowerIsInitial(initialDelay: real)
    ensures Power(initialDelay, 1) == initialDelay
  {}

  lemma {:induction false} UncappedFixed(attempt: nat, initialDelay: real)
    requires 1 <= attempt
    ensures Uncapped(Fixed, attempt, initialDelay) == initialDelay
  {
    if attempt > 1 {
      UncappedFixed(attempt - 1, initialDelay);
    }
  }

  lemma BaseIsFullDelay(algorithm: Algorithm, attempt: nat, initialDelay: real, maxDelay: real)
    requires 1 <= attempt
    ensures IsFullDelay(Base(algorithm, attempt, initialDelay, maxDelay), algorithm, attempt, initialDelay, maxDelay)
  {
    hide Uncapped, Power, Multiple;
    match algorithm
    case Fixed => UncappedFixed(attempt, initialDelay);
    case Linear => UncappedLinear(attempt, initialDelay);
    case Exponential => UncappedExponential(attempt, initialDelay);
  }

  /** The delay after each attempt is the one the algorithm asks for at that attempt, capped and drawn from. */
  lemma DelayIsExact(algorithm: Algorithm, attempt: nat, initialDelay: real, maxDelay: real, jitter: Option<real>)
    requires 1 <= attempt
    ensures IsDelay(ComputeDelay(algorithm, attempt, initialDelay, maxDelay, jitter).value, algorithm, attempt, initialDelay, maxDelay, jitter)
  {
    hide IsFullDelay, Base;
    BaseIsFullDelay(algorithm, attempt, initialDelay, maxDelay);
    assert IsDrawnFrom(Jittered(Base(algorithm, attempt, initialDelay, maxDelay), jitter), Base(algorithm, attempt, initialDelay, maxDelay), jitter);
  }

  /** Without jitter the first delay is the initial one, capped; then a fixed delay stays, a linear one is the
      attempt's multiple of the initial one, capped, and an exponential one twice the one before, capped. */
  lemma DelayLaws(attempt: nat, initialDelay: real, maxDelay: real)
    requires 1 <= attempt && 0.0 <= maxDelay
    ensures forall a :: ComputeDelay(a, 1, initialDelay, maxDelay, None) == Some(if initialDelay <= maxDelay then initialDelay else maxDelay)
    ensures ComputeDelay(Fixed, attempt + 1, initialDelay, maxDelay, None) == ComputeDelay(Fixed, attempt, initialDelay, maxDelay, None)
    ensures var product := initialDelay * attempt as real;
            ComputeDelay(Linear, attempt, initialDelay, maxDelay, None) == Some(if product <= maxDelay then product else maxDelay)
    ensures var twice := 2.0 * ComputeDelay(Exponential, attempt, initialDelay, maxDelay, None).value;
            ComputeDelay(Exponential, attempt + 1, initialDelay, maxDelay, None) == Some(if twice <= maxDelay then twice else maxDelay)
  {
    hide ComputeDelay;
    FirstDelay(initialDelay, maxDelay);
    FixedDelay(attempt, initialDelay, maxDelay);
    LinearDelay(attempt, initialDelay, maxDelay);
    ExponentialDelay(attempt, initialDelay, maxDelay);
  }

  lemma FirstDelay(initialDelay: real, maxDelay: real)
    ensures forall a :: ComputeDelay(a, 1, initialDelay, maxDelay, None) == Some(if initialDelay <= maxDelay then initialDelay else maxDelay)
  {
    hide Power, Multiple;
    FirstPowerIsInitial(initialDelay);
    OneTime(initialDelay);
  }

  lemma FixedDelay(attempt: nat, initialDelay: real, maxDelay: real)
    requires 1 <= attempt
    ensures ComputeDelay(Fixed, attempt + 1, initialDelay, maxDelay, None) == ComputeDelay(Fixed, attempt, initialDelay, maxDelay, None)
  {}

  lemma LinearDelay(attempt: nat, initialDelay: real, maxDelay: real)
    requires 1 <= attempt
    ensures var product := initialDelay * attempt as real;
            ComputeDelay(Linear, attempt, initialDelay, maxDelay, None) == Some(if product <= maxDelay then product else maxDelay)
  {
    hide Multiple;
    MultipleIsProduct(initialDelay, attempt);
  }

  lemma MultipleIsProduct(initialDelay: real, attempt: nat)
    ensures Multiple(initialDelay, attempt) == initialDelay * attempt as real
  {}

  lemma PowerDoubles(initialDelay: real, attempt: nat)
    requires 1 <= attempt
    ensures Power(initialDelay, attempt + 1) == Power(initialDelay, attempt) + Power(initialDelay, attempt)
  {
    hide Pow2;
    NextPower(attempt);
    DoubledProduct(initialDelay, Pow2(attempt - 1));
  }

  lemma ExponentialDelay(attempt: nat, initialDelay: real, maxDelay: real)
    requires 1 <= attempt && 0.0 <= maxDelay
    ensures var twice := 2.0 * ComputeDelay(Exponential, attempt, initialDelay, maxDelay, None).value;
            ComputeDelay(Exponential, attempt + 1, initialDelay, maxDelay, None) == Some(if twice <= maxDelay then twice else maxDelay)
  {
    hide Power;
    PowerDoubles(initialDelay, attempt);
  }

  lemma FirstPower()
    ensures Pow2(0) == 1.0
  {}

  lemma NextPower(attempt: nat)
    requires 1 <= attempt
    ensures Pow2(attempt) == 2.0 * Pow2(attempt - 1)
  {}

  /** The most that the first `n` waits can take. */
  function TotalBase(algorithm: Algorithm, n: nat, initialDelay: real, maxDelay: real): real {
    if n == 0 then 0.0
    else TotalBase(algorithm, n - 1, initialDelay, maxDelay) + Base(algorithm, n, initialDelay, maxDelay)
  }

  lemma OneMoreDoubling(x: real, p: real, total: real, delay: real)
    requires total <= x * (p - 1.0) && delay <= x * p
    ensures total + delay <= x * (2.0 * p - 1.0)
  {
    assert x * (2.0 * p - 1.0) == x * (p - 1.0) + x * p;
  }

  lemma OneMoreCap(maxDelay: real, n: nat, total: real, delay: real)
    requires 1 <= n && total <= maxDelay * (n - 1) as real && delay <= maxDelay
    ensures total + delay <= maxDelay * n as real
  {
    assert maxDelay * n as real == maxDelay * (n - 1) as real + maxDelay;
  }

  lemma ExponentialBase(n: nat, initialDelay: real, maxDelay: real)
    requires 1 <= n
    ensures Base(Exponential, n, initialDelay, maxDelay) <= initialDelay * Pow2(n - 1)
    ensures Base(Exponential, n, initialDelay, maxDelay) <= maxDelay
    ensures Pow2(n) == 2.0 * Pow2(n - 1)
  {}

  lemma NoWait(initialDelay: real, maxDelay: real)
    ensures TotalBase(Exponential, 0, initialDelay, maxDelay) == 0.0 == initialDelay * (Pow2(0) - 1.0)
    ensures maxDelay * 0 as real == 0.0
  {}

  /** Exponential waits add up to less than the next doubling, and to no more than the cap each time. */
  lemma {:induction false} TotalExponential(n: nat, initialDelay: real, maxDelay: real)
    ensures TotalBase(Exponential, n, initialDelay, maxDelay) <= initialDelay * (Pow2(n) - 1.0)
    ensures TotalBase(Exponential, n, initialDelay, maxDelay) <= maxDelay * n as real
  {
    hide Base, Pow2;
    if n == 0 {
      NoWait(initialDelay, maxDelay);
    } else {
      var total, delay := TotalBase(Exponential, n - 1, initialDelay, maxDelay), Base(Exponential, n, initialDelay, maxDelay);
      TotalExponential(n - 1, initialDelay, maxDelay);
      ExponentialBase(n, initialDelay, maxDelay);
      OneMoreDoubling(initialDelay, Pow2(n - 1), total, delay);
      OneMoreCap(maxDelay, n, total, delay);
    }
  }
}
