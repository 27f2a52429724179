/** breaker(retry(timeout(f))): one call of a function decorated with reliable(). */
module Reliability {
  import opened Options
  import opened Backoff
  import opened CircuitBreakers

  datatype RetryPolicy = RetryPolicy(maxAttempts: int, backoff: Algorithm, initialDelay: real, maxDelay: real, jitter: bool)

  predicate ValidPolicy(p: RetryPolicy) {
    1 <= p.maxAttempts && 0.0 <= p.initialDelay <= p.maxDelay
  }

  /** How one invocation ends: a timeout is an exception like any other, retryable if in `retry_on`; a
      cancellation is not caught anywhere. */
  datatype Ending = Succeeds | Fails(retryable: bool) | IsCancelled

  /** One invocation, the jitter drawn after it, and whether the wait that follows is cancelled. */
  datatype Attempt = Attempt(ending: Ending, draw: real, waitCancelled: bool)

  /** What the function would do at its first, second, ... invocation. */
  type Script = nat -> Attempt

  ghost predicate FairDraws(script: Script, n: nat) {
    forall i :: 0 <= i < n ==> 0.0 <= script(i).draw <= 1.0
  }

  datatype ReliableEvent =
    | RetryAttempt(attempt: nat, delay: real)
    | OperationSucceeded
    | OperationFailed

  function DelayAfter(p: RetryPolicy, script: Script, attempt: nat): real
    requires 1 <= attempt
  {
    ComputeDelay(p.backoff, attempt, p.initialDelay, p.maxDelay, if p.jitter then Some(script(attempt - 1).draw) else None).value
  }

  /** The retry events of `n` retries, in order. */
  function RetryEvents(p: RetryPolicy, script: Script, n: nat): (r: seq<ReliableEvent>)
    ensures |r| == n
  {
    if n == 0 then [] else RetryEvents(p, script, n - 1) + [RetryAttempt(n, DelayAfter(p, script, n))]
  }

  function TotalDelay(p: RetryPolicy, script: Script, n: nat): real {
    if n == 0 then 0.0 else TotalDelay(p, script, n - 1) + DelayAfter(p, script, n)
  }

  /** With or without jitter, `n` waits take no longer than their bases. */
  lemma {:induction false} TotalDelayBound(p: RetryPolicy, script: Script, n: nat)
    requires ValidPolicy(p) && FairDraws(script, n)
    ensures 0.0 <= TotalDelay(p, script, n) <= TotalBase(p.backoff, n, p.initialDelay, p.maxDelay)
  {
    if n > 0 {
      TotalDelayBound(p, script, n - 1);
      DelayBounds(p.backoff, n, p.initialDelay, p.maxDelay, if p.jitter then Some(script(n - 1).draw) else None);
    }
  }

  datatype Outcome = GaveResult | GaveError | WasCancelled

  /** Failed in a way that is retried, and not cancelled while waiting. */
  predicate GoesOn(attempt: Attempt) {
    attempt.ending == Fails(true) && !attempt.waitCancelled
  }

  /** The call is cancelled while it waits after invocation `n`. */
  predicate CutWhileWaiting(p: RetryPolicy, script: Script, n: nat) {
    1 <= n < p.maxAttempts && script(n - 1).ending == Fails(true) && script(n - 1).waitCancelled
  }

  /** What `n` invocations come to when none follows. */
  function OutcomeOf(p: RetryPolicy, script: Script, n: nat): Outcome
    requires 1 <= n
  {
    match script(n - 1).ending
    case Succeeds => GaveResult
    case IsCancelled => WasCancelled
    case Fails(_) => if CutWhileWaiting(p, script, n) then WasCancelled else GaveError
  }

  /** `n` is where the retry loop ends. */
  predicate LastInvocation(p: RetryPolicy, script: Script, n: nat) {
    && 1 <= n <= p.maxAttempts
    && (forall i :: 0 <= i < n - 1 ==> GoesOn(script(i)))
    && (n < p.maxAttempts ==> !GoesOn(script(n - 1)))
  }

  /** What the caller gets, by how the last of `n` invocations ended and whether the wait after it was cancelled. */
  predicate CallerGets(outcome: Outcome, p: RetryPolicy, script: Script, n: nat)
    requires 1 <= n
  {
    var last := script(n - 1);
    var waited := n < p.maxAttempts && last.ending == Fails(true);
    && (outcome == GaveResult <==> last.ending == Succeeds)
    && (outcome == GaveError <==> last.ending.Fails? && !(waited && last.waitCancelled))
    && (outcome == WasCancelled <==> last.ending == IsCancelled || (waited && last.waitCancelled))
  }

  /** `published` are the retry events of a call with that many invocations: one for each invocation that another
      followed, and for one whose wait was cancelled, with the backoff delay of that attempt. */
  ghost predicate ShowsRetries(published: seq<ReliableEvent>, p: RetryPolicy, script: Script, n: nat)
    requires 1 <= n
  {
    && |published| == (if n < p.maxAttempts && script(n - 1).ending == Fails(true) && script(n - 1).waitCancelled then n else n - 1)
    && forall i :: 0 <= i < |published| ==>
         && published[i].RetryAttempt? && published[i].attempt == i + 1
         && IsDelay(published[i].delay, p.backoff, i + 1, p.initialDelay, p.maxDelay, if p.jitter then Some(script(i).draw) else None)
  }

  /** The delays of the first `n` retry events together. */
  function SumOfDelays(published: seq<ReliableEvent>, n: nat): real
    requires n <= |published| && forall i :: 0 <= i < n ==> published[i].RetryAttempt?
  {
    if n == 0 then 0.0 else SumOfDelays(published, n - 1) + published[n - 1].delay
  }

  lemma {:induction false} RetryEventAt(p: RetryPolicy, script: Script, n: nat, i: nat)
    requires i < n
    ensures RetryEvents(p, script, n)[i] == RetryAttempt(i + 1, DelayAfter(p, script, i + 1))
  {
    hide DelayAfter;
    if i < n - 1 {
      RetryEventAt(p, script, n - 1, i);
    }
  }

  lemma DelayAfterIsRight(p: RetryPolicy, script: Script, attempt: nat)
    requires 1 <= attempt
    ensures IsDelay(DelayAfter(p, script, attempt), p.backoff, attempt, p.initialDelay, p.maxDelay,
                    if p.jitter then Some(script(attempt - 1).draw) else None)
  {
    hide IsDelay, ComputeDelay;
    DelayIsExact(p.backoff, attempt, p.initialDelay, p.maxDelay, if p.jitter then Some(script(attempt - 1).draw) else None);
  }

  lemma RetriesAreShown(p: RetryPolicy, script: Script, n: nat)
    requires 1 <= n
    ensures ShowsRetries(RetryEvents(p, script, Retries(p, script, n)), p, script, n)
  {
    hide IsDelay, DelayAfter, RetryEvents;
    var published := RetryEvents(p, script, Retries(p, script, n));
    forall i | 0 <= i < |published|
      ensures published[i].RetryAttempt? && published[i].attempt == i + 1
      ensures IsDelay(published[i].delay, p.backoff, i + 1, p.initialDelay, p.maxDelay, if p.jitter then Some(script(i).draw) else None)
    {
      RetryEventAt(p, script, |published|, i);
      DelayAfterIsRight(p, script, i + 1);
    }
  }

  lemma {:induction false} SleptIsSum(p: RetryPolicy, script: Script, m: nat, n: nat)
    requires n <= m
    ensures forall i :: 0 <= i < m ==> RetryEvents(p, script, m)[i].RetryAttempt?
    ensures SumOfDelays(RetryEvents(p, script, m), n) == TotalDelay(p, script, n)
  {
    hide DelayAfter;
    forall i | 0 <= i < m ensures RetryEvents(p, script, m)[i].RetryAttempt? {
      RetryEventAt(p, script, m, i);
    }
    if n > 0 {
      SleptIsSum(p, script, m, n - 1);
      RetryEventAt(p, script, m, n - 1);
    }
  }

  function Retries(p: RetryPolicy, script: Script, n: nat): nat
    requires 1 <= n
  {
    if CutWhileWaiting(p, script, n) then n else n - 1
  }

  lemma CallIsExact(p: RetryPolicy, script: Script, n: nat)
    requires 1 <= n
    ensures CallerGets(OutcomeOf(p, script, n), p, script, n)
    ensures ShowsRetries(RetryEvents(p, script, Retries(p, script, n)), p, script, n)
    ensures forall i :: 0 <= i < n - 1 ==> RetryEvents(p, script, Retries(p, script, n))[i].RetryAttempt?
    ensures SumOfDelays(RetryEvents(p, script, Retries(p, script, n)), n - 1) == TotalDelay(p, script, n - 1)
  {
    hide ShowsRetries, SumOfDelays, TotalDelay, RetryEvents;
    RetriesAreShown(p, script, n);
    SleptIsSum(p, script, Retries(p, script, n), n - 1);
  }

  /** The retry loop: it stops at the first success, the first failure that is not retryable, a cancellation, or
      the last attempt, and waits between attempts only. `slept` counts the waits that were not cut short. */
  method RunWithRetry(p: RetryPolicy, script: Script) returns (invocations: nat, outcome: Outcome, slept: real, published: seq<ReliableEvent>)
    requires ValidPolicy(p)
    ensures LastInvocation(p, script, invocations)
    ensures outcome == OutcomeOf(p, script, invocations)
    ensures published == RetryEvents(p, script, Retries(p, script, invocations))
    ensures slept == TotalDelay(p, script, invocations - 1)
    ensures 1 <= invocations <= p.maxAttempts
    ensures forall i :: 0 <= i < invocations - 1 ==> script(i).ending == Fails(true) && !script(i).waitCancelled
    ensures invocations < p.maxAttempts ==> script(invocations - 1).ending != Fails(true) || script(invocations - 1).waitCancelled
    ensures CallerGets(outcome, p, script, invocations)
    ensures ShowsRetries(published, p, script, invocations)
    ensures slept == SumOfDelays(published, invocations - 1)
  {
    hide CallerGets, ShowsRetries, SumOfDelays, IsDelay;
    slept := 0.0;
    published := [];
    for attempt := 1 to p.maxAttempts + 1
      invariant forall i :: 0 <= i < attempt - 1 ==> GoesOn(script(i))
      invariant published == RetryEvents(p, script, attempt - 1)
      invariant slept == TotalDelay(p, script, attempt - 1)
      invariant attempt <= p.maxAttempts
    {
      match script(attempt - 1).ending
      case Succeeds =>
        CallIsExact(p, script, attempt);
        return attempt, GaveResult, slept, published;
      case IsCancelled =>
        CallIsExact(p, script, attempt);
        return attempt, WasCancelled, slept, published;
      case Fails(retryable) =>
        if !retryable || attempt == p.maxAttempts {
          CallIsExact(p, script, attempt);
          return attempt, GaveError, slept, published;
        }
        var delay := ComputeDelay(p.backoff, attempt, p.initialDelay, p.maxDelay,
                                  if p.jitter then Some(script(attempt - 1).draw) else None).value;
        published := published + [RetryAttempt(attempt, delay)];
        if script(attempt - 1).waitCancelled {
          CallIsExact(p, script, attempt);
          return attempt, WasCancelled, slept, published;
        }
        slept := slept + delay;
    }
    assert false;
  }

  datatype CallReport = CallReport(invocations: nat, outcome: Outcome, slept: real, published: seq<ReliableEvent>)

  function FinalEvents(outcome: Outcome): seq<ReliableEvent> {
    match outcome
    case GaveResult => [OperationSucceeded]
    case GaveError => [OperationFailed]
    case WasCancelled => []
  }

  /** A rejected call runs nothing; any other runs the body up to maxAttempts times and publishes one event per
      retry. One that returns or raises gives the breaker one outcome and publishes one event at the end; a
      cancelled one does neither. */
  method CallReliably(p: RetryPolicy, breaker: CircuitBreaker?, script: Script, arrival: real, mono: real, wall: real)
    returns (r: CallReport)
    requires ValidPolicy(p)
    modifies breaker, if breaker == null then null else breaker.store
    ensures var rejected := breaker != null && !old(if breaker == null then true else Admits(breaker.settings, breaker.Value(), arrival));
            if rejected then
              && r == CallReport(0, GaveError, 0.0, [OperationFailed])
              && breaker.Value() == old(breaker.Value()) && breaker.Record() == old(breaker.Record())
            else
              && LastInvocation(p, script, r.invocations)
              && r.outcome == OutcomeOf(p, script, r.invocations)
              && r.published == RetryEvents(p, script, Retries(p, script, r.invocations)) + FinalEvents(r.outcome)
              && r.slept == TotalDelay(p, script, r.invocations - 1)
              && (breaker != null ==>
                    && breaker.Value() == (match r.outcome
                                           case GaveResult => Succeeded(Admitted(old(breaker.Value())))
                                           case GaveError => Failed(breaker.settings, Admitted(old(breaker.Value())), mono, wall)
                                           case WasCancelled => Admitted(old(breaker.Value())))
                    && (r.outcome == WasCancelled ==> breaker.Record() == old(breaker.Record()))
                    && (r.outcome != WasCancelled && breaker.store != null ==> breaker.Record() == Some(Snapshot(breaker.Value()))))
              && CallerGets(r.outcome, p, script, r.invocations)
              && (match r.outcome
                  case GaveResult =>
                    && r.published != [] && r.published[|r.published| - 1] == OperationSucceeded
                    && ShowsRetries(r.published[..|r.published| - 1], p, script, r.invocations)
                    && (breaker != null ==> breaker.Value() == FRESH)
                  case GaveError =>
                    && r.published != [] && r.published[|r.published| - 1] == OperationFailed
                    && ShowsRetries(r.published[..|r.published| - 1], p, script, r.invocations)
                    && (breaker != null ==> breaker.failureCount == old(if breaker == null then 0 else breaker.failureCount) + 1)
                  case WasCancelled =>
                    && ShowsRetries(r.published, p, script, r.invocations)
                    && (breaker != null ==> breaker.failureCount == old(if breaker == null then 0 else breaker.failureCount)))
    ensures FairDraws(script, p.maxAttempts) ==>
              0.0 <= r.slept <= TotalBase(p.backoff, p.maxAttempts - 1, p.initialDelay, p.maxDelay)
  {
    hide CallerGets, ShowsRetries;
    TotalBaseGrows(p, 0, p.maxAttempts - 1);
    if breaker != null {
      var admitted := breaker.BeforeCall(arrival);
      if !admitted {
        return CallReport(0, GaveError, 0.0, [OperationFailed]);
      }
    }
    var invocations, outcome, slept, published := RunWithRetry(p, script);
    if breaker != null {
      match outcome
      case GaveResult => breaker.OnSuccess();
      case GaveError => breaker.OnFailure(mono, wall);
      case WasCancelled =>
    }
    if FairDraws(script, p.maxAttempts) {
      TotalDelayBound(p, script, invocations - 1);
      TotalBaseGrows(p, invocations - 1, p.maxAttempts - 1);
    }
    assert (published + FinalEvents(outcome))[..|published|] == published;
    assert outcome == WasCancelled ==> published + FinalEvents(outcome) == published;
    return CallReport(invocations, outcome, slept, published + FinalEvents(outcome));
  }

  lemma {:induction false} TotalBaseGrows(p: RetryPolicy, n: nat, m: nat)
    requires ValidPolicy(p) && n <= m
    ensures TotalBase(p.backoff, n, p.initialDelay, p.maxDelay) <= TotalBase(p.backoff, m, p.initialDelay, p.maxDelay)
    decreases m
  {
    if n < m {
      TotalBaseGrows(p, n, m - 1);
      DelayBounds(p.backoff, m, p.initialDelay, p.maxDelay, None);
    }
  }
}
