/**
 * The bounded retry loop: up to MAX_RETRIES + 1 attempts, a backoff of
 * RETRY_BACKOFF_SEC * 2^k after a retryable failure of attempt k < MAX_RETRIES,
 * immediate return on any completed exchange, immediate stop on any other
 * request error. Backoffs are recorded as their multiplier 2^k of the base.
 */
module Retry {
  import opened Wrappers
  import opened Transport

  datatype RetryResult = Succeeded(reply: UpstreamReply) | GaveUp(last: Option<TransportError>)

  /** The result, the number of attempts made and the backoff multipliers slept. */
  datatype RetryRun = RetryRun(result: RetryResult, attempts: nat, backoffs: seq<nat>)

  function Pow2(n: nat): nat
  {
    if n == 0 then 1 else 2 * Pow2(n - 1)
  }

  /** The transport's outcome for attempt `k` is a retryable failure. */
  predicate RetryableAt(transport: nat -> Outcome, k: nat)
  {
    transport(k).Failed? && Retryable(transport(k).error.kind)
  }

  /**
   * The loop from attempt `attempt` on, with `last` the error recorded so far;
   * `attempts` counts every attempt of the call, earlier ones included.
   */
  function Run(maxRetries: int, transport: nat -> Outcome, attempt: nat, last: Option<TransportError>): RetryRun
    decreases if attempt <= maxRetries then maxRetries + 1 - attempt else 0
  {
    if attempt > maxRetries then RetryRun(GaveUp(last), attempt, [])
    else match transport(attempt)
      case Completed(reply) => RetryRun(Succeeded(reply), attempt + 1, [])
      case Failed(e) =>
        if Retryable(e.kind) && attempt < maxRetries then
          var rest := Run(maxRetries, transport, attempt + 1, Some(e));
          RetryRun(rest.result, rest.attempts, [Pow2(attempt)] + rest.backoffs)
        else RetryRun(GaveUp(Some(e)), attempt + 1, [])
  }

  /**
   * The retry loop of the forwarder. Each attempt asks the transport for its
   * outcome; a completed exchange returns at once, a retryable failure sleeps
   * and retries while attempts remain, anything else ends the loop.
   */
  method RetryLoop(maxRetries: int, transport: nat -> Outcome)
    returns (result: RetryResult, attempts: nat, backoffs: seq<nat>)
    ensures RetryRun(result, attempts, backoffs) == Run(maxRetries, transport, 0, None)
  {
    var lastError: Option<TransportError> := None;
    attempts, backoffs := 0, [];
    var attempt: nat := 0;
    while attempt <= maxRetries
      invariant attempts == attempt
      invariant Run(maxRetries, transport, 0, None) ==
        var rest := Run(maxRetries, transport, attempt, lastError);
        RetryRun(rest.result, rest.attempts, backoffs + rest.backoffs)
      decreases maxRetries - attempt
    {
      attempts := attempt + 1;
      match transport(attempt) {
        case Completed(reply) =>
          assert backoffs + [] == backoffs;
          return Succeeded(reply), attempts, backoffs;
        case Failed(e) =>
          lastError := Some(e);
          if Retryable(e.kind) {
            if attempt < maxRetries {
              assert backoffs + [Pow2(attempt)] + Run(maxRetries, transport, attempt + 1, lastError).backoffs
                  == backoffs + ([Pow2(attempt)] + Run(maxRetries, transport, attempt + 1, lastError).backoffs);
              backoffs := backoffs + [Pow2(attempt)];
              attempt := attempt + 1;
              continue;
            }
            break;
          }
          break;
      }
    }
    assert backoffs + [] == backoffs;
    result := GaveUp(lastError);
  }
}

module RetryProperties {
  import opened Wrappers
  import opened Transport
  import opened Retry

  /**
   * The shape of every run from attempt `k`: how many attempts it makes, that
   * its i-th backoff is 2^(k+i), that every attempt but the last failed
   * retryably, and how the last attempt decided the result.
   */
  lemma {:induction false} RunShape(m: int, t: nat -> Outcome, k: nat, l: Option<TransportError>)
    decreases if k <= m then m + 1 - k else 0
    ensures var r := Run(m, t, k, l);
      && (k > m ==> r == RetryRun(GaveUp(l), k, []))
      && (k <= m ==> k + 1 <= r.attempts <= m + 1 && |r.backoffs| == r.attempts - k - 1)
      && (forall i :: 0 <= i < |r.backoffs| ==> r.backoffs[i] == Pow2(k + i))
      && (forall i :: k <= i < r.attempts - 1 ==> RetryableAt(t, i))
      && (r.result.Succeeded? ==> r.attempts >= 1 && t(r.attempts - 1) == Completed(r.result.reply))
      && (r.result.GaveUp? && k <= m ==>
            && r.result.last.Some?
            && t(r.attempts - 1) == Failed(r.result.last.value)
            && (Retryable(r.result.last.value.kind) ==> r.attempts == m + 1))
  {
    if k <= m {
      match t(k) {
        case Completed(_) =>
        case Failed(e) =>
          if Retryable(e.kind) && k < m {
            RunShape(m, t, k + 1, Some(e));
          }
      }
    }
  }

  /**
   * The retry policy of one call: at most MAX_RETRIES + 1 attempts, one
   * backoff between consecutive attempts, each backoff 2^k of the base and
   * so double the one before, and an error-less give-up only when no attempt
   * ran at all.
   */
  lemma RetryPolicy(m: int, t: nat -> Outcome)
    ensures var r := Run(m, t, 0, None);
      && (m < 0 ==> r.attempts == 0)
      && (m >= 0 ==> 1 <= r.attempts <= m + 1 && |r.backoffs| == r.attempts - 1)
      && (forall i :: 0 <= i < |r.backoffs| ==> r.backoffs[i] == Pow2(i))
      && (forall i :: 0 < i < |r.backoffs| ==> r.backoffs[i] == 2 * r.backoffs[i - 1])
      && (r.result == GaveUp(None) <==> m < 0)
  {
    RunShape(m, t, 0, None);
  }

  /** A completed exchange, whatever its status, ends the loop at that attempt. */
  lemma CompletedExchangeReturns(m: int, t: nat -> Outcome)
    ensures var r := Run(m, t, 0, None);
      r.result.Succeeded? <==> r.attempts >= 1 && t(r.attempts - 1).Completed?
    ensures var r := Run(m, t, 0, None);
      r.result.Succeeded? ==> r.result.reply == t(r.attempts - 1).reply
  {
    RunShape(m, t, 0, None);
  }

  /**
   * A transport that fails retryably MAX_RETRIES times and then completes:
   * the call succeeds on the last allowed attempt after MAX_RETRIES backoffs
   * of 1, 2, 4, ... times the base.
   */
  lemma RetriesThenSucceeds(m: int, t: nat -> Outcome)
    requires m >= 0
    requires forall i: nat :: i < m ==> RetryableAt(t, i)
    requires t(m).Completed?
    ensures Run(m, t, 0, None) == RetryRun(Succeeded(t(m).reply), m + 1, seq(m, i requires 0 <= i => Pow2(i)))
  {
    var r := Run(m, t, 0, None);
    RunShape(m, t, 0, None);
    assert r.attempts - 1 < m ==> RetryableAt(t, r.attempts - 1);
  }

  /** A transport that always fails retryably: exactly MAX_RETRIES + 1 attempts, then give up with the last error. */
  lemma AlwaysRetryableExhausts(m: int, t: nat -> Outcome)
    requires m >= 0
    requires forall i: nat :: i <= m ==> RetryableAt(t, i)
    ensures var r := Run(m, t, 0, None);
      r.attempts == m + 1 && |r.backoffs| == m && t(m).Failed? && r.result == GaveUp(Some(t(m).error))
  {
    var r := Run(m, t, 0, None);
    RunShape(m, t, 0, None);
    assert RetryableAt(t, r.attempts - 1);
  }

  /** A non-retryable request error at attempt j ends the loop there, with no backoff after it. */
  lemma FatalErrorStops(m: int, t: nat -> Outcome, j: nat)
    requires j <= m
    requires forall i: nat :: i < j ==> RetryableAt(t, i)
    requires t(j).Failed? && !Retryable(t(j).error.kind)
    ensures var r := Run(m, t, 0, None);
      r.attempts == j + 1 && |r.backoffs| == j && r.result == GaveUp(Some(t(j).error))
  {
    var r := Run(m, t, 0, None);
    RunShape(m, t, 0, None);
    assert r.attempts - 1 < j ==> RetryableAt(t, r.attempts - 1);
    assert j < r.attempts - 1 ==> RetryableAt(t, j);
  }
}
