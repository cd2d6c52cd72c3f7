/**
 * The two retry loops around Kafka calls: MessageHandler.withRetry, with exponential
 * backoff and a time limit (packages/events/src/handler.ts), and
 * KafkaClientManager.retryOperation, with a fixed interval
 * (packages/events/src/client.ts).
 *
 * What the operation does on its k-th call is the k-th element of `outcomes`; a failure
 * carries its message and the clock at that moment.
 */
module Retry {
  datatype Outcome<T> = Returns(value: T) | Throws(message: string, clock: int)

  datatype Ending<T> = Succeeded(value: T) | Rethrown(message: string) | GaveUp

  const MAX_DELAY: nat := 10000

  predicate Includes(s: string, part: string) {
    exists i :: 0 <= i <= |s| && part <= s[i..]
  }

  predicate Retryable(message: string) {
    || Includes(message, "leadership election")
    || Includes(message, "group coordinator")
    || Includes(message, "not available")
    || Includes(message, "connection")
    || Includes(message, "timeout")
  }

  const TRANSIENT := ["leadership election", "group coordinator", "not available", "connection", "timeout"]

  ghost predicate Contains(s: string, part: string) {
    exists before: string, after: string :: s == before + (part + after)
  }

  lemma IncludesContains(s: string, part: string)
    ensures Includes(s, part) <==> Contains(s, part)
  {
    if Includes(s, part) {
      var i :| 0 <= i <= |s| && part <= s[i..];
      assert s == s[..i] + (part + s[i..][|part|..]);
    }
    if before: string, after: string :| s == before + (part + after) {
      assert s[|before|..] == part + after;
    }
  }

  /** A failure is retried exactly when its message contains one of the five phrases. */
  lemma RetryableExactly(message: string)
    ensures Retryable(message) <==> exists phrase :: phrase in TRANSIENT && Contains(message, phrase)
  {
    forall phrase ensures Includes(message, phrase) <==> Contains(message, phrase) {
      IncludesContains(message, phrase);
    }
    OnePhrase(message);
  }

  lemma OnePhrase(message: string)
    ensures Retryable(message) <==> exists phrase :: phrase in TRANSIENT && Includes(message, phrase)
  {
    assert TRANSIENT[0] in TRANSIENT && TRANSIENT[1] in TRANSIENT && TRANSIENT[2] in TRANSIENT;
    assert TRANSIENT[3] in TRANSIENT && TRANSIENT[4] in TRANSIENT;
  }

  function Pow2(n: nat): nat {
    if n == 0 then 1 else 2 * Pow2(n - 1)
  }

  /** The sleep after the k-th failure, counting from 1. */
  function Delay(retryDelay: nat, k: nat): nat
    requires k >= 1
  {
    var backoff := retryDelay * Pow2(k - 1);
    if backoff < MAX_DELAY then backoff else MAX_DELAY
  }

  /** The sleeps double from one failure to the next, starting with the configured delay, up to ten seconds. */
  lemma DelayDoubles(retryDelay: nat, k: nat)
    requires k >= 1
    ensures Delay(retryDelay, 1) == if retryDelay < 10000 then retryDelay else 10000
    ensures Delay(retryDelay, k + 1) == if 2 * Delay(retryDelay, k) < 10000 then 2 * Delay(retryDelay, k) else 10000
  {
    assert Pow2(k) == 2 * Pow2(k - 1);
    assert retryDelay * Pow2(k) == 2 * (retryDelay * Pow2(k - 1));
    assert Pow2(0) == 1;
  }

  function TotalDelay(retryDelay: nat, n: nat): nat {
    if n == 0 then 0 else TotalDelay(retryDelay, n - 1) + Delay(retryDelay, n)
  }

  lemma {:induction false} TotalDelayMonotone(retryDelay: nat, m: nat, n: nat)
    requires m <= n
    ensures TotalDelay(retryDelay, m) <= TotalDelay(retryDelay, n)
    decreases n
  {
    if m < n {
      TotalDelayMonotone(retryDelay, m, n - 1);
    }
  }

  /** A failure that is waited out rather than thrown. */
  predicate Retried<T>(o: Outcome<T>, start: int, timeout: int) {
    o.Throws? && Retryable(o.message) && o.clock - start <= timeout
  }

  /** The clock never runs backwards, and a sleep takes at least its time. */
  predicate Monotone<T>(outcomes: seq<Outcome<T>>, start: int, retryDelay: nat) {
    forall k :: 0 <= k < |outcomes| && outcomes[k].Throws? ==> outcomes[k].clock >= start + TotalDelay(retryDelay, k)
  }

  /**
   * withRetry: at most `maxRetries` calls, the first success wins, and a failure that is
   * not retryable or comes too late is thrown at once.
   */
  method WithRetry<T>(outcomes: seq<Outcome<T>>, start: int, maxRetries: int, retryDelay: nat, timeout: int)
    returns (ending: Ending<T>, calls: nat, slept: nat)
    requires |outcomes| >= maxRetries
    ensures calls <= if maxRetries > 0 then maxRetries else 0
    ensures ending.GaveUp? ==>
              && calls == (if maxRetries > 0 then maxRetries else 0)
              && (forall k :: 0 <= k < calls ==> Retried(outcomes[k], start, timeout))
              && slept == TotalDelay(retryDelay, calls)
    ensures !ending.GaveUp? ==>
              && 0 < calls
              && (forall k :: 0 <= k < calls - 1 ==> Retried(outcomes[k], start, timeout))
              && !Retried(outcomes[calls - 1], start, timeout)
              && slept == TotalDelay(retryDelay, calls - 1)
              && ending == (match outcomes[calls - 1]
                            case Returns(v) => Succeeded(v)
                            case Throws(message, _) => Rethrown(message))
    ensures slept <= TotalDelay(retryDelay, if maxRetries > 0 then maxRetries else 0)
    ensures Monotone(outcomes, start, retryDelay) && slept > 0 ==> slept <= timeout + MAX_DELAY
  {
    calls, slept := 0, 0;
    var attempt := 1;
    while attempt <= maxRetries
      invariant 1 <= attempt
      invariant calls == attempt - 1 <= if maxRetries > 0 then maxRetries else 0
      invariant forall k :: 0 <= k < calls ==> Retried(outcomes[k], start, timeout)
      invariant slept == TotalDelay(retryDelay, calls)
    {
      TotalDelayMonotone(retryDelay, calls, maxRetries);
      if calls > 0 {
        LastSleepBound(outcomes, start, retryDelay, timeout, calls);
      }
      var outcome := outcomes[calls];
      calls := calls + 1;
      match outcome {
        case Returns(v) =>
          return Succeeded(v), calls, slept;
        case Throws(message, clock) =>
          var elapsed := clock - start;
          if !Retryable(message) || elapsed > timeout {
            return Rethrown(message), calls, slept;
          }
          var backoff := retryDelay * Pow2(attempt - 1);
          slept := slept + if backoff < MAX_DELAY then backoff else MAX_DELAY;
      }
      attempt := attempt + 1;
    }
    if calls > 0 {
      LastSleepBound(outcomes, start, retryDelay, timeout, calls);
    }
    ending := GaveUp;
  }

  /** All sleeps but the last are over when the last retried failure is within the limit. */
  lemma LastSleepBound<T>(outcomes: seq<Outcome<T>>, start: int, retryDelay: nat, timeout: int, n: nat)
    requires 0 < n <= |outcomes| && Retried(outcomes[n - 1], start, timeout)
    ensures Monotone(outcomes, start, retryDelay) ==> TotalDelay(retryDelay, n) <= timeout + MAX_DELAY
  {
  }

  /** retryOperation: any failure is waited out, until the calls are used up. */
  method RetryOperation<T>(outcomes: seq<Outcome<T>>, maxRetries: int, retryInterval: nat)
    returns (ending: Ending<T>, calls: nat, slept: nat)
    requires |outcomes| >= maxRetries
    ensures calls <= if maxRetries > 0 then maxRetries else 0
    ensures ending.GaveUp? ==>
              && calls == (if maxRetries > 0 then maxRetries else 0)
              && (forall k :: 0 <= k < calls ==> outcomes[k].Throws?)
    ensures !ending.GaveUp? ==>
              && 0 < calls && (forall k :: 0 <= k < calls - 1 ==> outcomes[k].Throws?)
              && outcomes[calls - 1].Returns? && ending == Succeeded(outcomes[calls - 1].value)
    // it sleeps between calls only, never after the last
    ensures slept == if calls == 0 then 0 else (calls - 1) * retryInterval
  {
    calls, slept := 0, 0;
    var attempt := 1;
    while attempt <= maxRetries
      invariant calls == attempt - 1 <= if maxRetries > 0 then maxRetries else 0
      invariant forall k :: 0 <= k < calls ==> outcomes[k].Throws?
      invariant slept == (if calls == 0 || calls < maxRetries then calls else calls - 1) * retryInterval
    {
      calls := calls + 1;
      match outcomes[attempt - 1] {
        case Returns(v) =>
          return Succeeded(v), calls, slept;
        case Throws(_, _) =>
          if attempt < maxRetries {
            slept := slept + retryInterval;
          }
      }
      attempt := attempt + 1;
    }
    ending := GaveUp;
  }
}
