/** How often and how long HTTP requests are retried (src/http_source.rs). Durations are nanoseconds. */
module Retry {
  import opened Wrappers

  const MAX_HTTP_RETRY_ATTEMPTS: nat := 10
  const NANOS_PER_MILLI: nat := 1_000_000
  const MAX_HTTP_RETRY_DELAY: nat := 60_000 * NANOS_PER_MILLI
  const DURATION_MAX: nat := 0xFFFF_FFFF_FFFF_FFFF * 1_000_000_000 + 999_999_999

  datatype HttpRetryPolicy = HttpRetryPolicy(maxAttempts: nat, baseDelay: nat, maxDelay: nat)

  /** A failure that retrying cannot cure, or one that it may, perhaps with the server's Retry-After. */
  datatype Failure = Permanent | Transient(retryAfter: Option<nat>)

  datatype PolicyError = AttemptsOutOfRange | DelaysReversed | DelayTooLong

  predicate ValidPolicy(policy: HttpRetryPolicy) {
    && 1 <= policy.maxAttempts <= 10
    && policy.baseDelay <= policy.maxDelay <= 60_000_000_000
  }

  function NewPolicy(maxAttempts: nat, baseDelay: nat, maxDelay: nat): (r: Result<HttpRetryPolicy, PolicyError>)
    ensures r.Ok? <==> ValidPolicy(HttpRetryPolicy(maxAttempts, baseDelay, maxDelay))
    ensures r.Ok? ==> r.value == HttpRetryPolicy(maxAttempts, baseDelay, maxDelay)
  {
    if maxAttempts == 0 || maxAttempts > MAX_HTTP_RETRY_ATTEMPTS then Err(AttemptsOutOfRange)
    else if maxDelay < baseDelay then Err(DelaysReversed)
    else if maxDelay > MAX_HTTP_RETRY_DELAY then Err(DelayTooLong)
    else Ok(HttpRetryPolicy(maxAttempts, baseDelay, maxDelay))
  }

  function Min(a: nat, b: nat): nat {
    if a < b then a else b
  }

  function Pow2(n: nat): (p: nat)
    ensures p >= 1
  {
    if n == 0 then 1 else 2 * Pow2(n - 1)
  }

  lemma {:induction false} Pow2Grows(m: nat, n: nat)
    requires m <= n
    ensures Pow2(m) <= Pow2(n)
  {
    if m < n {
      Pow2Grows(m, n - 1);
    }
  }

  function SaturatingMul(duration: nat, factor: nat): nat {
    Min(duration * factor, DURATION_MAX)
  }

  /** The exponential ceiling on the delay after failure number `failed`, as the program computes it. */
  function Ceiling(policy: HttpRetryPolicy, failed: nat): nat {
    var exponent := Min(if failed == 0 then 0 else failed - 1, 31);
    Min(SaturatingMul(policy.baseDelay, Pow2(exponent)), policy.maxDelay)
  }

  /** Neither the cap on the exponent nor saturation changes the doubling that is meant. */
  lemma CeilingDoubles(policy: HttpRetryPolicy, failed: nat)
    requires ValidPolicy(policy) && 1 <= failed < policy.maxAttempts
    ensures Ceiling(policy, failed) == Min(policy.baseDelay * Pow2(failed - 1), policy.maxDelay)
  {
    assert Min(failed - 1, 31) == failed - 1;
    assert policy.maxDelay < DURATION_MAX;
  }

  /** Whatever the configuration, the ceiling never falls from one failure to the next. */
  lemma CeilingGrows(policy: HttpRetryPolicy, failed: nat)
    ensures Ceiling(policy, failed) <= Ceiling(policy, failed + 1) <= policy.maxDelay
  {
    var a, b := Min(if failed == 0 then 0 else failed - 1, 31), Min(failed, 31);
    Pow2Grows(a, b);
    Scale(policy.baseDelay, Pow2(a), Pow2(b));
  }

  lemma Scale(x: nat, a: nat, b: nat)
    requires a <= b
    ensures x * a <= x * b
  {
  }

  /** What the delay after one failure may be; `None` means that the failure is final. */
  predicate MayWait(policy: HttpRetryPolicy, failure: Failure, failed: nat, delay: Option<nat>) {
    if failed >= policy.maxAttempts || failure.Permanent? then delay == None
    else if failure.retryAfter.Some? then delay == Some(Min(failure.retryAfter.value, policy.maxDelay))
    else
      var ceiling := Ceiling(policy, failed);
      && delay.Some? && delay.value <= ceiling
      && ceiling < 2 * delay.value + 2 * NANOS_PER_MILLI
      && (delay.value == ceiling < 2 * NANOS_PER_MILLI || delay.value % NANOS_PER_MILLI == 0)
  }

  method DelayAfter(policy: HttpRetryPolicy, failure: Failure, failed: nat) returns (delay: Option<nat>)
    ensures MayWait(policy, failure, failed, delay)
    ensures delay.Some? ==> delay.value <= policy.maxDelay
  {
    hide Pow2, SaturatingMul;
    if failed >= policy.maxAttempts {
      return None;
    }
    match failure
    case Permanent => return None;
    case Transient(Some(retryAfter)) => return Some(Min(retryAfter, policy.maxDelay));
    case Transient(None) =>
      var ceiling := Ceiling(policy, failed);
      var ceilingMillis := ceiling / NANOS_PER_MILLI;
      if ceilingMillis <= 1 {
        return Some(ceiling);
      }
      var floorMillis := ceilingMillis / 2;
      var millis :| floorMillis <= millis <= ceilingMillis;
      delay := Some(millis * NANOS_PER_MILLI);
  }

  /** The request made over and over: what happens at each try. */
  type Attempts<T> = nat -> Result<T, Failure>

  predicate Retryable<T>(result: Result<T, Failure>) {
    result.Err? && result.error.Transient?
  }

  /**
   Tries until something other than a transient failure, at most `maxAttempts`
   times, and sleeps no longer than the policy allows for the tries it made.
   */
  method WithRetry<T>(policy: HttpRetryPolicy, attempt: Attempts<T>) returns (r: Result<T, Failure>, attempts: nat, slept: nat)
    requires ValidPolicy(policy)
    ensures 1 <= attempts <= policy.maxAttempts
    ensures r == attempt(attempts - 1)
    ensures forall k | 0 <= k < attempts - 1 :: Retryable(attempt(k))
    ensures attempts == policy.maxAttempts || !Retryable(r)
    ensures slept <= Times(attempts - 1, policy.maxDelay) <= Times(policy.maxAttempts - 1, policy.maxDelay)
    ensures (forall k | 0 <= k < attempts - 1 :: Unguided(attempt(k))) ==>
              slept <= TotalCeiling(policy, attempts - 1) <= 2 * slept + (attempts - 1) * 2 * NANOS_PER_MILLI
  {
    hide Ceiling, Times;
    attempts, slept := 0, 0;
    ghost var unguided := true;
    TimesFacts(policy.maxDelay);
    while true
      invariant attempts < policy.maxAttempts
      invariant forall k | 0 <= k < attempts :: Retryable(attempt(k))
      invariant unguided <==> forall k | 0 <= k < attempts :: Unguided(attempt(k))
      invariant slept <= Times(attempts, policy.maxDelay)
      invariant unguided ==> slept <= TotalCeiling(policy, attempts) <= 2 * slept + attempts * 2 * NANOS_PER_MILLI
      decreases policy.maxAttempts - attempts
    {
      r := attempt(attempts);
      if r.Ok? {
        attempts := attempts + 1;
        return;
      }
      var delay := DelayAfter(policy, r.error, attempts + 1);
      attempts := attempts + 1;
      if delay.None? {
        return;
      }
      unguided := unguided && Unguided(r);
      slept := slept + delay.value;
    }
  }

  predicate Unguided<T>(result: Result<T, Failure>) {
    result.Err? && result.error == Transient(None)
  }

  function Times(n: nat, d: nat): nat {
    n * d
  }

  lemma TimesFacts(d: nat)
    ensures Times(0, d) == 0
    ensures forall n: nat {:trigger Times(n + 1, d)} :: Times(n + 1, d) == Times(n, d) + d
    ensures forall m, n | 0 <= m <= n :: Times(m, d) <= Times(n, d)
  {
  }

  /** The sum of the ceilings of the first `n` delays. */
  function TotalCeiling(policy: HttpRetryPolicy, n: nat): nat {
    if n == 0 then 0 else TotalCeiling(policy, n - 1) + Ceiling(policy, n)
  }

  // --------------------------------------------------------------- response bodies

  datatype ReadError = Broken(after: nat) | EndedEarly(after: nat, expected: nat) | CountOverflow

  const U64_MAX: nat := 0xFFFF_FFFF_FFFF_FFFF

  /** A response body that counts what it delivers. */
  class HttpBodyReader {
    const expectedSize: nat
    var bytesRead: nat

    constructor (expectedSize: nat)
      ensures this.expectedSize == expectedSize && bytesRead == 0
    {
      this.expectedSize := expectedSize;
      bytesRead := 0;
    }

    /** `reply` is what the connection gave: a number of bytes, zero at the end, or an error. */
    method Read(reply: Option<nat>) returns (r: Result<nat, ReadError>)
      modifies this
      ensures r.Ok? ==> reply == Some(r.value) && bytesRead == old(bytesRead) + r.value
      ensures r == Ok(0) ==> bytesRead >= expectedSize
      ensures r.Err? ==> bytesRead == old(bytesRead)
      ensures r.Err? <==> || reply == None || (reply == Some(0) && bytesRead < expectedSize)
                          || (reply.Some? && reply.value > 0 && old(bytesRead) + reply.value > U64_MAX)
                          || (reply == Some(0) && old(bytesRead) > U64_MAX)
    {
      if reply.None? {
        return Err(Broken(bytesRead));
      }
      if reply.value == 0 && bytesRead < expectedSize {
        return Err(EndedEarly(bytesRead, expectedSize));
      }
      if bytesRead + reply.value > U64_MAX {
        return Err(CountOverflow);
      }
      bytesRead := bytesRead + reply.value;
      r := Ok(reply.value);
    }
  }

  function Sum(sizes: seq<nat>): nat {
    if sizes == [] then 0 else Sum(sizes[..|sizes| - 1]) + sizes[|sizes| - 1]
  }

  /**
   Reading to the end, as the store does: a body cut short is never taken for a
   whole one, however the connection divides it.
   */
  method ReadAll(expectedSize: nat, chunks: seq<nat>, breaks: bool) returns (r: Result<nat, ReadError>)
    requires forall i | 0 <= i < |chunks| :: chunks[i] > 0
    ensures r.Ok? <==> !breaks && expectedSize <= Sum(chunks) <= U64_MAX
    ensures r.Ok? ==> r.value == Sum(chunks)
  {
    var reader := new HttpBodyReader(expectedSize);
    for i := 0 to |chunks|
      invariant reader.bytesRead == Sum(chunks[..i]) <= U64_MAX
    {
      assert chunks[..i + 1][..i] == chunks[..i];
      var read := reader.Read(Some(chunks[i]));
      if read.Err? {
        SumGrows(chunks, i + 1);
        return Err(read.error);
      }
    }
    assert chunks[..|chunks|] == chunks;
    var last := reader.Read(if breaks then None else Some(0));
    r := if last.Err? then Err(last.error) else Ok(reader.bytesRead);
  }

  lemma {:induction false} SumGrows(sizes: seq<nat>, n: nat)
    requires n <= |sizes|
    ensures Sum(sizes[..n]) <= Sum(sizes)
  {
    if n < |sizes| {
      SumGrows(sizes[..|sizes| - 1], n);
      assert sizes[..|sizes| - 1][..n] == sizes[..n];
    } else {
      assert sizes[..n] == sizes;
    }
  }
}
