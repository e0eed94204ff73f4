/** Publisher options, their normalisation, and the retry delay.
    Durations are integers (nanoseconds in the source). */
module PublisherOptions {
  type Duration = int

  const DEFAULT_BATCH_SIZE: int := 50
  const SECOND: Duration := 1_000_000_000
  const DEFAULT_POLL_INTERVAL: Duration := 5 * SECOND
  const DEFAULT_LEASE_DURATION: Duration := 30 * SECOND
  const DEFAULT_MAX_ATTEMPTS: int := 5
  const DEFAULT_INITIAL_BACKOFF: Duration := 30 * SECOND
  const DEFAULT_MAX_BACKOFF: Duration := 300 * SECOND
  const DEFAULT_ERROR_LENGTH: int := 4096

  datatype Options = Options(
    enabled: bool,
    batchSize: int,
    pollInterval: Duration,
    leaseDuration: Duration,
    maxAttempts: int,
    initialRetryBackoff: Duration,
    maxRetryBackoff: Duration,
    errorMessageMaxLength: int)

  /** What every publisher built by NewPublisher may rely on. */
  predicate Normalized(o: Options) {
    && 0 < o.batchSize
    && 0 < o.pollInterval
    && 0 < o.leaseDuration
    && 0 < o.maxAttempts
    && 0 < o.initialRetryBackoff <= o.maxRetryBackoff
    && 0 < o.errorMessageMaxLength
  }

  /** Every non-positive field becomes its default, then the cap is raised to the initial
      delay. Options that are already normal are left alone, so normalising twice is
      normalising once. */
  method NormalizePublisherOptions(options: Options) returns (o: Options)
    ensures Normalized(o)
    ensures Normalized(options) ==> o == options
    ensures o.enabled == options.enabled
    ensures o.batchSize == if options.batchSize <= 0 then 50 else options.batchSize
    ensures o.pollInterval == if options.pollInterval <= 0 then 5_000_000_000 else options.pollInterval
    ensures o.leaseDuration == if options.leaseDuration <= 0 then 30_000_000_000 else options.leaseDuration
    ensures o.maxAttempts == if options.maxAttempts <= 0 then 5 else options.maxAttempts
    ensures o.initialRetryBackoff == if options.initialRetryBackoff <= 0 then 30_000_000_000 else options.initialRetryBackoff
    ensures var cap := if options.maxRetryBackoff <= 0 then 300_000_000_000 else options.maxRetryBackoff;
            o.maxRetryBackoff == if cap < o.initialRetryBackoff then o.initialRetryBackoff else cap
    ensures o.errorMessageMaxLength == if options.errorMessageMaxLength <= 0 then 4096 else options.errorMessageMaxLength
  {
    var Options(enabled, batchSize, pollInterval, leaseDuration, maxAttempts,
                initialRetryBackoff, maxRetryBackoff, errorMessageMaxLength) := options;
    if batchSize <= 0 { batchSize := DEFAULT_BATCH_SIZE; }
    if pollInterval <= 0 { pollInterval := DEFAULT_POLL_INTERVAL; }
    if leaseDuration <= 0 { leaseDuration := DEFAULT_LEASE_DURATION; }
    if maxAttempts <= 0 { maxAttempts := DEFAULT_MAX_ATTEMPTS; }
    if initialRetryBackoff <= 0 { initialRetryBackoff := DEFAULT_INITIAL_BACKOFF; }
    if maxRetryBackoff <= 0 { maxRetryBackoff := DEFAULT_MAX_BACKOFF; }
    if maxRetryBackoff < initialRetryBackoff { maxRetryBackoff := initialRetryBackoff; }
    if errorMessageMaxLength <= 0 { errorMessageMaxLength := DEFAULT_ERROR_LENGTH; }
    o := Options(enabled, batchSize, pollInterval, leaseDuration, maxAttempts,
                 initialRetryBackoff, maxRetryBackoff, errorMessageMaxLength);
  }

  // Retry delay

  function Pow2(n: nat): nat {
    if n == 0 then 1 else 2 * Pow2(n - 1)
  }

  function Min(a: int, b: int): int { if a < b then a else b }

  function Max(a: int, b: int): int { if a < b then b else a }

  /** The delay before the next attempt, over mathematical integers: a product that is not
      positive or exceeds the cap becomes the cap. */
  function RetryBackoff(o: Options, attempts: int): Duration {
    var attempt: nat := if attempts < 1 then 1 else attempts;
    var backoff := o.initialRetryBackoff * Pow2(attempt - 1);
    if backoff <= 0 || backoff > o.maxRetryBackoff then o.maxRetryBackoff else backoff
  }

  lemma {:induction false} Pow2Positive(n: nat)
    ensures 1 <= Pow2(n)
  {
    if n > 0 { Pow2Positive(n - 1); }
  }

  lemma {:induction false} Pow2Monotone(m: nat, n: nat)
    requires m <= n
    ensures Pow2(m) <= Pow2(n)
    decreases n
  {
    if m < n { Pow2Monotone(m, n - 1); }
  }

  lemma ScaleMonotone(k: int, a: int, b: int)
    requires 0 < k && a <= b
    ensures k * a <= k * b
  {}

  /** The delay is the capped exponential, for every attempt count the source can pass. */
  lemma RetryBackoffIsCappedExponential(o: Options, attempts: int)
    requires Normalized(o)
    ensures RetryBackoff(o, attempts) ==
            Min(o.initialRetryBackoff * Pow2(Max(attempts, 1) - 1), o.maxRetryBackoff)
    ensures o.initialRetryBackoff <= RetryBackoff(o, attempts) <= o.maxRetryBackoff
  {
    Pow2Positive(Max(attempts, 1) - 1);
    ScaleMonotone(o.initialRetryBackoff, 1, Pow2(Max(attempts, 1) - 1));
  }

  /** More attempts never shorten the delay. */
  lemma RetryBackoffMonotone(o: Options, a: int, b: int)
    requires Normalized(o) && a <= b
    ensures RetryBackoff(o, a) <= RetryBackoff(o, b)
  {
    RetryBackoffIsCappedExponential(o, a);
    RetryBackoffIsCappedExponential(o, b);
    Pow2Monotone(Max(a, 1) - 1, Max(b, 1) - 1);
    ScaleMonotone(o.initialRetryBackoff, Pow2(Max(a, 1) - 1), Pow2(Max(b, 1) - 1));
  }

  /** The first delay is the initial one, each further attempt doubles it, and the cap ends
      the doubling. */
  lemma RetryBackoffDoubles(o: Options, attempts: int)
    requires Normalized(o)
    ensures attempts <= 1 ==> RetryBackoff(o, attempts) == o.initialRetryBackoff
    ensures attempts >= 1 ==>
              var twice := 2 * RetryBackoff(o, attempts);
              RetryBackoff(o, attempts + 1) == if twice <= o.maxRetryBackoff then twice else o.maxRetryBackoff
  {
    RetryBackoffIsCappedExponential(o, attempts);
    if attempts >= 1 {
      RetryBackoffIsCappedExponential(o, attempts + 1);
      Twice(o.initialRetryBackoff, Pow2(attempts - 1));
    }
  }

  lemma Twice(k: int, n: int)
    ensures k * (2 * n) == 2 * (k * n)
  {}
}
