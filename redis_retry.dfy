/**
 * The reconnect policy handed to the Redis client of the todos service
 * (the `retry_strategy` option). Given what the client knows about the lost
 * connection, it either gives up with an error, returns `undefined`, or asks
 * for a reconnect after a delay in milliseconds.
 */
module RedisRetry {
  import opened Wrappers

  /** The error that ended the last connection; only its code is inspected. */
  datatype ConnectionError = ConnectionError(code: string)

  /** The options object the Redis client passes to the strategy. */
  datatype RetryOptions = RetryOptions(error: Option<ConnectionError>, totalRetryTimeMs: int, attempt: int)

  /** What the strategy returns. */
  datatype RetryDecision =
    | Fail(message: string)   // an Error object: the client stops reconnecting and reports it
    | Undefined               // `undefined`
    | ReconnectAfter(delayMs: int)

  const RefusedCode := "ECONNREFUSED"
  const RefusedMessage := "The server refused the connection"
  const ExhaustedMessage := "Retry time exhausted"
  /** One hour, written as 1000 * 60 * 60 in the source. */
  const MaxTotalRetryTimeMs := 1000 * 60 * 60
  const MaxAttempts := 10
  const DelayStepMs := 100
  const DelayCapMs := 2000

  /** `Math.min` on integers. */
  function Min(a: int, b: int): (m: int)
    ensures m <= a && m <= b && (m == a || m == b)
  {
    if a <= b then a else b
  }

  predicate Refused(o: RetryOptions) {
    o.error.Some? && o.error.value.code == RefusedCode
  }

  /**
   * The strategy. Its contract classifies every input: a refused connection
   * fails first of all; then an exhausted hour fails; then more than ten
   * attempts yield `undefined`; every other input gets a delay that is
   * exactly attempt * 100 ms, so the 2000 ms cap never takes effect.
   */
  function RetryStrategy(o: RetryOptions): (d: RetryDecision)
    ensures Refused(o) ==> d == Fail(RefusedMessage)
    ensures !Refused(o) && o.totalRetryTimeMs > MaxTotalRetryTimeMs ==> d == Fail(ExhaustedMessage)
    ensures d.Fail? <==> Refused(o) || o.totalRetryTimeMs > MaxTotalRetryTimeMs
    ensures d.Undefined? <==> !Refused(o) && o.totalRetryTimeMs <= MaxTotalRetryTimeMs && o.attempt > MaxAttempts
    ensures d.ReconnectAfter? <==> !Refused(o) && o.totalRetryTimeMs <= MaxTotalRetryTimeMs && o.attempt <= MaxAttempts
    ensures d.ReconnectAfter? ==>
      d.delayMs == o.attempt * DelayStepMs && d.delayMs <= MaxAttempts * DelayStepMs < DelayCapMs
  {
    if Refused(o) then
      Fail(RefusedMessage)
    else if o.totalRetryTimeMs > MaxTotalRetryTimeMs then
      Fail(ExhaustedMessage)
    else if o.attempt > MaxAttempts then
      Undefined
    else
      ReconnectAfter(Min(o.attempt * DelayStepMs, DelayCapMs))
  }

  /**
   * Over the attempts the client can actually reach this branch with (1 to 10),
   * the delay lies in [100, 1000] ms and grows strictly with the attempt.
   */
  lemma DelayGrowsWithAttempt(o1: RetryOptions, o2: RetryOptions)
    requires !Refused(o1) && !Refused(o2)
    requires o1.totalRetryTimeMs <= MaxTotalRetryTimeMs && o2.totalRetryTimeMs <= MaxTotalRetryTimeMs
    requires 1 <= o1.attempt < o2.attempt <= MaxAttempts
    ensures RetryStrategy(o1).ReconnectAfter? && RetryStrategy(o2).ReconnectAfter?
    ensures DelayStepMs <= RetryStrategy(o1).delayMs < RetryStrategy(o2).delayMs <= MaxAttempts * DelayStepMs
  {
  }
}
