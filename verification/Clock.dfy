/** Time in nanoseconds, and in the whole seconds DynamoDB's TTL attribute counts. */
module Clock {

  const SECOND := 1_000_000_000

  function Unix(t: int): int { t / SECOND }
}
