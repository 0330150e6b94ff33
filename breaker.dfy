/**
 * The circuit breaker both providers keep: a count of consecutive failures and
 * the time the breaker was found open. The check is the same in both
 * providers apart from the threshold, the cooldown and what else a reset
 * clears; there is no half-open state that lets a single trial call through.
 */
module CircuitBreaker {
  import opened Wrappers

  /** `consecutive_failures` and `circuit_breaker_opened_at`. */
  datatype Breaker = Breaker(failures: nat, openedAt: Option<int>)

  /** The check lets the call through, or rejects it with the seconds left of the cooldown. */
  datatype Gate = Pass | Reject(remaining: int)

  /** When the breaker counts as opened for a check at `now`: the recorded time, or else `now`. */
  function OpenedAt(b: Breaker, now: int): int {
    if b.openedAt.Some? then b.openedAt.value else now
  }

  /**
   * `_check_circuit_breaker` at time `now`. It rejects exactly when the
   * threshold is reached and the cooldown, counted from the opening time, has
   * not passed; a rejection reports a positive number of seconds left and
   * records the opening time. A pass below the threshold changes nothing, and
   * a pass at or above it clears the breaker.
   */
  function Check(b: Breaker, now: int, threshold: nat, cooldown: int): (r: (Gate, Breaker))
    ensures r.0.Reject? <==> b.failures >= threshold && now - OpenedAt(b, now) < cooldown
    ensures r.0.Reject? ==> r.0.remaining > 0 && r.0.remaining == cooldown - (now - OpenedAt(b, now))
                            && r.1 == Breaker(b.failures, Some(OpenedAt(b, now)))
    ensures r.0.Pass? && b.failures < threshold ==> r.1 == b
    ensures r.0.Pass? && b.failures >= threshold ==> r.1 == Breaker(0, None)
  {
    if b.failures < threshold then (Pass, b)
    else
      var elapsed := now - OpenedAt(b, now);
      if elapsed < cooldown then (Reject(cooldown - elapsed), Breaker(b.failures, Some(OpenedAt(b, now))))
      else (Pass, Breaker(0, None))
  }

  /** The first check at or above the threshold records `now` as the opening time and rejects for the whole cooldown. */
  lemma OpensAtNow(b: Breaker, now: int, threshold: nat, cooldown: int)
    requires b.failures >= threshold && b.openedAt == None && cooldown > 0
    ensures Check(b, now, threshold, cooldown) == (Reject(cooldown), Breaker(b.failures, Some(now)))
  {
  }

  /** Checking twice at the same time gives the same answer and the same state as checking once. */
  lemma CheckIdempotent(b: Breaker, now: int, threshold: nat, cooldown: int)
    requires threshold >= 1
    ensures var r := Check(b, now, threshold, cooldown);
      Check(r.1, now, threshold, cooldown) == r
  {
  }

  /**
   * Once the breaker has been found open at `opened`, every check before
   * `opened + cooldown` rejects and the first one after clears it: a rejected
   * state stays rejected until the cooldown has passed.
   */
  lemma RejectsUntilCooldown(b: Breaker, t1: int, t2: int, threshold: nat, cooldown: int)
    requires Check(b, t1, threshold, cooldown).0.Reject?
    requires t1 <= t2
    ensures var r1 := Check(b, t1, threshold, cooldown);
      var r2 := Check(r1.1, t2, threshold, cooldown);
      (r2.0.Reject? <==> t2 - OpenedAt(b, t1) < cooldown)
      && (r2.0.Pass? ==> r2.1 == Breaker(0, None))
  {
  }
}
