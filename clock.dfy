/**
 * The countdown completion rule. Clock readings are natural numbers counting
 * nanoseconds (the resolution of Rust's `Instant`); the countdown compares
 * the whole seconds elapsed since the start against the wait time in seconds.
 */
module Clock {

  const NanosPerSecond: nat := 1_000_000_000

  /**
   * Whole seconds from `start` to `now` (`Instant::elapsed().as_secs()`): the
   * fraction of a second is truncated, and a reading before the start counts
   * as no time at all, since `Instant` subtraction saturates at zero.
   */
  function ElapsedSeconds(start: nat, now: nat): (secs: nat)
    ensures now <= start ==> secs == 0
    ensures now > start ==> secs * NanosPerSecond <= now - start < (secs + 1) * NanosPerSecond
  {
    if now <= start then 0 else (now - start) / NanosPerSecond
  }

  /** The countdown is over when the whole elapsed seconds reach the wait time. */
  predicate Completed(start: nat, waitSecs: nat, now: nat) {
    ElapsedSeconds(start, now) >= waitSecs
  }

  /**
   * The countdown is over exactly when the wait time is zero (then at the
   * first reading) or when `now` has reached `start + waitSecs` seconds; in
   * particular it is not over at any reading strictly before that instant.
   */
  lemma CompletedIff(start: nat, waitSecs: nat, now: nat)
    ensures Completed(start, waitSecs, now) <==>
              waitSecs == 0 || now >= start + waitSecs * NanosPerSecond
  {
    var secs := ElapsedSeconds(start, now);
    if waitSecs > 0 && now > start {
      if secs >= waitSecs {
        assert waitSecs * NanosPerSecond <= secs * NanosPerSecond;
      }
      if secs < waitSecs {
        assert (secs + 1) * NanosPerSecond <= waitSecs * NanosPerSecond;
      }
    }
  }

  /** Once over, the countdown stays over at every later reading. */
  lemma CompletedMonotone(start: nat, waitSecs: nat, now: nat, later: nat)
    requires now <= later && Completed(start, waitSecs, now)
    ensures Completed(start, waitSecs, later)
  {
    CompletedIff(start, waitSecs, now);
    CompletedIff(start, waitSecs, later);
  }

  /** Elapsed seconds never decrease as the clock advances. */
  lemma ElapsedMonotone(start: nat, now: nat, later: nat)
    requires now <= later
    ensures ElapsedSeconds(start, now) <= ElapsedSeconds(start, later)
  {
  }
}
