// The publication grace period.

module Grace {
  const GRACE_PERIOD_US: nat := 100000

  // A stamp of 0 means "never published"; a stamp ahead of the clock is not old enough.
  predicate GraceElapsed(published: nat, now: nat) {
    published == 0 || (now >= published && now - published >= GRACE_PERIOD_US)
  }
}
