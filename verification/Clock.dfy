/** Go's time.Since. Times and durations are counted in nanoseconds. */
module Clock {
  import opened Wrappers

  const MAX_DURATION: int := 0x7fff_ffff_ffff_ffff
  const MIN_DURATION: int := -0x8000_0000_0000_0000

  predicate IsDuration(d: int) { MIN_DURATION <= d <= MAX_DURATION }

  /** time.Since saturates; None is the zero time, further back than any duration reaches. */
  function Since(now: int, past: Option<int>): int
  {
    if past.None? || now - past.value > MAX_DURATION then MAX_DURATION
    else if now - past.value < MIN_DURATION then MIN_DURATION
    else now - past.value
  }

  /** Against a duration the saturating difference compares like the exact one; the zero time is always
      further back. */
  lemma {:induction false} SinceExactly(now: int, past: Option<int>, d: int)
    requires IsDuration(d) && d != MIN_DURATION
    ensures Since(now, past) >= d <==> past.None? || now - past.value >= d
    ensures Since(now, past) > d <==> d != MAX_DURATION && (past.None? || now - past.value > d)
  {
  }
}
