/** Instants and dates as every component measures them. */
module Calendar {
  /** Whole microseconds since the epoch, in UTC. */
  type Instant = int

  /** Whole days since the epoch. */
  type Day = int

  const SECOND: Instant := 1_000_000
  const HOUR: Instant := 3_600 * SECOND
  const DAY: Instant := 24 * HOUR

  /** The date of an instant: dates are floors, also before the epoch. */
  function DateOf(at: Instant): Day { at / DAY }

  /** A date is the day that the instant falls on. */
  lemma DateHoldsInstant(at: Instant)
    ensures DateOf(at) * 86_400_000_000 <= at < (DateOf(at) + 1) * 86_400_000_000
  {
  }
}
