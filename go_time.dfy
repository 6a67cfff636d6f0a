/** The parts of Go's `time` package the core relies on.

    An instant is a count of nanoseconds since the Unix epoch, which is what
    `time.Time` comparisons (`Before`, `Compare`) and `Add` reduce to. */
module GoTime {

  type Instant = int

  const Nanosecond: int := 1
  const Second: int := 1_000_000_000
  const Minute: int := 60 * Second
  const Hour: int := 60 * Minute

  /** `t.Unix()`: whole seconds since the epoch, rounded down (also for instants before 1970). */
  function Unix(t: Instant): (s: int)
    ensures s * Second <= t < (s + 1) * Second
  {
    t / Second
  }

  /** `t.Add(d).Unix()` for a whole number of seconds `d` is `t.Unix()` plus those seconds. */
  lemma UnixAddSeconds(t: Instant, k: int)
    ensures Unix(t + k * Second) == Unix(t) + k
  {
  }

  /** A later instant never has an earlier Unix second. */
  lemma UnixMonotone(t: Instant, u: Instant)
    requires t <= u
    ensures Unix(t) <= Unix(u)
  {
  }
}
