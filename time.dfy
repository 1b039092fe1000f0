/** `std::time::Duration`, kept as a whole number of nanoseconds
    (`Duration::new` carries surplus nanoseconds into seconds, so two
    durations are equal exactly when their nanosecond totals are). */
module Time {

  const NANOS_PER_SEC: nat := 1_000_000_000

  datatype Duration = Duration(nanos: nat)

  /** `Duration::new(secs, nanos)`. */
  function New(secs: nat, nanos: nat): Duration {
    Duration(secs * NANOS_PER_SEC + nanos)
  }

  /** `Duration::new(secs, 0)`. */
  function FromSecs(secs: nat): Duration {
    New(secs, 0)
  }
}
