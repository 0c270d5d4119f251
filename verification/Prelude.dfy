/** Small shared vocabulary: options, extrema and the time scale. */
module Prelude {
  datatype Option<+T> = None | Some(value: T) {
    function GetOr(default: T): T {
      if None? then default else value
    }
  }

  /** A point in time or a duration in nanoseconds; 0 is Go's zero time. */
  type Time = int

  const SECOND: Time := 1_000_000_000
  const MINUTE: Time := 60 * SECOND

  /** A time as the store keeps it: in whole seconds. */
  function Unix(t: Time): (u: Time)
    ensures u <= t < u + SECOND && u % SECOND == 0
  {
    t - t % SECOND
  }

  lemma UnixMonotone(s: Time, t: Time)
    requires s <= t
    ensures Unix(s) <= Unix(t)
  {
  }

  function Max(a: int, b: int): int {
    if a < b then b else a
  }

  function Min(a: int, b: int): int {
    if a < b then a else b
  }
}
