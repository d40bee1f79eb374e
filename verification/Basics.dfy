/** Shared vocabulary: optional values, results and the clock's unit. */
module Basics {

  datatype Option<+T> = None | Some(value: T) {
    function GetOr(default: T): T {
      if Some? then value else default
    }
  }

  datatype Result<+T, +E> = Ok(value: T) | Err(error: E)

  /** Instants and durations are nanoseconds, as in Go's `time` package. */
  const SECOND: int := 1_000_000_000

  /** Rounds down to a whole second (what `NewNumericDate` keeps of an instant). */
  function TruncateToSecond(t: int): (r: int)
    ensures r % SECOND == 0 && r <= t < r + SECOND
  {
    t / SECOND * SECOND
  }

  function Min(a: int, b: int): (r: int)
    ensures r <= a && r <= b && (r == a || r == b)
  {
    if a < b then a else b
  }

  function Max(a: int, b: int): (r: int)
    ensures r >= a && r >= b && (r == a || r == b)
  {
    if a < b then b else a
  }
}
