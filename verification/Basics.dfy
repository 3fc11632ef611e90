/** Small shared vocabulary. */
module Basics {
  datatype Option<+T> = None | Some(value: T)

  function Min(a: int, b: int): int { if a <= b then a else b }

  const SECOND := 1_000_000_000

  /** A time as the API server stores it: whole seconds, rounded down. */
  function Stored(t: int): (r: int)
    ensures t - SECOND < r <= t
  {
    t - t % SECOND
  }

  /** The later of two optional times. */
  function Latest(a: Option<int>, b: int): Option<int> {
    if a.None? || a.value < b then Some(b) else a
  }
}
