/** Small value helpers shared by the quiz session and the two record stores. */
module Common {

  /** A value that may be absent: a missing JSON field, a row that does not exist. */
  datatype Option<+T> = None | Some(value: T)

  /** The outcome of an operation that can fail with an error of type E. */
  datatype Result<+R, +E> = Success(value: R) | Failure(error: E)

  /** A numeric field read with a zero default (`x ?? 0`, `x || 0`). */
  function OrZero(x: Option<int>): int
  {
    if x.Some? then x.value else 0
  }

  /** `Math.max` on two integers. */
  function Max(a: int, b: int): (m: int)
    ensures a <= m && b <= m
    ensures m == a || m == b
  {
    if a < b then b else a
  }
}
