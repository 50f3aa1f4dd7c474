/** Option, Outcome and Result: the absent values and thrown errors of the town service. */
module Wrappers {
  /** A JavaScript value that may be `undefined`. */
  datatype Option<T> = None | Some(value: T)

  /** A call that returns nothing, or throws `error`. */
  datatype Outcome<E> = Pass | Fail(error: E)

  /** A call that returns `value`, or throws `error`. */
  datatype Result<T, E> = Success(value: T) | Failure(error: E)
}
