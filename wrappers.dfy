/** Failure-carrying values: JavaScript's `undefined` results become Option,
    thrown errors and rejected promises become Result and Outcome. */
module Wrappers {

  datatype Option<+T> = None | Some(value: T)

  datatype Result<+T, +E> = Success(value: T) | Failure(error: E)

  /** The result of an operation that returns nothing (`void`) but may throw. */
  datatype Outcome<+E> = Pass | Fail(error: E)

  /** A thrown JavaScript `Error`, identified by its message. */
  datatype Error = Error(message: string)
}
