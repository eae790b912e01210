/** Failure-carrying values standing for JavaScript's `null` and thrown `Error`s. */
module Wrappers {

  /** A value that may be absent (`null` / `undefined` in the source). */
  datatype Option<+T> = None | Some(value: T)

  /** The outcome of an operation that either returns a value or throws an `Error`
      whose `message` is kept. */
  datatype Result<+T> = Ok(value: T) | Err(message: string)

  /** The outcome of an awaited call whose value is not used. */
  datatype Outcome = Pass | Fail(message: string)
}
