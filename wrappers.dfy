/** Small failure-carrying datatypes shared by the rest of the model. */
module Wrappers {

  /** A value that may be absent (JavaScript `undefined`/`null`). */
  datatype Option<+T> = None | Some(value: T)

  /** What a Node-style callback `(err, value)` receives: a value or an error. */
  datatype Result<+R, +E> = Success(value: R) | Failure(error: E)

  /** What a Node-style callback `(err)` receives: nothing, or an error. */
  datatype Outcome<+E> = Pass | Fail(error: E)
}
