/** Stock failure-carrying datatypes used throughout the model. */
module Wrappers {

  /** A possibly absent value: JavaScript's `undefined`/`null` become `None`. */
  datatype Option<+T> = None | Some(value: T)

  /** The outcome of an operation that can fail: a thrown exception or a
      rejected promise becomes `Failure`. */
  datatype Result<+R, +E> = Success(value: R) | Failure(error: E)
}
