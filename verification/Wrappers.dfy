/** The two result shapes the model needs: an optional value, and a computation that may throw. */
module Wrappers {
  datatype Option<+T> = None | Some(value: T)

  /** `Failure` stands for an exception that leaves the C++ function. */
  datatype Result<+T> = Success(value: T) | Failure(message: string)
}
