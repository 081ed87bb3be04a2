/** The error-carrying result used where the analyser can raise. */
module Wrappers {

  datatype Result<+T, +E> = Success(value: T) | Failure(error: E)
}
