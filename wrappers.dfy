/** Option and Result, the two failure-carrying wrappers the model uses for
    Python's `None` results and raised exceptions. */
module Wrappers {

  datatype Option<+T> = None | Some(value: T)

  /** `Failure` stands for an exception the Python code raises. */
  datatype Result<+T, +E> = Success(value: T) | Failure(error: E)
}
