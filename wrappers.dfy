/** Wrappers shared by the modules of this project. */
module Wrappers {

  /** A value that may be absent: the model of a C# nullable reference. */
  datatype Option<+T> = None | Some(value: T)

  /** Either a value or an error; the model of an operation that may throw. */
  datatype Result<+T, +E> = Success(value: T) | Failure(error: E)
}
