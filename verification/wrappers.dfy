/** Wrapper datatypes shared by the modules of this model: Java's nullable
    references become `Option`, operations that may throw return a `Result`. */
module Wrappers {

  /** A value that may be absent (a Java reference that may be null). */
  datatype Option<+T> = None | Some(value: T)

  /** The outcome of an operation that either returns a value or raises an error. */
  datatype Result<+R, +E> = Success(value: R) | Failure(error: E)
}
