/** Failure-compatible wrappers shared by every module of the model. */
module Wrappers {

  /** An optional value. */
  datatype Option<+T> = None | Some(value: T)

  /** A value or the error that prevented computing it. */
  datatype Result<+R, +E> = Success(value: R) | Failure(error: E) {
    predicate IsFailure() { Failure? }

    function PropagateFailure<U>(): Result<U, E>
      requires Failure?
    {
      Failure(error)
    }

    function Extract(): R
      requires Success?
    {
      value
    }
  }

  /** The result of an operation that returns nothing but may fail. */
  datatype Outcome<+E> = Pass | Fail(error: E)

  /** A Java reference that may be null, such as a `String` field or argument. */
  datatype Nullable<+T> = Null | NonNull(value: T)
}

/** The Java exceptions that the modelled code throws or catches. */
module Exceptions {

  datatype Exception =
    | IllegalArgument(message: string)
    | IllegalState(message: string)
    | NullPointer
    | IO(message: string)
    | Runtime(message: string, cause: Exception)
    | NumberFormat(message: string)

  /** True for `IOException`, the only checked exception of the modelled code. */
  predicate IsIOException(e: Exception) {
    e.IO?
  }
}
