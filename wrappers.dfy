/**
 * Optional values and results with an error description, standing in for Java's
 * nullable references, java.util.Optional and thrown exceptions.
 */
module Wrappers {
  datatype Option<T> = None | Some(value: T)
  {
    function GetOr(default: T): (r: T)
      ensures Some? ==> r == value
      ensures None? ==> r == default
    {
      match this
      case Some(v) => v
      case None => default
    }
  }

  /** The exception classes the modelled code throws, reduced to their kind. */
  datatype ErrorKind =
    | IllegalArgument
    | IllegalState
    | IndexOutOfBounds
    | NoSuchElement
    | Runtime
    | EmptyStack

  datatype Error = Error(kind: ErrorKind, message: string)

  datatype Result<T> = Success(value: T) | Failure(error: Error)
}
