/** Option and Result: JavaScript's `undefined` and thrown errors, as values. */
module Wrappers {

  /** A value that may be absent (`undefined` in the source). */
  datatype Option<+T> = None | Some(value: T)

  /** The outcome of an operation that throws in the source. */
  datatype Result<+T> = Success(value: T) | Failure(error: string)

  /** `x ?? d` */
  function GetOr<T>(o: Option<T>, d: T): T
  {
    match o
    case Some(v) => v
    case None => d
  }
}
