/** Result types shared by every module. */
module Prelude {

  /** Python's `T | None`. */
  datatype Option<+T> = None | Some(value: T)

  /** The outcome of an operation that may raise; `error` names the exception. */
  datatype Result<+T> = Success(value: T) | Failure(error: string)
}
