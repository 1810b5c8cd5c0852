/** Optional values and Swift's `Result`, shared by the other modules. */
module Wrappers {

  /** Swift's `Optional`: `nil` or a wrapped value. */
  datatype Option<+T> = None | Some(value: T)

  /** Swift's `Result<Success, Failure>`. */
  datatype Result<+R, +E> = Success(value: R) | Failure(error: E)
}
