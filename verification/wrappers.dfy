/** Optional values and results with an error, used for the nullable returns and exceptions of the Kotlin code. */
module Wrappers {

  datatype Option<+T> = None | Some(value: T)

  datatype Result<+T, +E> = Success(value: T) | Failure(error: E)
}
