/** Optional values and results with an error, shared by every module of the model.
    Kotlin's nullable types (`String?`, `ConsoleColor?`) become `Option`; a constructor
    that throws `IllegalArgumentException` becomes a function returning `Result`. */
module Wrappers {

  datatype Option<+T> = None | Some(value: T)

  datatype Result<+R, +E> = Success(value: R) | Failure(error: E)
}
