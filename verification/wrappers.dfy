/** Optional values and outcomes: `None` stands for a Java `null` or an empty `Optional`,
    `Failure` for an exception a service method throws. */
module Wrappers {

  datatype Option<+T> = None | Some(value: T)

  datatype Result<+T, +E> = Success(value: T) | Failure(error: E)
}
