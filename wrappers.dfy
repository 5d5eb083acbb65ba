/** Optional values (JavaScript `null` / `undefined`) and results of operations that
    may throw (a thrown error becomes `Failure` carrying its message). */
module Wrappers {

  /** `None` stands for JavaScript's `null` or `undefined`. */
  datatype Option<T> = None | Some(value: T)

  /** `Failure(message)` stands for an `Error` thrown with that message. */
  datatype Result<T> = Success(value: T) | Failure(error: string)
}
