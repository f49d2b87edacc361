/** Optional values and results with an error, used where the app returns null or throws. */
module Wrappers {

  datatype Option<+T> = None | Some(value: T)

  /** `Err` stands for an exception the Kotlin code throws (or lets escape). */
  datatype Result<+T, +E> = Ok(value: T) | Err(error: E)
}
