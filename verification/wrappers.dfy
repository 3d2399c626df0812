/** Optional values and success/failure results, used where the application
    works with `null`, `NaN` or an error message. */
module Wrappers {

  /** `None` stands for JavaScript's `null` (or, for parsed numbers, `NaN`). */
  datatype Option<+T> = None | Some(value: T)

  datatype Result<+R, +E> = Success(value: R) | Failure(error: E)
}
