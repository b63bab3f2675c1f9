/** Option and Result, used for the firmware's NULL returns and the planner's ValueError raises. */
module Wrappers {
  datatype Option<+T> = None | Some(value: T)

  datatype Result<+T, +E> = Success(value: T) | Failure(error: E)
}
