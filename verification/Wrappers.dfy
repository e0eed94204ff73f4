/** Optional values and results, for nil values and error returns, and how calls end. */
module Wrappers {
  datatype Option<+T> = None | Some(value: T)

  datatype Result<+R, +E> = Success(value: R) | Failure(error: E)

  /** How a call to another system ends: done, without effect, or with its effect but reported
      as failed. */
  datatype CallOutcome = Done | NotDone | Lost
}
