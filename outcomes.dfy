/** Failure-carrying values shared by the model. */
module Outcomes {

  /** A value that may be absent (Python's `None`). */
  datatype Option<+T> = None | Some(value: T) {
    function GetOr(default: T): T {
      match this
      case Some(v) => v
      case None => default
    }
  }

  /** What one asyncio task hands to `gather(..., return_exceptions=True)`:
      either the coroutine's return value or the exception it raised. */
  datatype Outcome<+T> = Returned(value: T) | Raised
}
