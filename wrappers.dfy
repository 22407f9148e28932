/** Failure-carrying values shared by the other modules: an optional value,
    a value-or-error, and a pass-or-fail status. */
module Wrappers {

  datatype Option<+T> = None | Some(value: T)

  datatype Result<+T, +E> = Ok(value: T) | Err(error: E) {
    /** The error part alone, as Go's `(value, err)` pair exposes it. */
    function Error(): Option<E> {
      match this
      case Ok(_) => None
      case Err(e) => Some(e)
    }
  }

  /** The status of a step that either carries on or aborts the process. */
  datatype Outcome<+E> = Pass | Fail(error: E)
}
