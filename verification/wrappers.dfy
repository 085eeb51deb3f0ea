/** Optional values, results and outcomes shared by every module of the model.
    Go's `(T, error)` pairs become `Result`, a bare `error` return becomes `Outcome`,
    and a nil pointer becomes `None`. */
module Wrappers {

  datatype Option<+T> = None | Some(value: T)

  datatype Result<+T> = Ok(value: T) | Err(error: string)

  /** A Go function that returns only an `error`: `Pass` is a nil error. */
  datatype Outcome = Pass | Fail(error: string)

  /** `errors.Wrap(err, msg).Error()` renders as the message, a colon and the cause. */
  function Wrap(msg: string, cause: string): string
  {
    msg + ": " + cause
  }
}
