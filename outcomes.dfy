/**
 * How a Python call ends, as seen by its caller: it returns a value or it
 * raises an exception. The service and the handlers are modelled as pure
 * functions into these values.
 */
module Outcomes {

  /** An optional value; Python's `None` or an object. */
  datatype Option<+T> = None | Some(value: T)

  /** The exceptions the modelled code raises, catches or lets through. */
  datatype Exception =
    | ValueError(message: string)
      // any other subclass of Python's `Exception`, e.g. an integrity error raised by the ORM
    | OtherError(kind: string, message: string)
      // a class derived from `BaseException` but not from `Exception`, e.g. the
      // `CancelledError` of a cancelled await, `KeyboardInterrupt` or `SystemExit`
    | BaseOnly(kind: string, message: string)
  {
    /** Python's `str(error)` for an exception built from one message argument. */
    function Text(): string
    {
      message
    }
  }

  /** The end of a call: the value it returned, or the exception it raised. */
  datatype Outcome<+T> = Returned(value: T) | Raised(error: Exception)
}
