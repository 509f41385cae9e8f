/** Values that stand for Python's `None` and for exceptions raised by the
    bot's code or by the services it calls. */
module Outcomes {

  datatype Option<+T> = None | Some(value: T)

  /** The exception classes the bot's code can raise or let through.
      `ServiceError` covers whatever a remote client library raises that is
      not a `ValueError` (connection errors, API errors, contract reverts). */
  datatype Exception =
    | ValueError(message: string)
    | KeyError(key: string)
    | TypeError(message: string)
    | ServiceError(message: string)

  /** The result of a Python call: a value, or an exception in flight. */
  datatype Outcome<+T> = Ok(value: T) | Raise(error: Exception)
}
