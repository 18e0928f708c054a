/**
 * Failure-carrying values shared by the whole model: an optional value, the
 * Python exceptions the assistant raises and catches, and the outcome of an
 * operation that either returns normally or raises.
 */
module Errors {

  datatype Option<+T> = None | Some(value: T)

  /** The exception classes the assistant's code raises or catches by name. */
  datatype Exception =
    | ValueError(msg: string)
    | KeyError(msg: string)
    | IndexError(msg: string)
    /** Any other exception class, with its class name and its str() text. */
    | OtherError(kind: string, msg: string)

  /** A Python call either returns a value or raises an exception. */
  datatype Outcome<+T> = Ok(value: T) | Raised(exc: Exception)
}
