/**
 * The error vocabulary shared by every component: the error-code enumeration of
 * boxerd/error/error.go and the result shapes the Go code expresses as
 * `(value, error)` pairs, `nil` pointers and plain `error` returns.
 * Error messages and the wrapped `Origin` chain are not modelled: only the code.
 */
module Errors {

  /** BoxerErrorCode, in declaration order. `Full` is the extra code the client
      facade reports when no VM can be handed out; it belongs to the client's own
      copy of the error package. */
  datatype ErrorCode =
    | SystemError
    | InternalError
    | InvalidConfig
    | InvalidArgument
    | InvalidState
    | InvalidOperation
    | Timeout
    | Full

  /** A Go pointer that may be nil. */
  datatype Option<+T> = None | Some(value: T)

  /** A Go `(T, error)` pair where exactly one side is meaningful. */
  datatype Result<+T> = Ok(value: T) | Err(code: ErrorCode)

  /** A Go `error` return: nil, or an error carrying a code. A panic with a
      BoxerError is also reported as `Fail`, and documented as such where it occurs. */
  datatype Outcome = Pass | Fail(code: ErrorCode)
}
