/** Results of the protocol stack. */
module Errors {
  datatype Error =
    | Io
    | InvalidFrame
    | InvalidBase94
    | ChecksumMismatch
    | InvalidSessionId
    | HandshakeFailed
    | FlagsMismatch
    | RoleRefused
    | FrameTooLarge
    | ZeroLength

  datatype Result<+T> = Ok(value: T) | Err(error: Error) {
    predicate IsFailure() { Err? }

    function PropagateFailure<U>(): Result<U>
      requires Err?
    {
      Err(error)
    }

    function Extract(): T
      requires Ok?
    {
      value
    }
  }
}
