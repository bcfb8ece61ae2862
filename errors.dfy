/** Values shared by every layer of the ServerQuery stack: optional values,
    results, and the errors the Go code returns as `error` values. */
module Errors {

  datatype Option<+T> = None | Some(value: T)

  /** Go's `(T, error)` pair: the value is meaningful only when the error is nil. */
  datatype Result<+T> = Ok(value: T) | Err(error: Error)

  /** The errors the query stack produces or passes through. */
  datatype Error =
    | IoFailure(reason: string)          // dial, read, write or deadline failure of the channel
    | ServerError(id: string, msg: string) // a terminator line whose id is not "0"; msg already unescaped
    | LoginFailed(cause: Error)           // the `login` command of the TCP handshake failed
    | PoolTimeout                         // no idle session and no free slot within the wait

  /** The text Go renders for each error (`err.Error()`). */
  function Message(e: Error): string
  {
    match e
    case IoFailure(reason) => reason
    case ServerError(id, msg) => "TS3 error " + id + ": " + msg
    case LoginFailed(cause) => "login failed: " + Message(cause)
    case PoolTimeout => "timeout waiting for connection from pool"
  }
}
