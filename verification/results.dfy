/** The error model shared by every layer: a value, or the reason there is none. */
module Results {

  datatype ErrorCode = InvalidArgument | Transport | Protocol | Device | Crypto | Io

  datatype Error = Error(code: ErrorCode, message: string)

  datatype Result<+T> = Ok(value: T) | Err(error: Error)

  /** The outcome of an operation that has nothing to report. */
  type Status = Result<()>

  datatype Option<+T> = None | Some(value: T)
}
