/** Failure-carrying values shared by every module: the PHP code signals
    "absent" with null and failures with exceptions carrying a message. */
module Results {

  /** A value that may be missing (a nullable PHP value). */
  datatype Option<+T> = None | Some(value: T) {
    /** PHP's `$x ?? $default`. */
    function GetOr(default: T): T {
      if Some? then value else default
    }
  }

  /** Either a value or the message of the exception the PHP code throws. */
  datatype Result<+T> = Ok(value: T) | Err(message: string)

  /** The outcome of a PHP `void` operation that may throw. */
  datatype Outcome = Pass | Fail(message: string)
}
