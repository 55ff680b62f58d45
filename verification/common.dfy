/**
 * Shared vocabulary: optional values, the error kinds raised by the two
 * implementations (`app/utils/exceptions.py` and `utils/exceptions.py`) and
 * the result of an operation that either returns a value or raises.
 */
module Common {

  datatype Option<+T> = None | Some(value: T) {
    function GetOr(default: T): T {
      match this
      case Some(v) => v
      case None => default
    }
  }

  /** The exception classes of both implementations, by name.  The class
   *  hierarchies carry no behaviour; only the class that is raised matters. */
  datatype ErrorKind =
    | ValidationError
    | ConfigurationError
    | DownloadError
    | ProcessingError
    | GoogleSheetsError
    | GoogleDriveError
    | YouTubeDataError
    | NotImplementedError

  /** A raised exception: its class and its message (`str(e)`). */
  datatype Error = Error(kind: ErrorKind, msg: string)

  /** A call that returns a value or raises. */
  datatype Result<+T> = Ok(value: T) | Err(error: Error)

  /** A call that returns nothing or raises. */
  datatype Outcome = Pass | Fail(error: Error)
}
