/** Option and Result values used in place of Python's None and exceptions. */
module Wrappers {

  datatype Option<+T> = None | Some(value: T) {
    function GetOr(default: T): T {
      match this
      case Some(v) => v
      case None => default
    }
  }

  /** The error kinds the modelled code raises or reports. */
  datatype Error =
    | ValueError(message: string)   // a malformed value (Python ValueError, failed int()/strptime())
    | KeyError(message: string)     // a dictionary or configuration lookup of a missing key
    | TypeError(message: string)    // an operation applied to a value of the wrong type
    | ZeroDivisionError             // a division by zero
    | IndexError(message: string)   // a list index out of range
    | StoreError                    // the sqlite store failed: the transaction is rolled back
    | Refused(message: string)      // a guard of the user interface refused the operation
    | Exception(message: string)    // a plain Exception raised by the program itself

  datatype Result<+T> = Ok(value: T) | Err(error: Error)
}
