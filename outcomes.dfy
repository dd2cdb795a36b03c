/** Optional values and error-carrying results shared by the other modules. */
module Outcomes {

  /** A value that may be absent. */
  datatype Option<+T> = None | Some(value: T)

  /** Either a value or the message of the error the source throws instead. */
  datatype Result<+T> = Ok(value: T) | Err(message: string)
}
