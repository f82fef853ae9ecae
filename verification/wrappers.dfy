/** The error-carrying result used where the plugin returns a Go `error`. */
module Wrappers {

  /** Either a value or the text of the error the Go code would return. */
  datatype Result<+T> = Ok(value: T) | Err(error: string)
}
