/** Option and Result, the two failure-carrying wrappers the model uses. */
module Wrappers {

  datatype Option<+T> = None | Some(value: T)

  /** Outcome of a code-generation step: a value, or the message of the error it raised. */
  datatype Result<+T> = Ok(value: T) | Err(message: string)
}
