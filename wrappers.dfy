/** Success/failure outcome of a call into an external collaborator. */
module Wrappers {

  /** `Ok` carries the collaborator's value, `Err` the text of the error it raised. */
  datatype Result<+T> = Ok(value: T) | Err(error: string)
}
