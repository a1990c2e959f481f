/** Small failure-carrying datatypes shared by the modules of this model. */
module Wrappers {

  datatype Option<+T> = None | Some(value: T)

  /** The exceptions the modelled code can raise, by the name Python or
      JavaScript gives them. */
  datatype Error =
    | IndexError
    | ValueError
    | ZeroDivisionError
    | TypeError
    | NotFound
    /** Whatever a call into the language model raised. */
    | ModelFailure

  datatype Result<+T> = Ok(value: T) | Err(error: Error)
}
