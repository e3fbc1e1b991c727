/** Failure-carrying wrappers shared by the model: the Python code raises
    exceptions, the model returns them as values. */
module Common {

  datatype Option<+T> = None | Some(value: T)

  /** The exceptions the modelled code can raise on its own account. */
  datatype Error =
    | KeyError(key: string)              // a lookup or `pop` of a missing key, or a key a ModuleDict refuses
    | UnboundLocalError(variable: string) // a local read before it was assigned
    | TypeError(argument: string)         // a call that receives an argument twice

  datatype Result<+T> = Ok(value: T) | Err(error: Error)
}
