/** Failure-carrying wrappers shared by every part of the model. */
module Outcomes {

  datatype Option<+T> = None | Some(value: T)

  /** The errors the plugin raises (or lets JavaScript raise) on its own code paths. */
  datatype Error =
    | ConfigError(message: string)  // thrown by the option check
    | BatchError(message: string)   // passed to the bulk-insert callback
    | TypeError                     // raised by the JavaScript runtime or by Node's crypto

  datatype Result<+T> = Ok(value: T) | Err(error: Error)
}
