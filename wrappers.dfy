/** Option and Result, and the Python exception kinds the modelled code raises or catches. */
module Wrappers {

  datatype Option<+T> = None | Some(value: T)

  /** The exceptions that surface in the modelled operations. */
  datatype Error =
    | KeyError          // dict lookup or `remove` on an absent key
    | IndexError        // list index out of range
    | TypeError         // calling None, iterating None
    | AttributeError    // attribute access on None
    | ShutdownError     // RuntimeError("Executor is shutting down", SHUTDOWN)

  datatype Result<+T> = Ok(value: T) | Err(error: Error)
}
