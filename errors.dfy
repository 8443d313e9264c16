/** The Python exceptions the core raises or catches, and the two result
    shapes used for them: an operation either returns a value or raises. */
module Errors {

  datatype Option<+T> = None | Some(value: T)

  /** The exceptions of the core, by their Python class. */
  datatype Exception =
    | ValueError(message: string)   // unknown protocol, int() failure, invalid option
    | TypeError                     // a dict or a list used as a dictionary key
    | AttributeError(name: string)  // a member missing from a library enumeration
    | TransportError                // whatever the device transport raised

  /** A call that returns a value of type T or raises. */
  datatype Result<+T> = Ok(value: T) | Err(error: Exception)

  /** A call that returns nothing or raises. */
  datatype Outcome = Done | Failed(error: Exception)
}
