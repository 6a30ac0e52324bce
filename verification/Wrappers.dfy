/** Optional values, success-or-error results and network faults shared by the other modules. */
module Wrappers {

  datatype Option<+T> = None | Some(value: T)

  datatype Result<+T, +E> = Ok(value: T) | Err(error: E)

  /** What the network does to a request: nothing, fail before the server sees it, or lose the reply. */
  datatype Fault = NoFault | NotSent | ReplyLost
}
