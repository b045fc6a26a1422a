/** Results of operations that can refuse, and values that can be absent. */
module Wrappers {

  /** A nullable column or an optional field. */
  datatype Option<+T> = None | Some(value: T)

  /** The outcome of an operation the service may refuse with an exception. */
  datatype Outcome<+T> = Ok(value: T) | Refused
}
