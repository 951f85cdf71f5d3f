/** The optional value used for the nullable results of the engine (JavaScript's `null`). */
module Wrappers {
  datatype Option<+T> = None | Some(value: T)
}
