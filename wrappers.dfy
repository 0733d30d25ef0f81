/** The optional value a Python variable holds when it may be `None`. */
module Wrappers {
  datatype Option<+T> = None | Some(value: T)
}
