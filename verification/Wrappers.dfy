/** The shared optional value: a result, or nothing where the code throws or finds nothing. */
module Wrappers {
  datatype Option<+T> = None | Some(value: T)
}
