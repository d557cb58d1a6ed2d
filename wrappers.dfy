/** The Option datatype shared by the other modules. */
module Wrappers {

  /** A value that may be absent (a null pointer, an option that was not given). */
  datatype Option<+T> = None | Some(value: T)
}
