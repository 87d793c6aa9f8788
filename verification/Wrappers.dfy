/** The optional value: a pointer that may be null, or an answer that may be missing. */
module Wrappers {

  datatype Option<+T> = None | Some(value: T)
}
