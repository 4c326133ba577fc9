/** The optional values used throughout: the source's None, and the absence left by a raised exception. */
module Wrappers {

  datatype Option<+T> = None | Some(value: T)
}
