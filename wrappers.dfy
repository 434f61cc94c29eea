/** The optional result used where the C++ falls through to a default branch. */
module Wrappers {

  datatype Option<+T> = None | Some(value: T)
}
