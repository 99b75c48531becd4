/** The optional value used wherever the source gets `None` back. */
module Wrappers {

  datatype Option<+T> = None | Some(value: T)
}
