/** The optional value used wherever the engine returns one. */
module Wrappers {
  datatype Option<+T> = None | Some(value: T)
}
