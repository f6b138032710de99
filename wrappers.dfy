/** The optional value used wherever the source returns None or refuses an input. */
module Wrappers {

  datatype Option<+T> = None | Some(value: T)
}
