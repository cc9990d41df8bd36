/** The optional value used wherever the source returns "nothing found" or skips an input. */
module Wrappers {

  datatype Option<+T> = None | Some(value: T)
}
