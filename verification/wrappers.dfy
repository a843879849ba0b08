/** The optional value used for empty board cells and the absent en-passant pair. */
module Wrappers {

  datatype Option<+T> = None | Some(value: T)
}
