/** The optional value the ring history hands back for an empty slot. */
module Wrappers {

  datatype Option<+T> = None | Some(value: T)
}
