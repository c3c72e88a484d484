/** The optional value used for a lookup or an evaluation that may not succeed. */
module Wrappers {
  datatype Option<+T> = None | Some(value: T)
}
