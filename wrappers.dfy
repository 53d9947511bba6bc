/** The optional-value datatype used for nullable handles and for "not found". */
module Wrappers {
  datatype Option<+T> = None | Some(value: T)
}
