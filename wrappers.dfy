/** The optional-value datatype used for results that may fail. */
module Wrappers {

  datatype Option<+T> = None | Some(value: T)
}
