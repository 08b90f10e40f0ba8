/** The optional-value datatype shared by the driver modules. */
module Wrappers {

  datatype Option<+T> = None | Some(value: T)
}
