/** The one type of optional values that all models share. */
module Wrappers {

  datatype Option<+T> = None | Some(value: T)
}
