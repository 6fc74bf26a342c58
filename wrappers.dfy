/** The optional value used wherever the program returns `None` or a value. */
module Wrappers {

  datatype Option<+T> = None | Some(value: T)
}
