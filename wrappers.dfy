/** The optional value of the script: Python's `None` or a label. */
module Wrappers {

  datatype Option<+T> = None | Some(value: T)
}
