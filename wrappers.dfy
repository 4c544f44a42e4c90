/** The optional value used wherever the Python code returns `None` or NaT. */
module Wrappers {

  datatype Option<+T> = None | Some(value: T)
}
