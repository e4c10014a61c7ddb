/** The source's optional results; for errors of a single kind, `None` is the error. */
module Wrappers {
  datatype Option<+T> = None | Some(value: T)
}
