/** The one failure-style datatype the project shares. */
module Wrappers {

  /** A value that may be missing: a nil pointer, a step that is not enabled, an input that is refused. */
  datatype Option<+T> = None | Some(value: T)
}
