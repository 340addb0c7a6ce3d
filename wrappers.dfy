/** Failure-compatible option type shared by the modules of this model. */
module Wrappers {

  /** A value that may be absent: a nullable ref, an optional cookie, a missing session. */
  datatype Option<+T> = None | Some(value: T)
}
