/** The nullable results and error returns of the source, as values. */
module Wrappers {

  /** A pointer that may be null, or a lookup that may miss. */
  datatype Option<+T> = None | Some(value: T)
}
