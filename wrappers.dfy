/** The optional value used wherever the source has a nullable value or a failed lookup. */
module Wrappers {
  datatype Option<+T> = None | Some(value: T)
}
