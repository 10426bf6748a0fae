/** The Option datatype used where the script uses Python's None. */
module Wrappers {
  datatype Option<+T> = None | Some(value: T)
}
