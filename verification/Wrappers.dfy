/** The absent-or-present result used where the repository returns an error or a miss. */
module Wrappers {
  datatype Option<+T> = None | Some(value: T)
}
