/** Python's `None`-or-value, used for every database column that may be NULL. */
module Wrappers {

  datatype Option<+T> = None | Some(value: T)
}
