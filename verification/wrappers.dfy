/** The optional value used wherever the adapter's Java code can see `null`. */
module Wrappers {

  datatype Option<+T> = None | Some(value: T)
}
