/** A value that may be absent: a found account, a registration error, a badge label. */
module Wrappers {

  datatype Option<+T> = None | Some(value: T)
}
