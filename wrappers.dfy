/** The Some/None datatype used wherever the source works with a value that may be absent. */
module Wrappers {

  /** A value that may be absent: an empty form field, an unparsable amount, a month with no rate. */
  datatype Option<+T> = None | Some(value: T)
}
