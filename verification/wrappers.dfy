/** The optional value that stands in for a Java `null`. */
module Wrappers {

  /** `None` plays the part of `null`; `Some(v)` is a present value. */
  datatype Option<+T> = None | Some(value: T)
}
