/** The optional value used where the component stores `null` for "absent". */
module Wrappers {

  /** `None` stands for JavaScript's `null`; `Some(v)` for a present value. */
  datatype Option<+T> = None | Some(value: T)
}
