/** The optional-value datatype shared by the modules of the viewer. */
module Wrappers {

  /** A value that may be absent: JavaScript's `null`/`undefined` versus a present value. */
  datatype Option<T> = None | Some(value: T)
}
