/** Small value wrappers shared by every module of the model. */
module Wrappers {

  /** A value that may be absent; `None` stands for a null pointer. */
  datatype Option<+T> = None | Some(value: T)
}
