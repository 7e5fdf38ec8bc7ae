/** Small helper datatypes shared by the other modules. */
module Wrappers {

  /** An optional value; `None` stands for an absent (undefined) field. */
  datatype Option<+T> = None | Some(value: T)
}
