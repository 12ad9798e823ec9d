/** The optional value used for the source's nullable references and nullable tuples. */
module Wrappers {

  /** `None` stands for C#'s `null` (or a `Nullable<T>` without a value). */
  datatype Option<+T> = None | Some(value: T)
}
