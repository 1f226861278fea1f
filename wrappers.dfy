/** The C# `null` of a reference-typed value, made explicit. */
module Wrappers {

  /** `None` stands for a null reference, `Some(v)` for a non-null one. */
  datatype Option<+T> = None | Some(value: T)
}
