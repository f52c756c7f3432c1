/** Optional values: the C# `null` of a reference-typed field or result. */
module Wrappers {
  datatype Option<+T> = None | Some(value: T)

  /** A value or the text of the exception that replaced it. */
  datatype Result<+T> = Ok(value: T) | Err(error: string)
}
