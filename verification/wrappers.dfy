/** The Java `null` of a nullable return value, made explicit. */
module Wrappers {

  /** `None` stands for a `null` result, `Some(v)` for a non-null one. */
  datatype Option<+T> = None | Some(value: T)
}
