/** The "bool TryX(source, out value)" shape shared by the classifiers. */
module Wrappers {

  /** What a `Try*` converter hands back: the returned flag and the value left in the
      out parameter. On failure the value is the enumeration's default member. */
  datatype TryResult<T> = TryResult(success: bool, value: T)
}
