/** The optional value shared by every module. */
module Wrappers {
  datatype Option<+T> = None | Some(value: T)

  function ValueOr<T>(o: Option<T>, fallback: T): T {
    if o.Some? then o.value else fallback
  }
}
