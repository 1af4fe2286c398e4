/** Optional values: Python's `None` for a field not captured yet, or a pattern that did not match. */
module Wrappers {

  datatype Option<+T> = None | Some(value: T) {

    predicate IsFailure() {
      None?
    }

    function PropagateFailure<U>(): (r: Option<U>)
      requires None?
    {
      None
    }

    function Extract(): (v: T)
      requires Some?
    {
      value
    }
  }
}
