/** Optional values, the counterpart of `std::optional` in the modelled code. */
module Wrappers {

  /** `None` is the empty optional (`std::nullopt`), `Some(v)` holds a value. */
  datatype Option<+T> = None | Some(value: T) {

    predicate IsFailure() {
      None?
    }

    function PropagateFailure<U>(): Option<U>
      requires None?
    {
      None
    }

    function Extract(): T
      requires Some?
    {
      value
    }
  }
}
