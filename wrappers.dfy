/** Rust's `Option<T>` and the combinators the feed reader uses on it. */
module Wrappers {

  datatype Option<+T> = None | Some(value: T) {

    /** `Option::or_else` with a value already computed: keeps a present value, else takes `other`. */
    function OrElse(other: Option<T>): (r: Option<T>)
      ensures this.Some? ==> r == this
      ensures this.None? ==> r == other
    {
      match this
      case None => other
      case Some(_) => this
    }

    /** `Option::unwrap_or` / `unwrap_or_default`: the present value, else `default`. */
    function UnwrapOr(default: T): (r: T)
      ensures this.Some? ==> r == value
      ensures this.None? ==> r == default
    {
      match this
      case None => default
      case Some(v) => v
    }

    /** `Option::and_then`: chains a step that may itself produce nothing. */
    function AndThen<U>(f: T -> Option<U>): (r: Option<U>)
      ensures this.None? ==> r.None?
      ensures this.Some? ==> r == f(value)
    {
      match this
      case None => None
      case Some(v) => f(v)
    }
  }
}
