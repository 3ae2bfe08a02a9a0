/** Option and Result, the shapes Rust's `Option`/`Result` and a thrown
    JavaScript error take in this model. */
module Wrappers {

  datatype Option<+T> = None | Some(value: T) {
    predicate IsFailure() { None? }

    function PropagateFailure<U>(): Option<U>
      requires None?
    {
      None
    }

    function Extract(): T
      requires Some?
    {
      value
    }

    /** Rust's `Option::or`: this value if present, else `other`. */
    function Or(other: Option<T>): Option<T>
    {
      if Some? then this else other
    }

    function GetOr(default: T): T
    {
      if Some? then value else default
    }
  }

  datatype Result<+T, +E> = Ok(value: T) | Err(error: E) {
    predicate IsFailure() { Err? }

    function PropagateFailure<U>(): Result<U, E>
      requires Err?
    {
      Err(error)
    }

    function Extract(): T
      requires Ok?
    {
      value
    }

    /** Rust's `Result::ok`. */
    function ToOption(): Option<T>
    {
      if Ok? then Some(value) else None
    }
  }

  /** Rust's `Option::map`, written out for a total function. */
  function MapOption<T, U>(o: Option<T>, f: T -> U): (r: Option<U>)
    ensures r.Some? <==> o.Some?
    ensures o.Some? ==> r.value == f(o.value)
  {
    if o.Some? then Some(f(o.value)) else None
  }
}
