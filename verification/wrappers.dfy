/** Failure-compatible result types shared by every part of the model. */
module Wrappers {

  /** The conventional Some/None datatype, standing for Rust's `Option`. */
  datatype Option<+T> = None | Some(value: T)

  /** The panic of `unwrap` on an `Err`. */
  const UnwrapOnErr: string := "called `Result::unwrap()` on an `Err` value"

  /** The panic of `unwrap` on a `None`. */
  const UnwrapOnNone: string := "called `Option::unwrap()` on a `None` value"

  /** How a fallible step of the interpreter ends: with a value (Rust `Ok`),
      with an error value handed back to the caller (Rust `Err`), or by
      aborting the whole process (a Rust `panic!`, including a failed
      `unwrap`). Usable with `:-`, which passes `Err` and `Panic` through. */
  datatype Outcome<+T, +E> = Ok(value: T) | Err(error: E) | Panic(message: string) {

    predicate IsFailure() {
      !Ok?
    }

    function PropagateFailure<U>(): Outcome<U, E>
      requires !Ok?
    {
      if Err? then Err(error) else Panic(message)
    }

    function Extract(): T
      requires Ok?
    {
      value
    }
  }

  /** `unwrap` on a `Result`: an error becomes a panic, anything else
      passes through. */
  function Unwrap<T, E>(r: Outcome<T, E>): (u: Outcome<T, E>)
    ensures !u.Err?
    ensures !r.Err? ==> u == r
    ensures r.Err? ==> u == Panic(UnwrapOnErr)
  {
    if r.Err? then Panic(UnwrapOnErr) else r
  }
}
