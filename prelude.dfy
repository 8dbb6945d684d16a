/** The few Rust standard-library types the model is built on: `Option`,
    `Result`, `std::cmp::Ordering` and the `u32` integer width. */
module Prelude {

  /** Rust's `u32`. */
  type u32 = x: nat | x < 0x1_0000_0000

  datatype Option<+T> = None | Some(value: T) {
    predicate IsFailure() {
      None?
    }

    function PropagateFailure<U>(): Option<U>
      requires None?
    {
      None
    }

    function Extract(): T
      requires Some?
    {
      value
    }

    function GetOr(default: T): T {
      match this
      case Some(v) => v
      case None => default
    }
  }

  datatype Result<+T, +E> = Ok(value: T) | Err(error: E)

  /** `std::cmp::Ordering`. */
  datatype Ordering = Less | Equal | Greater

  function Min(a: nat, b: nat): nat {
    if a <= b then a else b
  }
}
