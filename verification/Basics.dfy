/** Types shared by every part of the model. */
module Basics {

  /** A 32-byte identity or hash, read as a big-endian number: the byte-wise order of
      the 32-byte strings is the order of the numbers. */
  type AccountId = nat
  type Hash = nat

  /** The all-zero hash that stands for "no block". */
  const NIL: Hash := 0

  const U32_MAX: nat := 0xFFFF_FFFF
  const U64_MAX: nat := 0xFFFF_FFFF_FFFF_FFFF
  const U128_MAX: nat := 0xFFFF_FFFF_FFFF_FFFF_FFFF_FFFF_FFFF_FFFF

  datatype Option<+T> = None | Some(value: T)

  /** The outcome of an operation that may fail; usable with `:-`. */
  datatype Result<+T, +E> = Ok(value: T) | Err(error: E) {
    predicate IsFailure() { Err? }

    function PropagateFailure<U>(): (r: Result<U, E>)
      requires Err?
    {
      Err(error)
    }

    function Extract(): T
      requires Ok?
    {
      value
    }
  }

  function MinNat(a: nat, b: nat): nat {
    if a <= b then a else b
  }
}
