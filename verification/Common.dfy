/** Shared value types. */
module Common {

  const MAX_U64: nat := 0xFFFF_FFFF_FFFF_FFFF
  const MAX_I64: nat := 0x7FFF_FFFF_FFFF_FFFF

  newtype byte = x: int | 0 <= x < 256

  datatype Option<+T> = None | Some(value: T)

  /** A value or the reason there is none; `:-` passes a failure on to the caller. */
  datatype Result<+T, +E> = Ok(value: T) | Err(error: E) {
    predicate IsFailure() {
      Err?
    }

    function PropagateFailure<U>(): Result<U, E>
      requires Err?
    {
      Err(error)
    }

    function Extract(): T
      requires Ok?
    {
      value
    }
  }

  function Min(a: int, b: int): int {
    if a < b then a else b
  }
}
