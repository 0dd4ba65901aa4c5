/** Shared value types of the AgroLink storefront model. */
module Base {

  datatype Option<T> = None | Some(value: T)

  datatype Result<T, E> = Success(value: T) | Failure(error: E)

  /** A JavaScript number as the storefront reads it from an input: either NaN
      or an exact amount in hundredths of SOL. */
  datatype Num = NaN | Val(hundredths: int)

  function Max(a: int, b: int): (r: int)
    ensures r >= a && r >= b && (r == a || r == b)
  {
    if a >= b then a else b
  }

  function Min(a: int, b: int): (r: int)
    ensures r <= a && r <= b && (r == a || r == b)
  {
    if a <= b then a else b
  }
}
