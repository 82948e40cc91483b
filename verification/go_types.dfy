/** Go's value types that the model needs: nil-able results, fixed-width
    integers and their wrapping arithmetic. */
module GoTypes {

  /** A Go value that may be nil; a Go `error` is `Option<string>`, where
      `None` is the nil error and `Some(msg)` an error with that message. */
  datatype Option<+T> = None | Some(value: T)

  /** The `(value, error)` pair a Go function returns, as one of its two cases. */
  datatype Result<+T, +E> = Success(value: T) | Failure(error: E)

  const TWO_64: int := 0x1_0000_0000_0000_0000
  const TWO_63: int := 0x8000_0000_0000_0000

  type Uint64 = x: int | 0 <= x < 0x1_0000_0000_0000_0000
  type Int64 = x: int | -0x8000_0000_0000_0000 <= x < 0x8000_0000_0000_0000
  type Uint16 = x: int | 0 <= x < 0x1_0000

  /** Go's `a + b` on uint64: the sum wraps around modulo 2^64. */
  function AddU64(a: Uint64, b: Uint64): (r: Uint64)
    ensures a + b < TWO_64 ==> r == a + b
    ensures a + b >= TWO_64 ==> r == a + b - TWO_64
  {
    (a + b) % TWO_64
  }

  /** Go's `a - b` on int64: the difference wraps into [-2^63, 2^63). */
  function SubI64(a: Int64, b: Int64): (r: Int64)
    ensures -TWO_63 <= a - b < TWO_63 ==> r == a - b
    ensures (r - (a - b)) % TWO_64 == 0
  {
    var d := a - b;
    if d >= TWO_63 then d - TWO_64
    else if d < -TWO_63 then d + TWO_64
    else d
  }

  /** Adding a multiple of 2^64 does not change a value modulo 2^64. */
  lemma ModAddMultiple(x: int, q: int)
    ensures (x + q * TWO_64) % TWO_64 == x % TWO_64
  {
  }

  /** Reducing one summand modulo 2^64 first does not change the sum modulo 2^64. */
  lemma ModAddRight(a: int, b: int)
    ensures (a + b % TWO_64) % TWO_64 == (a + b) % TWO_64
  {
    var q := b / TWO_64;
    assert b == q * TWO_64 + b % TWO_64;
    ModAddMultiple(a + b % TWO_64, q);
  }
}
