/** Types shared by every module of the model. */
module Basics {

  /** An unsigned 8-bit value; masks and shifts on it are written as `/` and `%` by powers of two. */
  type byte = x: int | 0 <= x < 256

  type Bytes = seq<byte>

  datatype Option<+T> = None | Some(value: T)

  datatype Result<+T, +E> = Ok(value: T) | Err(error: E)

  function Min(a: int, b: int): int {
    if a <= b then a else b
  }

  function Max(a: int, b: int): int {
    if a >= b then a else b
  }

  /** `n` copies of the byte `b`. */
  function Fill(n: nat, b: byte): Bytes {
    seq(n, _ => b)
  }
}
