/** Types shared by every component of the model. */
module Base {

  /** One octet of a file, a stream or a header. */
  newtype byte = x: int | 0 <= x < 256

  datatype Option<+T> = None | Some(value: T)

  datatype Result<+T, +E> = Ok(value: T) | Err(error: E)

  const U64_MAX: nat := 0xFFFF_FFFF_FFFF_FFFF

  function Min(a: nat, b: nat): nat { if a < b then a else b }

  function Max(a: nat, b: nat): nat { if a < b then b else a }

  /** Rust's `u64::saturating_add`. */
  function SatAdd(a: nat, b: nat): nat { Min(a + b, U64_MAX) }

  /** Rust's `u64::saturating_mul`. */
  function SatMul(a: nat, b: nat): nat { Min(a * b, U64_MAX) }

  /** A run of `n` zero bytes: what a hole of that length reads as. */
  function Zeros(n: nat): (z: seq<byte>)
    ensures |z| == n && forall i :: 0 <= i < n ==> z[i] == 0
  {
    seq(n, i => 0)
  }
}
