/** Machine integers and the Option/Result wrappers shared by every module. */
module Base {

  const U64_MAX: int := 0xFFFF_FFFF_FFFF_FFFF
  const I64_MAX: int := 0x7FFF_FFFF_FFFF_FFFF
  const TWO_TO_64: int := 0x1_0000_0000_0000_0000

  /** Rust's `u64`. */
  type u64 = x: int | 0 <= x <= 0xFFFF_FFFF_FFFF_FFFF

  /** Rust's `i64`. */
  type i64 = x: int | -0x8000_0000_0000_0000 <= x <= 0x7FFF_FFFF_FFFF_FFFF

  /** The cast `x as i64` on a `u64`: keeps the 64 bits, reinterpreting them in two's complement. */
  function AsI64(x: u64): (r: i64)
    ensures (x - r) % TWO_TO_64 == 0
    ensures r >= 0 <==> x <= I64_MAX
    ensures r >= 0 ==> r == x
  {
    if x <= I64_MAX then x else x - TWO_TO_64
  }

  datatype Option<T> = None | Some(value: T)

  datatype Result<T, E> = Ok(value: T) | Err(error: E)
}
