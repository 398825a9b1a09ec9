/** Crate-wide constants, the Rust integer types the driver computes with,
    and the driver's error type (src/lib.rs, src/error.rs). */
module Lib {

  datatype Option<+T> = None | Some(value: T)

  /** Rust's `i32`, `u32` and `u8` as bounded integers. */
  const U32_MODULUS: int := 0x1_0000_0000
  type i32 = x: int | -0x8000_0000 <= x < 0x8000_0000
  type u32 = x: int | 0 <= x < 0x1_0000_0000
  type u8 = x: int | 0 <= x < 0x100

  /** Panel geometry, both declared `u8` in the crate. */
  const DISPLAY_WIDTH: u8 := 250
  const DISPLAY_HEIGHT: u8 := 122

  /** Bytes per column of a packed buffer: ceil(DISPLAY_HEIGHT / 8), computed in `usize`. */
  const ROW_BYTES: u32 := (DISPLAY_HEIGHT + 7) / 8

  /** `BUF_SIZE`, the length of every frame buffer: one ROW_BYTES run per column. */
  const BUF_SIZE: nat := ROW_BYTES * DISPLAY_WIDTH

  /** `Error<E>`: only the communication variant can be built, since the
      pin variant wraps the uninhabited `Infallible`. */
  datatype Error<E> = Comm(cause: E)

  /** `a - b` on `u32` as a release build computes it (two's-complement wrap-around). */
  function WrapSub(a: u32, b: u32): (r: u32)
    ensures r == (a - b) % U32_MODULUS
    ensures b <= a ==> r == a - b
  {
    if b <= a then a - b else a - b + U32_MODULUS
  }

  /** `a + b` on `u32` as a release build computes it. */
  function WrapAdd(a: u32, b: u32): (r: u32)
    ensures r == (a + b) % U32_MODULUS
    ensures a + b < U32_MODULUS ==> r == a + b
  {
    if a + b < U32_MODULUS then a + b else a + b - U32_MODULUS
  }

  /** `a * b` on `u32` as a release build computes it. */
  function WrapMul(a: u32, b: u32): u32
  {
    (a * b) % U32_MODULUS
  }

  /** The geometry constants the command payloads are built from: the
      derived values fit in a byte, but `DISPLAY_WIDTH + 7`, which the
      interface computes in `u8`, does not. */
  lemma GeometryBytes()
    ensures ROW_BYTES == 16 && BUF_SIZE == 4000
    ensures DISPLAY_WIDTH - 1 == 249 && (DISPLAY_WIDTH + 7) / 8 == 32
    ensures DISPLAY_WIDTH + 7 >= 0x100
    ensures (DISPLAY_WIDTH + 7) % 0x100 / 8 == 0
  {
  }
}
