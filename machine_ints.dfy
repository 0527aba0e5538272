/** The fixed-width integer types the C program stores its values in. */
module MachineInts {

  /** `unsigned char` / `uint8_t`: one byte of a line read by `fgets`. */
  type byte = b: int | 0 <= b < 256

  /** `int8_t`: one entry of the scoring matrix. */
  type int8 = x: int | -128 <= x < 128

  const INT32_MIN: int := -0x8000_0000
  const INT32_MAX: int := 0x7fff_ffff

  /** `int` / `int32_t`. */
  type int32 = x: int | INT32_MIN <= x <= INT32_MAX

  /** The conversion of an `int` stored into an `int8_t` (`mat[k] = x`): the
      value modulo 256, read back as a signed byte (two's complement, as gcc
      and clang define it). */
  function ToInt8(x: int): (r: int8)
    ensures -128 <= x < 128 ==> r == x
    ensures (x - r) % 256 == 0
  {
    (x + 128) % 256 - 128
  }
}
