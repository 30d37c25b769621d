/**
 * Fixed-width integers and byte strings as the firmware's C code sees them.
 */
module Bytes {

  /** An unsigned 8-bit value, as `uint8_t` and `char` in the firmware. */
  newtype uint8 = x: int | 0 <= x < 256

  /** A signed 8-bit value, as `int8_t`. */
  newtype int8 = x: int | -128 <= x < 128

  datatype Option<T> = None | Some(value: T)

  /** The bytes of an ASCII string literal's characters, without its NUL. */
  function Ascii(s: string): (r: seq<uint8>)
    requires forall c :: c in s ==> c as int < 128
    ensures |r| == |s|
    ensures forall i :: 0 <= i < |s| ==> r[i] as int == s[i] as int
  {
    seq(|s|, i requires 0 <= i < |s| => assert s[i] in s; s[i] as int as uint8)
  }
}
