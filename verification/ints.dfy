/**
  Fixed-width integers of the instrument, written as subsets of `int`,
  and the casts between them. Rust's `as` casts between integer types
  never fail: they keep the low bits. Float-to-integer `as` casts
  saturate at the bounds of the target type.
 */
module Ints {

  type uint8 = x: int | 0 <= x < 256
  type int8 = x: int | -128 <= x < 128
  type int16 = x: int | -32768 <= x < 32768

  /** `u as i8`: the same eight bits read as two's complement. */
  function AsInt8(u: uint8): (i: int8)
    ensures (u - i) % 256 == 0
    ensures u < 128 <==> 0 <= i
  {
    if u < 128 then u else u - 256
  }

  /** `i as u8` for any integer width: the low eight bits. */
  function AsUint8(i: int): (u: uint8)
    ensures (i - u) % 256 == 0
    ensures 0 <= i < 256 ==> u == i
  {
    i % 256
  }

  /** The two reinterpreting casts are inverse to each other. */
  lemma CastRoundTrip(u: uint8, i: int8)
    ensures AsUint8(AsInt8(u)) == u
    ensures AsInt8(AsUint8(i)) == i
  {
  }

  /** Rust's float `as u8`: truncation toward zero, saturating at 0 and 255. */
  function SaturatingUint8(v: real): (u: uint8)
    ensures v <= 0.0 ==> u == 0
    ensures 255.0 <= v ==> u == 255
    ensures 0.0 <= v < 256.0 ==> u as real <= v < u as real + 1.0
  {
    if v <= 0.0 then 0 else if 255.0 <= v then 255 else v.Floor
  }
}
