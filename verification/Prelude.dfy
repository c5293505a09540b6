/** Types shared by every part of the keyserver model. */
module Prelude {

  datatype Option<+T> = None | Some(value: T)

  datatype Result<+T, +E> = Ok(value: T) | Err(error: E)

  type u8 = x: int | 0 <= x < 256
  type Bytes = seq<u8>

  const U32_LIMIT := 0x1_0000_0000
  const U64_LIMIT := 0x1_0000_0000_0000_0000
  const I64_LIMIT := 0x8000_0000_0000_0000

  type i32 = x: int | -0x8000_0000 <= x < 0x8000_0000
  type i64 = x: int | -0x8000_0000_0000_0000 <= x < 0x8000_0000_0000_0000
  type u32 = x: int | 0 <= x < 0x1_0000_0000
  type u64 = x: int | 0 <= x < 0x1_0000_0000_0000_0000

  /** The bytes of an ASCII literal. */
  function Ascii(text: string): (b: Bytes)
    requires forall i :: 0 <= i < |text| ==> text[i] < 128 as char
    ensures |b| == |text|
    ensures forall i :: 0 <= i < |text| ==> b[i] == text[i] as int && b[i] < 128
  {
    seq(|text|, i requires 0 <= i < |text| => text[i] as int)
  }

  /** A value of `i64`-typed arithmetic, wrapped into the type's range. */
  function WrapI64(x: int): (r: i64)
    ensures (r - x) % U64_LIMIT == 0
    ensures -I64_LIMIT <= x < I64_LIMIT ==> r == x
  {
    (x + I64_LIMIT) % U64_LIMIT - I64_LIMIT
  }
}
