// Machine integers and the option type shared by every module.
module Types {
  type u8 = x: int | 0 <= x < 0x100
  type u32 = x: int | 0 <= x < 0x1_0000_0000
  type u64 = x: int | 0 <= x < 0x1_0000_0000_0000_0000
  type i32 = x: int | -0x8000_0000 <= x < 0x8000_0000
  type i64 = x: int | -0x8000_0000_0000_0000 <= x < 0x8000_0000_0000_0000

  const U32_MAX: u32 := 0xFFFF_FFFF

  datatype Option<+T> = None | Some(value: T)

  // `u64::saturating_sub`
  function SaturatingSub(a: u64, b: u64): (r: u64)
    ensures r + b == if b <= a then a else b
  {
    if a >= b then a - b else 0
  }

  // `as u32` on a signed 32-bit value: two's complement reinterpretation.
  function AsU32(x: i32): (r: u32) {
    if x >= 0 then x else x + 0x1_0000_0000
  }
}
