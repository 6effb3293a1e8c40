/** Fixed-width unsigned integers of the C++ source, and the uint32 arithmetic it relies on. */
module Ints {

  const TWO_TO_THE_32: int := 0x1_0000_0000

  type u8 = x: int | 0 <= x < 0x100
  type u16 = x: int | 0 <= x < 0x1_0000
  type u32 = x: int | 0 <= x < 0x1_0000_0000
  type u64 = x: int | 0 <= x < 0x1_0000_0000_0000_0000

  /** `std::numeric_limits<uint8_t>::max()` */
  const U8_MAX: u8 := 0xFF
  /** `std::numeric_limits<uint32_t>::max()` */
  const U32_MAX: u32 := 0xFFFF_FFFF

  /** `a + b` evaluated in uint32: wraps modulo 2^32. */
  function AddU32(a: u32, b: u32): (r: u32)
    ensures a + b < TWO_TO_THE_32 ==> r == a + b
    ensures a + b >= TWO_TO_THE_32 ==> r == a + b - TWO_TO_THE_32
  {
    (a + b) % TWO_TO_THE_32
  }

  /** `a - b` evaluated in uint32: wraps modulo 2^32 when b > a. */
  function SubU32(a: u32, b: u32): (r: u32)
    ensures b <= a ==> r == a - b
    ensures a < b ==> r == a - b + TWO_TO_THE_32
  {
    (a - b) % TWO_TO_THE_32
  }

  /** Adding in uint32 is adding and then wrapping. */
  lemma {:induction false} AddU32OfMods(x: nat, y: nat)
    ensures AddU32(x % TWO_TO_THE_32, y % TWO_TO_THE_32) == (x + y) % TWO_TO_THE_32
    decreases x + y
  {
    if x >= TWO_TO_THE_32 {
      AddU32OfMods(x - TWO_TO_THE_32, y);
      ModShift(x - TWO_TO_THE_32);
      ModShift(x - TWO_TO_THE_32 + y);
    } else if y >= TWO_TO_THE_32 {
      AddU32OfMods(x, y - TWO_TO_THE_32);
      ModShift(y - TWO_TO_THE_32);
      ModShift(x + y - TWO_TO_THE_32);
    } else {
      assert x % TWO_TO_THE_32 == x && y % TWO_TO_THE_32 == y;
    }
  }

  lemma ModShift(z: nat)
    ensures (z + TWO_TO_THE_32) % TWO_TO_THE_32 == z % TWO_TO_THE_32
  {
  }

  function Min(a: int, b: int): (r: int) { if a <= b then a else b }
  function Max(a: int, b: int): (r: int) { if a >= b then a else b }
}

/** An optional value. */
module Wrappers {
  datatype Option<T> = None | Some(value: T)
}
