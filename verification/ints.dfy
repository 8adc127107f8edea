/** Fixed-width unsigned integers of the Rust source, as subsets of `int`,
    with the wrap-around of the atomic `fetch_add`/`fetch_sub` written out. */
module Ints {

  const TWO_TO_THE_32: int := 0x1_0000_0000
  const TWO_TO_THE_64: int := 0x1_0000_0000_0000_0000

  type uint32 = x: int | 0 <= x < TWO_TO_THE_32
  type uint64 = x: int | 0 <= x < TWO_TO_THE_64

  /** `u32::wrapping_add`, as done by `AtomicU32::fetch_add`. */
  function WrappingAdd32(a: uint32, b: uint32): (r: uint32)
    ensures a + b < TWO_TO_THE_32 ==> r == a + b
    ensures a + b >= TWO_TO_THE_32 ==> r == a + b - TWO_TO_THE_32
  {
    (a + b) % TWO_TO_THE_32
  }

  /** `u32::wrapping_sub`, as done by `AtomicU32::fetch_sub`. */
  function WrappingSub32(a: uint32, b: uint32): (r: uint32)
    ensures b <= a ==> r == a - b
    ensures a < b ==> r == a - b + TWO_TO_THE_32
  {
    (a - b) % TWO_TO_THE_32
  }

  /** `u64::wrapping_add`, as done by `AtomicU64::fetch_add`. */
  function WrappingAdd64(a: uint64, b: uint64): (r: uint64)
    ensures a + b < TWO_TO_THE_64 ==> r == a + b
    ensures a + b >= TWO_TO_THE_64 ==> r == a + b - TWO_TO_THE_64
  {
    (a + b) % TWO_TO_THE_64
  }

  /** `u64::wrapping_mul`. */
  function WrappingMul64(a: uint64, b: uint64): (r: uint64)
    ensures a * b < TWO_TO_THE_64 ==> r == a * b
  {
    var p := a * b;
    assert 0 <= p by { MulNonNegative(a, b); }
    p % TWO_TO_THE_64
  }

  lemma MulNonNegative(a: nat, b: nat)
    ensures 0 <= a * b
  {
  }
}
