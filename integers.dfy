/** The fixed-width unsigned integers of Rust that the lock-time code uses. */
module Integers {
  import opened Wrappers

  const U16_MAX: int := 0xFFFF
  const U32_MAX: int := 0xFFFF_FFFF

  type u16 = x: int | 0 <= x <= U16_MAX
  type u32 = x: int | 0 <= x <= U32_MAX

  /** What Rust's `+` does when the sum does not fit: builds with overflow
      checks (the debug profile) panic, builds without them (the release
      profile) wrap around modulo 2^32. */
  datatype OverflowMode = Panic | Wrap

  /** The outcome of evaluating Rust code that may panic. */
  datatype Outcome<+T> = Returns(value: T) | Panics

  /** Rust's `a + b` on `u32`. */
  function AddU32(a: u32, b: u32, mode: OverflowMode): (r: Outcome<u32>)
    ensures a + b <= U32_MAX ==> r == Returns(a + b)
    ensures a + b > U32_MAX && mode == Panic ==> r == Panics
    ensures a + b > U32_MAX && mode == Wrap ==> r == Returns(a + b - (U32_MAX + 1))
  {
    if a + b <= U32_MAX then Returns(a + b)
    else if mode == Panic then Panics
    else Returns((a + b) % (U32_MAX + 1))
  }

  /** Rust's `u16::try_from(x)` for `x: u32`; the error carries no information
      that the caller uses, so it is modelled as `None`. */
  function TryIntoU16(x: u32): (r: Option<u16>)
    ensures r.Some? <==> x <= U16_MAX
    ensures r.Some? ==> r.value == x
  {
    if x <= U16_MAX then Some(x) else None
  }
}
