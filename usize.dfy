/** Rust's `usize` arithmetic as the states use it, over unbounded naturals: subtraction saturates
    at zero or wraps around, and the saturating addition stops at `usize::MAX` (a 64-bit target). */
module Usize {
  const MAX: nat := 0xFFFF_FFFF_FFFF_FFFF

  /** `a.saturating_sub(b)`. */
  function SaturatingSub(a: nat, b: nat): (r: nat)
    ensures a >= b ==> r == a - b
    ensures a < b ==> r == 0
  {
    if a >= b then a - b else 0
  }

  /** `a.saturating_add(b)` for `a, b <= usize::MAX`. */
  function SaturatingAdd(a: nat, b: nat): (r: nat)
    ensures r <= a + b && r <= MAX
    ensures a + b <= MAX ==> r == a + b
    ensures a + b > MAX ==> r == MAX
  {
    if a + b <= MAX then a + b else MAX
  }

  /** `a - b` with overflow checks off, as a release build computes it: below zero the
      difference wraps around modulo 2^64, so `0 - 1` is `usize::MAX`. */
  function WrappingSub(a: nat, b: nat): (r: nat)
    ensures a >= b ==> r == a - b
    ensures a < b ==> r <= MAX
    ensures a < b <= a + MAX + 1 ==> r == a + MAX + 1 - b
  {
    if a >= b then a - b else (a - b) % (MAX + 1)
  }

  function Min(a: nat, b: nat): (r: nat)
    ensures r <= a && r <= b && (r == a || r == b)
  {
    if a <= b then a else b
  }
}
