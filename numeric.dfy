/** Machine-integer behaviour that the viewer relies on, written out over
    Dafny's unbounded integers. */
module Numeric {

  /** Rust's `i32`. */
  type i32 = x: int | -0x8000_0000 <= x < 0x8000_0000

  /** Rust's `u32`. */
  type u32 = x: int | 0 <= x < 0x1_0000_0000

  /** Rust's `u8`. */
  type byte = x: int | 0 <= x < 0x100

  const TwoTo32: int := 0x1_0000_0000

  /** `2.pow(n)` over the unbounded integers. */
  function Pow2(n: nat): (r: nat)
    ensures r >= 1
  {
    if n == 0 then 1 else 2 * Pow2(n - 1)
  }

  lemma {:induction false} Pow2Monotone(m: nat, n: nat)
    requires m <= n
    ensures Pow2(m) <= Pow2(n)
  {
    if m < n { Pow2Monotone(m, n - 1); }
  }

  /** `2_i32.pow(n)` does not overflow exactly when n <= 30. */
  lemma Pow2FitsI32(n: nat)
    requires n <= 30
    ensures Pow2(n) <= 0x4000_0000
  {
    Pow2Monotone(n, 30);
    Pow2Of30();
  }

  lemma Pow2Of30()
    ensures Pow2(30) == 0x4000_0000
  {
    Pow2Times32(0);
    Pow2Times32(5);
    Pow2Times32(10);
    Pow2Times32(15);
    Pow2Times32(20);
    Pow2Times32(25);
  }

  lemma Pow2Times32(k: nat)
    ensures Pow2(k + 5) == 32 * Pow2(k)
  {
    assert Pow2(k + 2) == 4 * Pow2(k);
    assert Pow2(k + 4) == 4 * Pow2(k + 2);
  }

  /** The distance between two integers. */
  function Distance(a: int, b: int): (r: nat)
  {
    if a <= b then b - a else a - b
  }

  /** A float-to-`i32` cast (`f as i32`): Rust rounds toward zero and
      saturates at the ends of the range. Applied here to values that are
      already integral (the result of `floor`), so only the saturation is
      left: the result is the `i32` nearest to v. */
  function SaturateI32(v: int): (r: i32)
    ensures forall w: i32 :: Distance(r, v) <= Distance(w, v)
  {
    if v < -0x8000_0000 then -0x8000_0000
    else if v >= 0x8000_0000 then 0x7fff_ffff
    else v
  }

  lemma SaturateI32Monotone(a: int, b: int)
    requires a <= b
    ensures SaturateI32(a) <= SaturateI32(b)
  {
  }

  /** The `i32 as u32` cast: the same 32 bits read as unsigned. */
  function WrapU32(v: i32): (r: u32)
    ensures (r - v) % TwoTo32 == 0
  {
    if v < 0 then v + TwoTo32 else v
  }
}
