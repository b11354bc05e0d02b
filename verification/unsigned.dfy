/** Fixed-width unsigned machine integers, as C's `unsigned int` and `uint64_t`.
    Values are unbounded integers restricted to their range; wrap-around is
    written out explicitly wherever the C code relies on it. */
module Unsigned {

  const TWO_32: int := 0x1_0000_0000
  const TWO_64: int := 0x1_0000_0000_0000_0000
  /** Largest value of a 32-bit `unsigned int`. */
  const U32_MAX: int := TWO_32 - 1

  newtype u32 = x: int | 0 <= x < 0x1_0000_0000
  newtype u64 = x: int | 0 <= x < 0x1_0000_0000_0000_0000

  /** `a + b` on `uint64_t`: the sum modulo 2^64. */
  function Add64(a: u64, b: u64): (r: u64)
    ensures r as int == (a as int + b as int) % TWO_64
    ensures r as int == a as int + b as int || r as int == a as int + b as int - TWO_64
  {
    var sum := a as int + b as int;
    if sum < TWO_64 then sum as u64 else (sum - TWO_64) as u64
  }

  /** `a - b` on `uint64_t`: the difference modulo 2^64, which is what
      adding back `b` undoes. */
  function Sub64(a: u64, b: u64): (r: u64)
    ensures r as int == (a as int - b as int) % TWO_64
    ensures Add64(b, r) == a
  {
    if b <= a then a - b else (a as int - b as int + TWO_64) as u64
  }

  /** Adding under a modulus may reduce the left operand first. */
  lemma AddModLeft(a: int, b: int)
    requires 0 <= a && 0 <= b
    ensures (a % TWO_64 + b) % TWO_64 == (a + b) % TWO_64
  {
    var q := a / TWO_64;
    assert a == q * TWO_64 + a % TWO_64;
    assert a + b == q * TWO_64 + (a % TWO_64 + b);
    ModMultipleOffset(q, a % TWO_64 + b);
  }

  lemma ModMultipleOffset(q: int, x: int)
    requires 0 <= q && 0 <= x
    ensures (q * TWO_64 + x) % TWO_64 == x % TWO_64
    decreases q
  {
    if q > 0 {
      assert q * TWO_64 + x == (q - 1) * TWO_64 + (x + TWO_64);
      ModMultipleOffset(q - 1, x + TWO_64);
    }
  }
}
