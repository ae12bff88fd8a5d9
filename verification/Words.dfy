/** Machine words: the island's 32-bit truncation, and the two wrap-around facts every clock uses. */
module Words {

  const U32: int := 0x1_0000_0000
  const U64_MAX: nat := 0xFFFF_FFFF_FFFF_FFFF

  datatype Option<+T> = None | Some(value: T)

  /** `(uint32_t)x`. */
  function Trunc32(x: int): (r: nat)
    ensures r < U32
  {
    x % U32
  }

  /** Truncation never makes a non-negative number larger, and is the identity below 2^32. */
  lemma TruncBelow(x: int)
    requires 0 <= x
    ensures Trunc32(x) <= x
    ensures x < U32 ==> Trunc32(x) == x
  {
  }

  /** The difference of two truncated clocks is the truncated difference. */
  lemma TruncDiff(now: int, past: int)
    ensures Trunc32(now - Trunc32(past)) == Trunc32(now - past)
    ensures Trunc32(Trunc32(now) - Trunc32(past)) == Trunc32(now - past)
  {
    var q, p := past / U32, now / U32;
    assert past == q * U32 + Trunc32(past);
    assert now == p * U32 + Trunc32(now);
    ModShift(now - past, q);
    ModShift(Trunc32(now) - Trunc32(past), p - q);
  }

  lemma ModShift(x: int, k: int)
    ensures (x + k * U32) % U32 == x % U32
  {
    var q := x / U32;
    assert x + k * U32 == (q + k) * U32 + x % U32;
  }
}
