/** Powers of two, the ranges of PostgreSQL's integer columns, and the smaller and larger of two. */
module Numbers {

  const INT4_MIN: int := -0x8000_0000
  const INT4_MAX: int := 0x7FFF_FFFF           // integer
  const INT8_MAX: int := 0x7FFF_FFFF_FFFF_FFFF // bigint; also Go's int64

  function Pow2(n: nat): (p: nat)
    ensures p >= 1
  {
    if n == 0 then 1 else 2 * Pow2(n - 1)
  }

  /** The limits are those of 32 and 64 bits with a sign. */
  lemma ColumnLimits()
    ensures INT4_MAX == Pow2(31) - 1 && INT4_MIN + Pow2(31) == 0 && INT8_MAX == Pow2(63) - 1
  {
    assert Pow2(6) == 64 && Pow2(12) == 4096;
    assert Pow2(18) == 262144 && Pow2(24) == 0x100_0000 && Pow2(31) == 0x8000_0000;
    assert Pow2(37) == 0x20_0000_0000 && Pow2(43) == 0x800_0000_0000 && Pow2(49) == 0x2_0000_0000_0000;
    assert Pow2(55) == 0x80_0000_0000_0000 && Pow2(61) == 0x2000_0000_0000_0000;
  }

  function Min(a: int, b: int): (m: int)
    ensures m <= a && m <= b && (m == a || m == b)
  {
    if a < b then a else b
  }

  function Max(a: int, b: int): (m: int)
    ensures a <= m && b <= m && (m == a || m == b)
  {
    if a < b then b else a
  }
}
