/** IP addresses as numbers, and the IPv4-mapped form both sides unmap before they compare. */
module Address {

  type U16 = n: int | 0 <= n < 0x1_0000
  type U32 = n: int | 0 <= n < 0x1_0000_0000
  type U64 = n: int | 0 <= n < 0x1_0000_0000_0000_0000
  type U128 = n: int | 0 <= n < 0x1_0000_0000_0000_0000_0000_0000_0000_0000

  datatype Addr = V4(v4: U32) | V6(v6: U128)

  const MAPPED_BASE: U128 := 0xFFFF_0000_0000

  /** ::ffff:0:0/96, the addresses that carry an IPv4 address. */
  predicate Is4In6(a: Addr) {
    a.V6? && MAPPED_BASE <= a.v6 < MAPPED_BASE + 0x1_0000_0000
  }

  function Unmap(a: Addr): (r: Addr)
    ensures !Is4In6(r)
    ensures !Is4In6(a) ==> r == a
  {
    if Is4In6(a) then V4(a.v6 - MAPPED_BASE) else a
  }

  /** ::ffff:a.b.c.d is a.b.c.d, and no other address is changed. */
  lemma UnmapIs(a: Addr)
    ensures forall n: U32 :: Unmap(V6(0xFFFF_0000_0000 + n)) == V4(n)
    ensures Unmap(a) != a <==> a.V6? && a.v6 / 0x1_0000_0000 == 0xFFFF
  {
  }
}
