/** What the functions of FIPS 180-4, sections 3.2 and 4.1.2, do bit by bit.  A mask stands for any bits at all. */
module Sha256Bits {
  import opened Sha256Spec

  /** Where the first word has ones Ch is the second, where it has zeros Ch is the third. */
  lemma ChChooses(x: bv32, y: bv32, z: bv32, mask: bv32)
    ensures x & mask == mask ==> Ch(x, y, z) & mask == y & mask
    ensures x & mask == 0 ==> Ch(x, y, z) & mask == z & mask
  {
  }

  lemma MajMasked(x: bv32, y: bv32, z: bv32, mask: bv32)
    ensures Maj(x, y, z) & mask == Maj(x & mask, y & mask, z & mask)
  {
  }

  lemma MajOfPair(a: bv32, b: bv32)
    ensures Maj(a, a, b) == a && Maj(a, b, a) == a && Maj(b, a, a) == a
  {
  }

  /** Where two words agree Maj is what they agree on. */
  lemma MajIsMajority(x: bv32, y: bv32, z: bv32, mask: bv32)
    ensures x & mask == y & mask ==> Maj(x, y, z) & mask == x & mask
    ensures x & mask == z & mask ==> Maj(x, y, z) & mask == x & mask
    ensures y & mask == z & mask ==> Maj(x, y, z) & mask == y & mask
  {
    MajMasked(x, y, z, mask);
    MajOfPair(x & mask, y & mask);
    MajOfPair(x & mask, z & mask);
    MajOfPair(y & mask, x & mask);
    hide Maj;
  }
  lemma RaisedOut(n: bv32, x: bv32)
    requires 0 < n < 32
    ensures (x << (32 - n)) << n == 0
  {
  }

  lemma LowerBits(n: bv32, x: bv32)
    requires 0 < n < 32
    ensures (x >> n) >> (32 - n) == 0 && (x << (32 - n)) >> (32 - n) == x & (0xFFFF_FFFF >> (32 - n))
  {
  }

  lemma OrRaised(u: bv32, v: bv32, n: bv32)
    requires n < 32 && v << n == 0
    ensures (u | v) << n == u << n
  {
  }

  lemma OrLowered(u: bv32, v: bv32, n: bv32)
    requires n < 32 && u >> n == 0
    ensures (u | v) >> n == v >> n
  {
  }

  lemma UpperRotated(n: bv32, x: bv32)
    requires 0 < n < 32
    ensures ROTR(n, x) << n == (x >> n) << n
  {
    RaisedOut(n, x);
    OrRaised(x >> n, x << (32 - n), n);
  }

  lemma LowerRotated(n: bv32, x: bv32)
    requires 0 < n < 32
    ensures ROTR(n, x) >> (32 - n) == x & (0xFFFF_FFFF >> (32 - n))
  {
    LowerBits(n, x);
    OrLowered(x >> n, x << (32 - n), 32 - n);
  }

  /** ROTR moves all bits but the n low ones down by n, and those to the top. */
  lemma RotatesRight(n: bv32, x: bv32)
    requires 0 < n < 32
    ensures ROTR(n, x) << n == (x >> n) << n
    ensures ROTR(n, x) >> (32 - n) == x & (0xFFFF_FFFF >> (32 - n))
  {
    hide ROTR;
    UpperRotated(n, x);
    LowerRotated(n, x);
  }
}
