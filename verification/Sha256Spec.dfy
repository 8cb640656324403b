/** SHA-256 as FIPS 180-4 defines it: padding (section 5.1.1), functions (section 4.1.2), constants
    (section 4.2.2), initial value (section 5.3.3) and computation (section 6.2.2). */
module Sha256Spec {
  import opened TransferTypes
  import opened Bytes

  datatype Words = Words(a: bv32, b: bv32, c: bv32, d: bv32, e: bv32, f: bv32, g: bv32, h: bv32)

  const H0: Words := Words(0x6a09e667, 0xbb67ae85, 0x3c6ef372, 0xa54ff53a,
                           0x510e527f, 0x9b05688c, 0x1f83d9ab, 0x5be0cd19)

  /** Addition modulo 2^32. */
  function Add(x: bv32, y: bv32): bv32 { x + y }

  function Ch(x: bv32, y: bv32, z: bv32): bv32 { (x & y) ^ (!x & z) }
  function Maj(x: bv32, y: bv32, z: bv32): bv32 { (x & y) ^ (x & z) ^ (y & z) }
  function Xor3(x: bv32, y: bv32, z: bv32): bv32 { x ^ y ^ z }
  /** Section 3.2: the right rotation is two shifts. */
  function ROTR(n: bv32, x: bv32): bv32
    requires 0 < n < 32
  {
    (x >> n) | (x << (32 - n))
  }
  function SHR(n: bv32, x: bv32): bv32
    requires n <= 32
  {
    x >> n
  }

  function BigSigma0(x: bv32): bv32 { Xor3(ROTR(2, x), ROTR(13, x), ROTR(22, x)) }
  function BigSigma1(x: bv32): bv32 { Xor3(ROTR(6, x), ROTR(11, x), ROTR(25, x)) }
  function SmallSigma0(x: bv32): bv32 { Xor3(ROTR(7, x), ROTR(18, x), SHR(3, x)) }
  function SmallSigma1(x: bv32): bv32 { Xor3(ROTR(17, x), ROTR(19, x), SHR(10, x)) }

  /** Word t of a message block: four bytes, most significant first. */
  function BlockWord(block: seq<byte>, offset: nat): bv32
    requires offset + 4 <= |block|
  {
    ((block[offset] as bv32) << 24) | ((block[offset + 1] as bv32) << 16) |
    ((block[offset + 2] as bv32) << 8) | (block[offset + 3] as bv32)
  }

  /** The message schedule W of section 6.2.2, step 1. */
  function Schedule(block: seq<byte>, t: nat): bv32
    requires |block| == 64 && t < 64
  {
    if t < 16 then BlockWord(block, 4 * t)
    else
      Add(Add(Add(SmallSigma1(Schedule(block, t - 2)), Schedule(block, t - 7)),
              SmallSigma0(Schedule(block, t - 15))),
          Schedule(block, t - 16))
  }

  /** One iteration of section 6.2.2, step 3. */
  function Round(v: Words, k: bv32, w: bv32): Words {
    var t1 := Add(Add(Add(Add(v.h, BigSigma1(v.e)), Ch(v.e, v.f, v.g)), k), w);
    var t2 := Add(BigSigma0(v.a), Maj(v.a, v.b, v.c));
    Words(Add(t1, t2), v.a, v.b, v.c, Add(v.d, t1), v.e, v.f, v.g)
  }

  /** The constants K of section 4.2.2, eight in a row. */
  function RoundConstant(t: nat): bv32
    requires t < 64
  {
    [
      [0x428a2f98, 0x71374491, 0xb5c0fbcf, 0xe9b5dba5, 0x3956c25b, 0x59f111f1, 0x923f82a4, 0xab1c5ed5],
      [0xd807aa98, 0x12835b01, 0x243185be, 0x550c7dc3, 0x72be5d74, 0x80deb1fe, 0x9bdc06a7, 0xc19bf174],
      [0xe49b69c1, 0xefbe4786, 0x0fc19dc6, 0x240ca1cc, 0x2de92c6f, 0x4a7484aa, 0x5cb0a9dc, 0x76f988da],
      [0x983e5152, 0xa831c66d, 0xb00327c8, 0xbf597fc7, 0xc6e00bf3, 0xd5a79147, 0x06ca6351, 0x14292967],
      [0x27b70a85, 0x2e1b2138, 0x4d2c6dfc, 0x53380d13, 0x650a7354, 0x766a0abb, 0x81c2c92e, 0x92722c85],
      [0xa2bfe8a1, 0xa81a664b, 0xc24b8b70, 0xc76c51a3, 0xd192e819, 0xd6990624, 0xf40e3585, 0x106aa070],
      [0x19a4c116, 0x1e376c08, 0x2748774c, 0x34b0bcb5, 0x391c0cb3, 0x4ed8aa4a, 0x5b9cca4f, 0x682e6ff3],
      [0x748f82ee, 0x78a5636f, 0x84c87814, 0x8cc70208, 0x90befffa, 0xa4506ceb, 0xbef9a3f7, 0xc67178f2] ][t / 8][t % 8]
  }

  function Rounds(v: Words, block: seq<byte>, t: nat): Words
    requires |block| == 64 && t <= 64
  {
    if t == 0 then v else Round(Rounds(v, block, t - 1), RoundConstant(t - 1), Schedule(block, t - 1))
  }

  function AddWords(x: Words, y: Words): Words {
    Words(Add(x.a, y.a), Add(x.b, y.b), Add(x.c, y.c), Add(x.d, y.d),
          Add(x.e, y.e), Add(x.f, y.f), Add(x.g, y.g), Add(x.h, y.h))
  }

  /** The intermediate hash value after one block. */
  function Compress(v: Words, block: seq<byte>): Words
    requires |block| == 64
  {
    AddWords(v, Rounds(v, block, 64))
  }

  function HashBlocks(v: Words, blocks: seq<byte>): Words
    requires |blocks| % 64 == 0
  {
    if blocks == [] then v
    else Compress(HashBlocks(v, blocks[..|blocks| - 64]), blocks[|blocks| - 64..])
  }

  function Zeros(n: nat): seq<byte> { seq(n, _ => 0) }

  /** The number of zero bytes between the 0x80 byte and the length. */
  function ZeroCount(length: nat): nat { (55 - length) % 64 }

  function Pad(message: seq<byte>): seq<byte> {
    message + [0x80] + Zeros(ZeroCount(|message|)) + BigEndian(8 * |message|, 8)
  }

  /** Does appending a one bit and j zero bits leave 64 bits free in the last block? */
  predicate LeavesRoom(bits: nat, j: nat) { (bits + 1 + j) % 512 == 448 }

  /** Section 5.1.1: k zero bits, where k is the smallest non-negative solution of
      length + 1 + k = 448 modulo 512, and the padded message is a whole number of blocks. */
  lemma PadIsFips(message: seq<byte>)
    ensures |Pad(message)| % 64 == 0
    ensures var k := 7 + 8 * ZeroCount(|message|);
            && LeavesRoom(8 * |message|, k)
            && forall j: nat :: j < k ==> !LeavesRoom(8 * |message|, j)
  {
    var n := |message|;
    var z := ZeroCount(n);
    var t := (55 - n) / 64;
    assert 55 - n == 64 * t + z;
    assert |Pad(message)| == 64 * (1 - t);
    Remainder(64, 1 - t, 0);
    var k := 7 + 8 * z;
    Remainder(512, -t, 448);
    assert 8 * n + 1 + k == 512 * (-t) + 448;
    forall j: nat | j < k
      ensures !LeavesRoom(8 * n, j)
    {
      OtherRemainder(-t, 448 - (k - j), 448);
      assert 8 * n + 1 + j == 512 * (-t) + (448 - (k - j));
    }
  }

  lemma Remainder(d: nat, q: int, r: nat)
    requires r < d
    ensures (d * q + r) % d == r
  {
    var lhs := (d * q + r) / d;
    var m := (d * q + r) % d;
    assert d * (lhs - q) == r - m;
    MulBounds(d, lhs - q);
  }

  lemma OtherRemainder(q: int, r: int, s: nat)
    requires s < 512 && r < s < r + 512
    ensures (512 * q + r) % 512 != s
  {
    if r >= 0 {
      Remainder(512, q, r);
    } else {
      Remainder(512, q - 1, r + 512);
      assert 512 * (q - 1) + (r + 512) == 512 * q + r;
    }
  }

  function Hash(message: seq<byte>): Words {
    PadIsFips(message);
    HashBlocks(H0, Pad(message))
  }

  // ---------- hexadecimal digest ----------

  function HexDigit(n: bv32): char {
    if n == 0 then '0' else if n == 1 then '1' else if n == 2 then '2' else if n == 3 then '3'
    else if n == 4 then '4' else if n == 5 then '5' else if n == 6 then '6' else if n == 7 then '7'
    else if n == 8 then '8' else if n == 9 then '9' else if n == 10 then 'a' else if n == 11 then 'b'
    else if n == 12 then 'c' else if n == 13 then 'd' else if n == 14 then 'e' else 'f'
  }

  /** Eight digits, zero filled. */
  function HexWord(w: bv32): string {
    [ HexDigit(w >> 28), HexDigit((w >> 24) & 0xF), HexDigit((w >> 20) & 0xF), HexDigit((w >> 16) & 0xF),
      HexDigit((w >> 12) & 0xF), HexDigit((w >> 8) & 0xF), HexDigit((w >> 4) & 0xF), HexDigit(w & 0xF) ]
  }

  function Hex(v: Words): string {
    HexWord(v.a) + HexWord(v.b) + HexWord(v.c) + HexWord(v.d) + HexWord(v.e) + HexWord(v.f) + HexWord(v.g) + HexWord(v.h)
  }

  function Sha256Hex(message: seq<byte>): string { Hex(Hash(message)) }

  predicate IsHexDigit(c: char) { '0' <= c <= '9' || 'a' <= c <= 'f' }

  lemma HexWordDigits(w: bv32)
    ensures |HexWord(w)| == 8 && forall c <- HexWord(w) :: IsHexDigit(c)
  {
  }

  /** A digest is 64 hexadecimal digits: it never needs escaping and holds no brace. */
  lemma HexShape(v: Words)
    ensures |Hex(v)| == 64 && forall c <- Hex(v) :: IsHexDigit(c)
  {
    HexWordDigits(v.a); HexWordDigits(v.b); HexWordDigits(v.c); HexWordDigits(v.d);
    HexWordDigits(v.e); HexWordDigits(v.f); HexWordDigits(v.g); HexWordDigits(v.h);
    hide HexWord;
    hide IsHexDigit;
  }

  // ---------- blocks ----------

  lemma OneMoreBlock(v: Words, blocks: seq<byte>, block: seq<byte>)
    requires |blocks| % 64 == 0 && |block| == 64
    ensures HashBlocks(v, blocks + block) == Compress(HashBlocks(v, blocks), block)
  {
    var all := blocks + block;
    assert all[..|all| - 64] == blocks && all[|all| - 64..] == block;
  }
}
