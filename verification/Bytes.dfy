/** Big-endian integers, as the shift loops of the C++ code write and read them. */
module Bytes {
  import opened TransferTypes

  function Pow2(n: nat): (p: nat)
    ensures p > 0
  {
    if n == 0 then 1 else 2 * Pow2(n - 1)
  }

  /** `(value >> shift) & 0xFF`. */
  function ByteAt(value: nat, shift: nat): byte {
    (value / Pow2(shift)) % 256
  }

  /** The n low bytes of a value, most significant first. */
  function BigEndian(value: nat, n: nat): (r: seq<byte>)
    ensures |r| == n
  {
    if n == 0 then [] else BigEndian(value / 256, n - 1) + [value % 256]
  }

  function FromBigEndian(s: seq<byte>): nat {
    if s == [] then 0 else FromBigEndian(s[..|s| - 1]) * 256 + s[|s| - 1]
  }

  lemma MulBounds(d: nat, k: int)
    ensures k >= 1 ==> d * k >= d
    ensures k <= -1 ==> d * k + d <= 0
    ensures k == 0 ==> d * k == 0
  {
    if k >= 1 {
      assert d * (k - 1) >= 0;
    } else if k <= -1 {
      assert d * (-1 - k) >= 0;
    }
  }

  lemma DivShift(d: nat, q: nat, r: nat)
    requires d > 0
    ensures (d * q + r) / d == q + r / d
  {
    var lhs := (d * q + r) / d;
    var m := (d * q + r) % d;
    assert d * q + r == d * lhs + m;
    assert r == d * (r / d) + r % d;
    assert d * (lhs - (q + r / d)) == r % d - m;
    MulBounds(d, lhs - (q + r / d));
  }

  lemma QuotientBelow(r: nat, a: nat, b: nat)
    requires a > 0 && r < a * b
    ensures r / a < b
  {
    var k := r / a - b;
    assert r == a * (r / a) + r % a;
    assert a * k == a * (r / a) - a * b;
    MulBounds(a, k);
  }

  lemma DivSplit(a: nat, b: nat, q: nat, r: nat)
    requires a > 0 && b > 0 && r < a * b
    ensures ((a * (b * q) + r) / a) / b == q
  {
    DivShift(a, b * q, r);
    QuotientBelow(r, a, b);
    DivShift(b, q, r / a);
    SmallQuotient(r / a, b);
  }

  lemma SmallQuotient(r: nat, b: nat)
    requires r < b
    ensures r / b == 0
  {
  }

  lemma DivMod(v: nat, d: nat)
    requires d > 0
    ensures v == d * (v / d) + v % d && v % d < d
  {
  }

  lemma DivDiv(v: nat, a: nat, b: nat)
    requires a > 0 && b > 0
    ensures a * b > 0 && (v / a) / b == v / (a * b)
  {
    MulBounds(a, b);
    var ab := a * b;
    DivMod(v, ab);
    var q, r := v / ab, v % ab;
    MulAssoc(a, b, q);
    DivSplit(a, b, q, r);
  }

  lemma MulAssoc(a: nat, b: nat, c: nat)
    ensures (a * b) * c == a * (b * c)
  {
  }

  lemma Pow2Eight(n: nat)
    ensures Pow2(n + 8) == 256 * Pow2(n)
  {
    assert Pow2(n + 8) == 2 * Pow2(n + 7);
    assert Pow2(n + 7) == 2 * Pow2(n + 6);
    assert Pow2(n + 6) == 2 * Pow2(n + 5);
    assert Pow2(n + 5) == 2 * Pow2(n + 4);
    assert Pow2(n + 4) == 2 * Pow2(n + 3);
    assert Pow2(n + 3) == 2 * Pow2(n + 2);
    assert Pow2(n + 2) == 2 * Pow2(n + 1);
  }

  /** Byte i of the big-endian form is the byte a shift loop extracts at its i-th step. */
  lemma {:induction false} BigEndianAt(value: nat, n: nat, i: nat)
    requires i < n
    ensures BigEndian(value, n)[i] == ByteAt(value, 8 * (n - 1 - i))
  {
    if i < n - 1 {
      BigEndianAt(value / 256, n - 1, i);
      var s := 8 * (n - 2 - i);
      Pow2Eight(s);
      DivDiv(value, 256, Pow2(s));
    } else {
      assert Pow2(0) == 1;
    }
  }

  lemma {:induction false} ReadsBack(value: nat, n: nat)
    requires value < Pow2(8 * n)
    ensures FromBigEndian(BigEndian(value, n)) == value
  {
    if n == 0 {
      assert Pow2(0) == 1;
    } else {
      Pow2Eight(8 * (n - 1));
      ReadsBack(value / 256, n - 1);
      assert BigEndian(value, n)[..n - 1] == BigEndian(value / 256, n - 1);
    }
  }

  lemma {:induction false} WritesBack(s: seq<byte>)
    ensures FromBigEndian(s) < Pow2(8 * |s|)
    ensures BigEndian(FromBigEndian(s), |s|) == s
  {
    if s == [] {
      assert Pow2(0) == 1;
    } else {
      var init := s[..|s| - 1];
      WritesBack(init);
      Pow2Eight(8 * |init|);
      assert init + [s[|s| - 1]] == s;
    }
  }

  lemma Widths()
    ensures Pow2(16) == 0x1_0000 && Pow2(32) == 0x1_0000_0000 && Pow2(64) == 0x1_0000_0000_0000_0000
  {
    assert Pow2(0) == 1;
    Pow2Eight(0); Pow2Eight(8); Pow2Eight(16); Pow2Eight(24);
    Pow2Eight(32); Pow2Eight(40); Pow2Eight(48); Pow2Eight(56);
  }
}
