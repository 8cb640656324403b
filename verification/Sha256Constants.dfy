/** Where the constants of FIPS 180-4 come from (sections 4.2.2 and 5.3.3): the first 32 bits of the fractional
    parts of the cube roots of the first 64 primes and of the square roots of the first eight. */
module Sha256Constants {
  import opened Sha256Spec

  // ---------- the primes ----------

  predicate IsPrime(n: nat) { n >= 2 && forall d :: 2 <= d < n ==> n % d != 0 }

  /** The primes up to n, in order. */
  function PrimesUpTo(n: nat): seq<nat> {
    if n < 2 then [] else PrimesUpTo(n - 1) + (if IsPrime(n) then [n] else [])
  }

  /** Divisible by one of the primes below 18, and not that prime. */
  predicate Sieved(n: nat) {
    || (n % 2 == 0 && n > 2) || (n % 3 == 0 && n > 3) || (n % 5 == 0 && n > 5) || (n % 7 == 0 && n > 7)
    || (n % 11 == 0 && n > 11) || (n % 13 == 0 && n > 13) || (n % 17 == 0 && n > 17)
  }

  lemma SievedIsNotPrime(n: nat)
    requires Sieved(n)
    ensures !IsPrime(n)
  {
    var d := if n % 2 == 0 && n > 2 then 2 else if n % 3 == 0 && n > 3 then 3 else if n % 5 == 0 && n > 5 then 5
             else if n % 7 == 0 && n > 7 then 7 else if n % 11 == 0 && n > 11 then 11
             else if n % 13 == 0 && n > 13 then 13 else 17;
    assert n % d == 0;
  }

  /** A number below 18 is one of the seven primes or has one of them as a factor. */
  lemma SmallFactor(d: nat, e: nat)
    requires 2 <= d < 18 && e >= 2
    ensures Sieved(d * e)
  {
    var s := if d % 2 == 0 then 2 else if d % 3 == 0 then 3 else if d % 5 == 0 then 5 else d;
    assert d % s == 0 && (s == 2 || s == 3 || s == 5 || s == 7 || s == 11 || s == 13 || s == 17);
    var f := d / s;
    assert d == s * f && f >= 1;
    Regroup(s, f, e);
    Multiple(s, f * e);
  }

  lemma Regroup(s: nat, f: nat, e: nat)
    requires f >= 1 && e >= 2
    ensures (s * f) * e == s * (f * e) && f * e >= 2
  {
    assert (f - 1) * e >= 0;
    assert f * e == (f - 1) * e + e;
  }

  lemma Multiple(s: nat, m: nat)
    requires s >= 2 && m >= 2
    ensures (s * m) % s == 0 && s * m > s
  {
    Remainder(s, m, 0);
    assert s * (m - 2) >= 0;
    assert s * m == s * (m - 2) + 2 * s;
  }

  /** Below 18 squared the sieve is complete. */
  lemma UnsievedIsPrime(n: nat)
    requires 2 <= n < 324 && !Sieved(n)
    ensures IsPrime(n)
  {
    hide Sieved;
    forall d | 2 <= d < n
      ensures n % d != 0
    {
      if n % d == 0 {
        Cofactor(n, d);
        if d >= 18 && n / d >= 18 {
          Product(d, n / d);
        }
        if d < 18 {
          SmallFactor(d, n / d);
        } else {
          SmallFactor(n / d, d);
        }
      }
    }
  }

  lemma Cofactor(n: nat, d: nat)
    requires 2 <= d < n && n % d == 0
    ensures n / d >= 2 && n == d * (n / d) == (n / d) * d
  {
  }

  lemma Product(d: nat, e: nat)
    requires d >= 18 && e >= 18
    ensures d * e >= 324
  {
    assert (d - 18) * (e - 18) >= 0;
    assert (d - 18) * (e - 18) == d * e - 18 * e - 18 * d + 324;
  }

  predicate AllSieved(from: nat, to: nat)
    decreases if from < to then to - from else 0
  {
    from >= to || (Sieved(from) && AllSieved(from + 1, to))
  }

  lemma {:induction false} NoneSieved(from: nat, to: nat)
    requires 1 <= from <= to < 324 && AllSieved(from, to)
    ensures PrimesUpTo(to - 1) == PrimesUpTo(from - 1)
    decreases if from < to then to - from else 0
  {
    if from < to {
      SievedIsNotPrime(from);
      hide Sieved;
      NoneSieved(from + 1, to);
      hide IsPrime;
    }
  }

  /** From one prime n to the next prime p; m is n + 1. */
  lemma NextPrime(n: nat, m: nat, p: nat)
    requires 1 <= n && m == n + 1 && m <= p < 324 && !Sieved(p) && AllSieved(m, p)
    ensures PrimesUpTo(p) == PrimesUpTo(n) + [p]
  {
    NoneSieved(m, p);
    UnsievedIsPrime(p);
  }

  function Prime(t: nat): nat
    requires t < 64
  {
    [
      [2, 3, 5, 7, 11, 13, 17, 19],
      [23, 29, 31, 37, 41, 43, 47, 53],
      [59, 61, 67, 71, 73, 79, 83, 89],
      [97, 101, 103, 107, 109, 113, 127, 131],
      [137, 139, 149, 151, 157, 163, 167, 173],
      [179, 181, 191, 193, 197, 199, 211, 223],
      [227, 229, 233, 239, 241, 251, 257, 263],
      [269, 271, 277, 281, 283, 293, 307, 311] ][t / 8][t % 8]
  }

  lemma Primes1To5(t: nat)
    requires 1 <= t <= 5
    ensures PrimesUpTo(Prime(t)) == PrimesUpTo(Prime(t - 1)) + [Prime(t)]
  {
    hide PrimesUpTo;
    NextPrime(2, 3, 3); NextPrime(3, 4, 5); NextPrime(5, 6, 7);
    NextPrime(7, 8, 11); NextPrime(11, 12, 13);
  }

  lemma Primes6To10(t: nat)
    requires 6 <= t <= 10
    ensures PrimesUpTo(Prime(t)) == PrimesUpTo(Prime(t - 1)) + [Prime(t)]
  {
    hide PrimesUpTo;
    NextPrime(13, 14, 17); NextPrime(17, 18, 19); NextPrime(19, 20, 23);
    NextPrime(23, 24, 29); NextPrime(29, 30, 31);
  }

  lemma Primes11To15(t: nat)
    requires 11 <= t <= 15
    ensures PrimesUpTo(Prime(t)) == PrimesUpTo(Prime(t - 1)) + [Prime(t)]
  {
    hide PrimesUpTo;
    NextPrime(31, 32, 37); NextPrime(37, 38, 41); NextPrime(41, 42, 43);
    NextPrime(43, 44, 47); NextPrime(47, 48, 53);
  }

  lemma Primes16To20(t: nat)
    requires 16 <= t <= 20
    ensures PrimesUpTo(Prime(t)) == PrimesUpTo(Prime(t - 1)) + [Prime(t)]
  {
    hide PrimesUpTo;
    NextPrime(53, 54, 59); NextPrime(59, 60, 61); NextPrime(61, 62, 67);
    NextPrime(67, 68, 71); NextPrime(71, 72, 73);
  }

  lemma Primes21To25(t: nat)
    requires 21 <= t <= 25
    ensures PrimesUpTo(Prime(t)) == PrimesUpTo(Prime(t - 1)) + [Prime(t)]
  {
    hide PrimesUpTo;
    NextPrime(73, 74, 79); NextPrime(79, 80, 83); NextPrime(83, 84, 89);
    NextPrime(89, 90, 97); NextPrime(97, 98, 101);
  }

  lemma Primes26To30(t: nat)
    requires 26 <= t <= 30
    ensures PrimesUpTo(Prime(t)) == PrimesUpTo(Prime(t - 1)) + [Prime(t)]
  {
    hide PrimesUpTo;
    NextPrime(101, 102, 103); NextPrime(103, 104, 107); NextPrime(107, 108, 109);
    NextPrime(109, 110, 113); NextPrime(113, 114, 127);
  }

  lemma Primes31To35(t: nat)
    requires 31 <= t <= 35
    ensures PrimesUpTo(Prime(t)) == PrimesUpTo(Prime(t - 1)) + [Prime(t)]
  {
    hide PrimesUpTo;
    NextPrime(127, 128, 131); NextPrime(131, 132, 137); NextPrime(137, 138, 139);
    NextPrime(139, 140, 149); NextPrime(149, 150, 151);
  }

  lemma Primes36To40(t: nat)
    requires 36 <= t <= 40
    ensures PrimesUpTo(Prime(t)) == PrimesUpTo(Prime(t - 1)) + [Prime(t)]
  {
    hide PrimesUpTo;
    NextPrime(151, 152, 157); NextPrime(157, 158, 163); NextPrime(163, 164, 167);
    NextPrime(167, 168, 173); NextPrime(173, 174, 179);
  }

  lemma Primes41To45(t: nat)
    requires 41 <= t <= 45
    ensures PrimesUpTo(Prime(t)) == PrimesUpTo(Prime(t - 1)) + [Prime(t)]
  {
    hide PrimesUpTo;
    NextPrime(179, 180, 181); NextPrime(181, 182, 191); NextPrime(191, 192, 193);
    NextPrime(193, 194, 197); NextPrime(197, 198, 199);
  }

  lemma Primes46To50(t: nat)
    requires 46 <= t <= 50
    ensures PrimesUpTo(Prime(t)) == PrimesUpTo(Prime(t - 1)) + [Prime(t)]
  {
    hide PrimesUpTo;
    NextPrime(199, 200, 211); NextPrime(211, 212, 223); NextPrime(223, 224, 227);
    NextPrime(227, 228, 229); NextPrime(229, 230, 233);
  }

  lemma Primes51To55(t: nat)
    requires 51 <= t <= 55
    ensures PrimesUpTo(Prime(t)) == PrimesUpTo(Prime(t - 1)) + [Prime(t)]
  {
    hide PrimesUpTo;
    NextPrime(233, 234, 239); NextPrime(239, 240, 241); NextPrime(241, 242, 251);
    NextPrime(251, 252, 257); NextPrime(257, 258, 263);
  }

  lemma Primes56To60(t: nat)
    requires 56 <= t <= 60
    ensures PrimesUpTo(Prime(t)) == PrimesUpTo(Prime(t - 1)) + [Prime(t)]
  {
    hide PrimesUpTo;
    NextPrime(263, 264, 269); NextPrime(269, 270, 271); NextPrime(271, 272, 277);
    NextPrime(277, 278, 281); NextPrime(281, 282, 283);
  }

  lemma Primes61To63(t: nat)
    requires 61 <= t <= 63
    ensures PrimesUpTo(Prime(t)) == PrimesUpTo(Prime(t - 1)) + [Prime(t)]
  {
    hide PrimesUpTo;
    NextPrime(283, 284, 293); NextPrime(293, 294, 307); NextPrime(307, 308, 311);
  }

  /** Prime(t) is prime number t, counted from 0. */
  lemma {:induction false} PrimesAre(t: nat)
    requires t < 64
    ensures |PrimesUpTo(Prime(t))| == t + 1 && PrimesUpTo(Prime(t))[t] == Prime(t)
  {
    if t == 0 {
      UnsievedIsPrime(2);
      assert PrimesUpTo(1) == [];
    } else {
      hide PrimesUpTo;
      hide Prime;
      PrimesAre(t - 1);
      if t <= 5 {
        Primes1To5(t);
      } else if t <= 10 {
        Primes6To10(t);
      } else if t <= 15 {
        Primes11To15(t);
      } else if t <= 20 {
        Primes16To20(t);
      } else if t <= 25 {
        Primes21To25(t);
      } else if t <= 30 {
        Primes26To30(t);
      } else if t <= 35 {
        Primes31To35(t);
      } else if t <= 40 {
        Primes36To40(t);
      } else if t <= 45 {
        Primes41To45(t);
      } else if t <= 50 {
        Primes46To50(t);
      } else if t <= 55 {
        Primes51To55(t);
      } else if t <= 60 {
        Primes56To60(t);
      } else {
        Primes61To63(t);
      }
    }
  }

  // ---------- the roots ----------

  const TWO_32: nat := 0x1_0000_0000

  /** q is the whole part of the cube root of p and k the next 32 bits. */
  predicate CubeRoot(p: nat, q: nat, k: nat) {
    var r := q * TWO_32 + k;
    k < TWO_32 && r * r * r <= p * TWO_32 * TWO_32 * TWO_32 < (r + 1) * (r + 1) * (r + 1)
  }

  predicate SquareRoot(p: nat, q: nat, k: nat) {
    var r := q * TWO_32 + k;
    k < TWO_32 && r * r <= p * TWO_32 * TWO_32 < (r + 1) * (r + 1)
  }

  predicate CubeRootWord(p: nat, q: nat, word: bv32) { CubeRoot(p, q, word as nat) }

  predicate SquareRootWord(p: nat, q: nat, word: bv32) { SquareRoot(p, q, word as nat) }

  lemma Known(t: nat, word: bv32, p: nat, q: nat, k: nat)
    requires t < 64 && RoundConstant(t) == word && word as nat == k && Prime(t) == p && CubeRoot(p, q, k)
    ensures CubeRootWord(Prime(t), q, RoundConstant(t))
  {
  }

  lemma Roots0(t: nat)
    requires 0 <= t < 8
    ensures exists q :: CubeRootWord(Prime(t), q, RoundConstant(t))
  {
    hide CubeRootWord;
    Known(0, 0x428a2f98, 2, 1, 0x428a2f98);
    Known(1, 0x71374491, 3, 1, 0x71374491);
    Known(2, 0xb5c0fbcf, 5, 1, 0xb5c0fbcf);
    Known(3, 0xe9b5dba5, 7, 1, 0xe9b5dba5);
    Known(4, 0x3956c25b, 11, 2, 0x3956c25b);
    Known(5, 0x59f111f1, 13, 2, 0x59f111f1);
    Known(6, 0x923f82a4, 17, 2, 0x923f82a4);
    Known(7, 0xab1c5ed5, 19, 2, 0xab1c5ed5);
  }

  lemma Roots8(t: nat)
    requires 8 <= t < 16
    ensures exists q :: CubeRootWord(Prime(t), q, RoundConstant(t))
  {
    hide CubeRootWord;
    Known(8, 0xd807aa98, 23, 2, 0xd807aa98);
    Known(9, 0x12835b01, 29, 3, 0x12835b01);
    Known(10, 0x243185be, 31, 3, 0x243185be);
    Known(11, 0x550c7dc3, 37, 3, 0x550c7dc3);
    Known(12, 0x72be5d74, 41, 3, 0x72be5d74);
    Known(13, 0x80deb1fe, 43, 3, 0x80deb1fe);
    Known(14, 0x9bdc06a7, 47, 3, 0x9bdc06a7);
    Known(15, 0xc19bf174, 53, 3, 0xc19bf174);
  }

  lemma Roots16(t: nat)
    requires 16 <= t < 24
    ensures exists q :: CubeRootWord(Prime(t), q, RoundConstant(t))
  {
    hide CubeRootWord;
    Known(16, 0xe49b69c1, 59, 3, 0xe49b69c1);
    Known(17, 0xefbe4786, 61, 3, 0xefbe4786);
    Known(18, 0x0fc19dc6, 67, 4, 0x0fc19dc6);
    Known(19, 0x240ca1cc, 71, 4, 0x240ca1cc);
    Known(20, 0x2de92c6f, 73, 4, 0x2de92c6f);
    Known(21, 0x4a7484aa, 79, 4, 0x4a7484aa);
    Known(22, 0x5cb0a9dc, 83, 4, 0x5cb0a9dc);
    Known(23, 0x76f988da, 89, 4, 0x76f988da);
  }

  lemma Roots24(t: nat)
    requires 24 <= t < 32
    ensures exists q :: CubeRootWord(Prime(t), q, RoundConstant(t))
  {
    hide CubeRootWord;
    Known(24, 0x983e5152, 97, 4, 0x983e5152);
    Known(25, 0xa831c66d, 101, 4, 0xa831c66d);
    Known(26, 0xb00327c8, 103, 4, 0xb00327c8);
    Known(27, 0xbf597fc7, 107, 4, 0xbf597fc7);
    Known(28, 0xc6e00bf3, 109, 4, 0xc6e00bf3);
    Known(29, 0xd5a79147, 113, 4, 0xd5a79147);
    Known(30, 0x06ca6351, 127, 5, 0x06ca6351);
    Known(31, 0x14292967, 131, 5, 0x14292967);
  }

  lemma Roots32(t: nat)
    requires 32 <= t < 40
    ensures exists q :: CubeRootWord(Prime(t), q, RoundConstant(t))
  {
    hide CubeRootWord;
    Known(32, 0x27b70a85, 137, 5, 0x27b70a85);
    Known(33, 0x2e1b2138, 139, 5, 0x2e1b2138);
    Known(34, 0x4d2c6dfc, 149, 5, 0x4d2c6dfc);
    Known(35, 0x53380d13, 151, 5, 0x53380d13);
    Known(36, 0x650a7354, 157, 5, 0x650a7354);
    Known(37, 0x766a0abb, 163, 5, 0x766a0abb);
    Known(38, 0x81c2c92e, 167, 5, 0x81c2c92e);
    Known(39, 0x92722c85, 173, 5, 0x92722c85);
  }

  lemma Roots40(t: nat)
    requires 40 <= t < 48
    ensures exists q :: CubeRootWord(Prime(t), q, RoundConstant(t))
  {
    hide CubeRootWord;
    Known(40, 0xa2bfe8a1, 179, 5, 0xa2bfe8a1);
    Known(41, 0xa81a664b, 181, 5, 0xa81a664b);
    Known(42, 0xc24b8b70, 191, 5, 0xc24b8b70);
    Known(43, 0xc76c51a3, 193, 5, 0xc76c51a3);
    Known(44, 0xd192e819, 197, 5, 0xd192e819);
    Known(45, 0xd6990624, 199, 5, 0xd6990624);
    Known(46, 0xf40e3585, 211, 5, 0xf40e3585);
    Known(47, 0x106aa070, 223, 6, 0x106aa070);
  }

  lemma Roots48(t: nat)
    requires 48 <= t < 56
    ensures exists q :: CubeRootWord(Prime(t), q, RoundConstant(t))
  {
    hide CubeRootWord;
    Known(48, 0x19a4c116, 227, 6, 0x19a4c116);
    Known(49, 0x1e376c08, 229, 6, 0x1e376c08);
    Known(50, 0x2748774c, 233, 6, 0x2748774c);
    Known(51, 0x34b0bcb5, 239, 6, 0x34b0bcb5);
    Known(52, 0x391c0cb3, 241, 6, 0x391c0cb3);
    Known(53, 0x4ed8aa4a, 251, 6, 0x4ed8aa4a);
    Known(54, 0x5b9cca4f, 257, 6, 0x5b9cca4f);
    Known(55, 0x682e6ff3, 263, 6, 0x682e6ff3);
  }

  lemma Roots56(t: nat)
    requires 56 <= t < 64
    ensures exists q :: CubeRootWord(Prime(t), q, RoundConstant(t))
  {
    hide CubeRootWord;
    Known(56, 0x748f82ee, 269, 6, 0x748f82ee);
    Known(57, 0x78a5636f, 271, 6, 0x78a5636f);
    Known(58, 0x84c87814, 277, 6, 0x84c87814);
    Known(59, 0x8cc70208, 281, 6, 0x8cc70208);
    Known(60, 0x90befffa, 283, 6, 0x90befffa);
    Known(61, 0xa4506ceb, 293, 6, 0xa4506ceb);
    Known(62, 0xbef9a3f7, 307, 6, 0xbef9a3f7);
    Known(63, 0xc67178f2, 311, 6, 0xc67178f2);
  }

  /** Section 4.2.2: K[t] is made of the first 32 bits of the fractional part of the cube root of prime t. */
  lemma ConstantsAreFips(t: nat)
    requires t < 64
    ensures |PrimesUpTo(Prime(t))| == t + 1 && PrimesUpTo(Prime(t))[t] == Prime(t)
    ensures exists q :: CubeRootWord(Prime(t), q, RoundConstant(t))
  {
    hide RoundConstant;
    hide CubeRootWord;
    hide Prime;
    PrimesAre(t);
    if t < 8 {
      Roots0(t);
    } else if t < 16 {
      Roots8(t);
    } else if t < 24 {
      Roots16(t);
    } else if t < 32 {
      Roots24(t);
    } else if t < 40 {
      Roots32(t);
    } else if t < 48 {
      Roots40(t);
    } else if t < 56 {
      Roots48(t);
    } else {
      Roots56(t);
    }
  }

  function WordsOf(v: Words): seq<bv32> { [v.a, v.b, v.c, v.d, v.e, v.f, v.g, v.h] }

  lemma KnownInitial(i: nat, word: bv32, p: nat, q: nat, k: nat)
    requires i < 8 && WordsOf(H0)[i] == word && word as nat == k && Prime(i) == p && SquareRoot(p, q, k)
    ensures SquareRootWord(Prime(i), q, WordsOf(H0)[i])
  {
  }

  /** Section 5.3.3: word i of the initial value comes in the same way from the square root of prime i. */
  lemma InitialIsFips(i: nat)
    requires i < 8
    ensures exists q :: SquareRootWord(Prime(i), q, WordsOf(H0)[i])
  {
    hide SquareRootWord;
    KnownInitial(0, 0x6a09e667, 2, 1, 0x6a09e667);
    KnownInitial(1, 0xbb67ae85, 3, 1, 0xbb67ae85);
    KnownInitial(2, 0x3c6ef372, 5, 2, 0x3c6ef372);
    KnownInitial(3, 0xa54ff53a, 7, 2, 0xa54ff53a);
    KnownInitial(4, 0x510e527f, 11, 3, 0x510e527f);
    KnownInitial(5, 0x9b05688c, 13, 3, 0x9b05688c);
    KnownInitial(6, 0x1f83d9ab, 17, 4, 0x1f83d9ab);
    KnownInitial(7, 0x5be0cd19, 19, 4, 0x5be0cd19);
  }
}
