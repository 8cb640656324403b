/** The example "abc" that is published with FIPS 180-4, worked through step by step. */
module Sha256Vectors {
  import opened TransferTypes
  import opened Bytes
  import opened Sha256Spec

  /** The only block of the padded message. */
  function AbcBlock(): (block: seq<byte>)
    ensures |block| == 64
  {
    [0x61, 0x62, 0x63, 0x80] + Zeros(52) + [0, 0, 0, 0, 0, 0, 0, 24]
  }

  // ---------- the message schedule ----------

  predicate NextWord(w: seq<bv32>, t: nat)
    requires 16 <= t < |w|
  {
    w[t] == Add(Add(Add(SmallSigma1(w[t - 2]), w[t - 7]), SmallSigma0(w[t - 15])), w[t - 16])
  }

  /** The message schedule of the block. */
  predicate AbcSchedule(w: seq<bv32>) {
    && |w| == 64
    && w[0] == 0x61626380 && (forall t :: 0 < t < 15 ==> w[t] == 0) && w[15] == 0x00000018
    && forall t :: 16 <= t < 64 ==> NextWord(w, t)
  }

  lemma Word(w: seq<bv32>, t: nat, w2: bv32, w7: bv32, w15: bv32, w16: bv32, word: bv32)
    requires AbcSchedule(w) && 16 <= t < 64 && w[t - 2] == w2 && w[t - 7] == w7 && w[t - 15] == w15 && w[t - 16] == w16
    requires Add(Add(Add(SmallSigma1(w2), w7), SmallSigma0(w15)), w16) == word
    ensures w[t] == word
  {
    assert NextWord(w, t);
  }

  lemma Words16(w: seq<bv32>)
    requires AbcSchedule(w)
    ensures w[16] == 0x61626380 && w[17] == 0x000f0000 && w[18] == 0x7da86405 && w[19] == 0x600003c6
    ensures w[20] == 0x3e9d7b78 && w[21] == 0x0183fc00 && w[22] == 0x12dcbfdb && w[23] == 0xe2e2c38e
  {
    Word(w, 16, 0x00000000, 0x00000000, 0x00000000, 0x61626380, 0x61626380);
    Word(w, 17, 0x00000018, 0x00000000, 0x00000000, 0x00000000, 0x000f0000);
    Word(w, 18, 0x61626380, 0x00000000, 0x00000000, 0x00000000, 0x7da86405);
    Word(w, 19, 0x000f0000, 0x00000000, 0x00000000, 0x00000000, 0x600003c6);
    Word(w, 20, 0x7da86405, 0x00000000, 0x00000000, 0x00000000, 0x3e9d7b78);
    Word(w, 21, 0x600003c6, 0x00000000, 0x00000000, 0x00000000, 0x0183fc00);
    Word(w, 22, 0x3e9d7b78, 0x00000018, 0x00000000, 0x00000000, 0x12dcbfdb);
    Word(w, 23, 0x0183fc00, 0x61626380, 0x00000000, 0x00000000, 0xe2e2c38e);
  }

  lemma Words24(w: seq<bv32>)
    requires AbcSchedule(w)
    ensures w[24] == 0xc8215c1a && w[25] == 0xb73679a2 && w[26] == 0xe5bc3909 && w[27] == 0x32663c5b
    ensures w[28] == 0x9d209d67 && w[29] == 0xec8726cb && w[30] == 0x702138a4 && w[31] == 0xd3b7973b
  {
    Words16(w);
    Word(w, 24, 0x12dcbfdb, 0x000f0000, 0x00000000, 0x00000000, 0xc8215c1a);
    Word(w, 25, 0xe2e2c38e, 0x7da86405, 0x00000000, 0x00000000, 0xb73679a2);
    Word(w, 26, 0xc8215c1a, 0x600003c6, 0x00000000, 0x00000000, 0xe5bc3909);
    Word(w, 27, 0xb73679a2, 0x3e9d7b78, 0x00000000, 0x00000000, 0x32663c5b);
    Word(w, 28, 0xe5bc3909, 0x0183fc00, 0x00000000, 0x00000000, 0x9d209d67);
    Word(w, 29, 0x32663c5b, 0x12dcbfdb, 0x00000000, 0x00000000, 0xec8726cb);
    Word(w, 30, 0x9d209d67, 0xe2e2c38e, 0x00000018, 0x00000000, 0x702138a4);
    Word(w, 31, 0xec8726cb, 0xc8215c1a, 0x61626380, 0x00000018, 0xd3b7973b);
  }

  lemma Words32(w: seq<bv32>)
    requires AbcSchedule(w)
    ensures w[32] == 0x93f5997f && w[33] == 0x3b68ba73 && w[34] == 0xaff4ffc1 && w[35] == 0xf10a5c62
    ensures w[36] == 0x0a8b3996 && w[37] == 0x72af830a && w[38] == 0x9409e33e && w[39] == 0x24641522
  {
    Words16(w);
    Words24(w);
    hide NextWord;
    Word(w, 32, 0x702138a4, 0xb73679a2, 0x000f0000, 0x61626380, 0x93f5997f);
    Word(w, 33, 0xd3b7973b, 0xe5bc3909, 0x7da86405, 0x000f0000, 0x3b68ba73);
    Word(w, 34, 0x93f5997f, 0x32663c5b, 0x600003c6, 0x7da86405, 0xaff4ffc1);
    Word(w, 35, 0x3b68ba73, 0x9d209d67, 0x3e9d7b78, 0x600003c6, 0xf10a5c62);
    Word(w, 36, 0xaff4ffc1, 0xec8726cb, 0x0183fc00, 0x3e9d7b78, 0x0a8b3996);
    Word(w, 37, 0xf10a5c62, 0x702138a4, 0x12dcbfdb, 0x0183fc00, 0x72af830a);
    Word(w, 38, 0x0a8b3996, 0xd3b7973b, 0xe2e2c38e, 0x12dcbfdb, 0x9409e33e);
    Word(w, 39, 0x72af830a, 0x93f5997f, 0xc8215c1a, 0xe2e2c38e, 0x24641522);
  }

  lemma Words40(w: seq<bv32>)
    requires AbcSchedule(w)
    ensures w[40] == 0x9f47bf94 && w[41] == 0xf0a64f5a && w[42] == 0x3e246a79 && w[43] == 0x27333ba3
    ensures w[44] == 0x0c4763f2 && w[45] == 0x840abf27 && w[46] == 0x7a290d5d && w[47] == 0x065c43da
  {
    Words24(w);
    Words32(w);
    hide NextWord;
    Word(w, 40, 0x9409e33e, 0x3b68ba73, 0xb73679a2, 0xc8215c1a, 0x9f47bf94);
    Word(w, 41, 0x24641522, 0xaff4ffc1, 0xe5bc3909, 0xb73679a2, 0xf0a64f5a);
    Word(w, 42, 0x9f47bf94, 0xf10a5c62, 0x32663c5b, 0xe5bc3909, 0x3e246a79);
    Word(w, 43, 0xf0a64f5a, 0x0a8b3996, 0x9d209d67, 0x32663c5b, 0x27333ba3);
    Word(w, 44, 0x3e246a79, 0x72af830a, 0xec8726cb, 0x9d209d67, 0x0c4763f2);
    Word(w, 45, 0x27333ba3, 0x9409e33e, 0x702138a4, 0xec8726cb, 0x840abf27);
    Word(w, 46, 0x0c4763f2, 0x24641522, 0xd3b7973b, 0x702138a4, 0x7a290d5d);
    Word(w, 47, 0x840abf27, 0x9f47bf94, 0x93f5997f, 0xd3b7973b, 0x065c43da);
  }

  lemma Words48(w: seq<bv32>)
    requires AbcSchedule(w)
    ensures w[48] == 0xfb3e89cb && w[49] == 0xcc7617db && w[50] == 0xb9e66c34 && w[51] == 0xa9993667
    ensures w[52] == 0x84badedd && w[53] == 0xc21462bc && w[54] == 0x1487472c && w[55] == 0xb20f7a99
  {
    Words32(w);
    Words40(w);
    hide NextWord;
    Word(w, 48, 0x7a290d5d, 0xf0a64f5a, 0x3b68ba73, 0x93f5997f, 0xfb3e89cb);
    Word(w, 49, 0x065c43da, 0x3e246a79, 0xaff4ffc1, 0x3b68ba73, 0xcc7617db);
    Word(w, 50, 0xfb3e89cb, 0x27333ba3, 0xf10a5c62, 0xaff4ffc1, 0xb9e66c34);
    Word(w, 51, 0xcc7617db, 0x0c4763f2, 0x0a8b3996, 0xf10a5c62, 0xa9993667);
    Word(w, 52, 0xb9e66c34, 0x840abf27, 0x72af830a, 0x0a8b3996, 0x84badedd);
    Word(w, 53, 0xa9993667, 0x7a290d5d, 0x9409e33e, 0x72af830a, 0xc21462bc);
    Word(w, 54, 0x84badedd, 0x065c43da, 0x24641522, 0x9409e33e, 0x1487472c);
    Word(w, 55, 0xc21462bc, 0xfb3e89cb, 0x9f47bf94, 0x24641522, 0xb20f7a99);
  }

  lemma Words56(w: seq<bv32>)
    requires AbcSchedule(w)
    ensures w[56] == 0xef57b9cd && w[57] == 0xebe6b238 && w[58] == 0x9fe3095e && w[59] == 0x78bc8d4b
    ensures w[60] == 0xa43fcf15 && w[61] == 0x668b2ff8 && w[62] == 0xeeaba2cc && w[63] == 0x12b1edeb
  {
    Words40(w);
    Words48(w);
    hide NextWord;
    Word(w, 56, 0x1487472c, 0xcc7617db, 0xf0a64f5a, 0x9f47bf94, 0xef57b9cd);
    Word(w, 57, 0xb20f7a99, 0xb9e66c34, 0x3e246a79, 0xf0a64f5a, 0xebe6b238);
    Word(w, 58, 0xef57b9cd, 0xa9993667, 0x27333ba3, 0x3e246a79, 0x9fe3095e);
    Word(w, 59, 0xebe6b238, 0x84badedd, 0x0c4763f2, 0x27333ba3, 0x78bc8d4b);
    Word(w, 60, 0x9fe3095e, 0xc21462bc, 0x840abf27, 0x0c4763f2, 0xa43fcf15);
    Word(w, 61, 0x78bc8d4b, 0x1487472c, 0x7a290d5d, 0x840abf27, 0x668b2ff8);
    Word(w, 62, 0xa43fcf15, 0xb20f7a99, 0x065c43da, 0x7a290d5d, 0xeeaba2cc);
    Word(w, 63, 0x668b2ff8, 0xef57b9cd, 0xfb3e89cb, 0x065c43da, 0x12b1edeb);
  }

  // ---------- the rounds ----------

  predicate NextRound(w: seq<bv32>, v: seq<Words>, t: nat)
    requires t < |w| == 64 && |v| == 65
  {
    v[t + 1] == Round(v[t], RoundConstant(t), w[t])
  }

  /** The working variables before, between and after the rounds. */
  predicate AbcRounds(w: seq<bv32>, v: seq<Words>) {
    && AbcSchedule(w) && |v| == 65 && v[0] == H0
    && forall t :: 0 <= t < 64 ==> NextRound(w, v, t)
  }

  lemma Variables(w: seq<bv32>, v: seq<Words>, t: nat, k: bv32, word: bv32, a: bv32, e: bv32)
    requires AbcRounds(w, v) && t < 64 && RoundConstant(t) == k && w[t] == word
    requires Round(v[t], k, word) == Words(a, v[t].a, v[t].b, v[t].c, e, v[t].e, v[t].f, v[t].g)
    ensures v[t + 1] == Words(a, v[t].a, v[t].b, v[t].c, e, v[t].e, v[t].f, v[t].g)
  {
    assert NextRound(w, v, t);
  }

  lemma Rounds0(w: seq<bv32>, v: seq<Words>)
    requires AbcRounds(w, v)
    ensures v[4] == Words(0xd550f666, 0xc8c347a7, 0x5a6ad9ad, 0x5d6aebcd,
                            0x24e00850, 0xf92939eb, 0x78ce7989, 0xfa2a4622)
  {
    hide NextWord;
    hide NextRound;
    Variables(w, v, 0, 0x428a2f98, 0x61626380, 0x5d6aebcd, 0xfa2a4622);
    Variables(w, v, 1, 0x71374491, 0x00000000, 0x5a6ad9ad, 0x78ce7989);
    Variables(w, v, 2, 0xb5c0fbcf, 0x00000000, 0xc8c347a7, 0xf92939eb);
    Variables(w, v, 3, 0xe9b5dba5, 0x00000000, 0xd550f666, 0x24e00850);
  }

  lemma Rounds4(w: seq<bv32>, v: seq<Words>)
    requires AbcRounds(w, v)
    ensures v[8] == Words(0x85a07b5f, 0xe5030380, 0x2b4209f5, 0x04409a6a,
                            0x0c657a79, 0x9b27a401, 0x714260ad, 0x43ada245)
  {
    Rounds0(w, v);
    hide NextWord;
    hide NextRound;
    Variables(w, v, 4, 0x3956c25b, 0x00000000, 0x04409a6a, 0x43ada245);
    Variables(w, v, 5, 0x59f111f1, 0x00000000, 0x2b4209f5, 0x714260ad);
    Variables(w, v, 6, 0x923f82a4, 0x00000000, 0xe5030380, 0x9b27a401);
    Variables(w, v, 7, 0xab1c5ed5, 0x00000000, 0x85a07b5f, 0x0c657a79);
  }

  lemma Rounds8(w: seq<bv32>, v: seq<Words>)
    requires AbcRounds(w, v)
    ensures v[12] == Words(0xf71fc5a9, 0x4798a3f4, 0x8c87346b, 0x8e04ecb9,
                            0x816fd6e9, 0x436b23e8, 0x1cc92596, 0x32ca2d8c)
  {
    Rounds4(w, v);
    hide NextWord;
    hide NextRound;
    Variables(w, v, 8, 0xd807aa98, 0x00000000, 0x8e04ecb9, 0x32ca2d8c);
    Variables(w, v, 9, 0x12835b01, 0x00000000, 0x8c87346b, 0x1cc92596);
    Variables(w, v, 10, 0x243185be, 0x00000000, 0x4798a3f4, 0x436b23e8);
    Variables(w, v, 11, 0x550c7dc3, 0x00000000, 0xf71fc5a9, 0x816fd6e9);
  }

  lemma Rounds12(w: seq<bv32>, v: seq<Words>)
    requires AbcRounds(w, v)
    ensures v[16] == Words(0xb0fa238e, 0xc0645fde, 0xd932eb16, 0x87912990,
                            0x07590dcd, 0x0b92f20c, 0x745a48de, 0x1e578218)
  {
    Rounds8(w, v);
    hide NextWord;
    hide NextRound;
    Variables(w, v, 12, 0x72be5d74, 0x00000000, 0x87912990, 0x1e578218);
    Variables(w, v, 13, 0x80deb1fe, 0x00000000, 0xd932eb16, 0x745a48de);
    Variables(w, v, 14, 0x9bdc06a7, 0x00000000, 0xc0645fde, 0x0b92f20c);
    Variables(w, v, 15, 0xc19bf174, 0x00000018, 0xb0fa238e, 0x07590dcd);
  }

  lemma Rounds16(w: seq<bv32>, v: seq<Words>)
    requires AbcRounds(w, v)
    ensures v[20] == Words(0xe1f20c33, 0xfe777bbf, 0xc2fbd9d1, 0x21da9a9b,
                            0xb0638179, 0xcc899961, 0x846ee454, 0x8034229c)
  {
    Words16(w);
    Rounds12(w, v);
    hide NextWord;
    hide NextRound;
    Variables(w, v, 16, 0xe49b69c1, 0x61626380, 0x21da9a9b, 0x8034229c);
    Variables(w, v, 17, 0xefbe4786, 0x000f0000, 0xc2fbd9d1, 0x846ee454);
    Variables(w, v, 18, 0x0fc19dc6, 0x7da86405, 0xfe777bbf, 0xcc899961);
    Variables(w, v, 19, 0x240ca1cc, 0x600003c6, 0xe1f20c33, 0xb0638179);
  }

  lemma Rounds20(w: seq<bv32>, v: seq<Words>)
    requires AbcRounds(w, v)
    ensures v[24] == Words(0xc5d53d8d, 0xa7a3623f, 0xc2606d6d, 0x9dc68b63,
                            0xaa47c347, 0x49f5114a, 0xe1257970, 0x8ada8930)
  {
    Words16(w);
    Rounds16(w, v);
    hide NextWord;
    hide NextRound;
    Variables(w, v, 20, 0x2de92c6f, 0x3e9d7b78, 0x9dc68b63, 0x8ada8930);
    Variables(w, v, 21, 0x4a7484aa, 0x0183fc00, 0xc2606d6d, 0xe1257970);
    Variables(w, v, 22, 0x5cb0a9dc, 0x12dcbfdb, 0xa7a3623f, 0x49f5114a);
    Variables(w, v, 23, 0x76f988da, 0xe2e2c38e, 0xc5d53d8d, 0xaa47c347);
  }

  lemma Rounds24(w: seq<bv32>, v: seq<Words>)
    requires AbcRounds(w, v)
    ensures v[28] == Words(0x77d37528, 0xb62ec4bc, 0xcde8037d, 0x1c2c2838,
                            0xedffbff8, 0xc74c6516, 0x14383d8e, 0x2823ef91)
  {
    Words24(w);
    Rounds20(w, v);
    hide NextWord;
    hide NextRound;
    Variables(w, v, 24, 0x983e5152, 0xc8215c1a, 0x1c2c2838, 0x2823ef91);
    Variables(w, v, 25, 0xa831c66d, 0xb73679a2, 0xcde8037d, 0x14383d8e);
    Variables(w, v, 26, 0xb00327c8, 0xe5bc3909, 0xb62ec4bc, 0xc74c6516);
    Variables(w, v, 27, 0xbf597fc7, 0x32663c5b, 0x77d37528, 0xedffbff8);
  }

  lemma Rounds28(w: seq<bv32>, v: seq<Words>)
    requires AbcRounds(w, v)
    ensures v[32] == Words(0x73b33bf5, 0xea992a22, 0xa0060b30, 0x363482c9,
                            0xba591112, 0x0109ab3a, 0xade79437, 0x6112a3b7)
  {
    Words24(w);
    Rounds24(w, v);
    hide NextWord;
    hide NextRound;
    Variables(w, v, 28, 0xc6e00bf3, 0x9d209d67, 0x363482c9, 0x6112a3b7);
    Variables(w, v, 29, 0xd5a79147, 0xec8726cb, 0xa0060b30, 0xade79437);
    Variables(w, v, 30, 0x06ca6351, 0x702138a4, 0xea992a22, 0x0109ab3a);
    Variables(w, v, 31, 0x14292967, 0xd3b7973b, 0x73b33bf5, 0xba591112);
  }

  lemma Rounds32(w: seq<bv32>, v: seq<Words>)
    requires AbcRounds(w, v)
    ensures v[36] == Words(0x65a0cfe4, 0xa9a7738c, 0xfe604df5, 0x98e12507,
                            0xf4b002d6, 0x085f3833, 0x59249dd3, 0x9cd9f5f6)
  {
    Words32(w);
    Rounds28(w, v);
    hide NextWord;
    hide NextRound;
    Variables(w, v, 32, 0x27b70a85, 0x93f5997f, 0x98e12507, 0x9cd9f5f6);
    Variables(w, v, 33, 0x2e1b2138, 0x3b68ba73, 0xfe604df5, 0x59249dd3);
    Variables(w, v, 34, 0x4d2c6dfc, 0xaff4ffc1, 0xa9a7738c, 0x085f3833);
    Variables(w, v, 35, 0x53380d13, 0xf10a5c62, 0x65a0cfe4, 0xf4b002d6);
  }

  lemma Rounds36(w: seq<bv32>, v: seq<Words>)
    requires AbcRounds(w, v)
    ensures v[40] == Words(0x79ea687a, 0x6dc57a8a, 0x34df1604, 0x41a65cb1,
                            0x1efbc0a0, 0xf0781bc8, 0xa507a53d, 0x0772a26b)
  {
    Words32(w);
    Rounds32(w, v);
    hide NextWord;
    hide NextRound;
    Variables(w, v, 36, 0x650a7354, 0x0a8b3996, 0x41a65cb1, 0x0772a26b);
    Variables(w, v, 37, 0x766a0abb, 0x72af830a, 0x34df1604, 0xa507a53d);
    Variables(w, v, 38, 0x81c2c92e, 0x9409e33e, 0x6dc57a8a, 0xf0781bc8);
    Variables(w, v, 39, 0x92722c85, 0x24641522, 0x79ea687a, 0x1efbc0a0);
  }

  lemma Rounds40(w: seq<bv32>, v: seq<Words>)
    requires AbcRounds(w, v)
    ensures v[44] == Words(0x9d4baf93, 0x17aa0dfe, 0xdf46652f, 0xd6670766,
                            0xfda24c2e, 0xdecd4715, 0x838b2711, 0x26352d63)
  {
    Words40(w);
    Rounds36(w, v);
    hide NextWord;
    hide NextRound;
    Variables(w, v, 40, 0xa2bfe8a1, 0x9f47bf94, 0xd6670766, 0x26352d63);
    Variables(w, v, 41, 0xa81a664b, 0xf0a64f5a, 0xdf46652f, 0x838b2711);
    Variables(w, v, 42, 0xc24b8b70, 0x3e246a79, 0x17aa0dfe, 0xdecd4715);
    Variables(w, v, 43, 0xc76c51a3, 0x27333ba3, 0x9d4baf93, 0xfda24c2e);
  }

  lemma Rounds44(w: seq<bv32>, v: seq<Words>)
    requires AbcRounds(w, v)
    ensures v[48] == Words(0x4172328d, 0xa14c14b0, 0x72ab4b91, 0x26628815,
                            0xfecf0bc6, 0xd57b94a9, 0xb7755da1, 0xa80f11f0)
  {
    Words40(w);
    Rounds40(w, v);
    hide NextWord;
    hide NextRound;
    Variables(w, v, 44, 0xd192e819, 0x0c4763f2, 0x26628815, 0xa80f11f0);
    Variables(w, v, 45, 0xd6990624, 0x840abf27, 0x72ab4b91, 0xb7755da1);
    Variables(w, v, 46, 0xf40e3585, 0x7a290d5d, 0xa14c14b0, 0xd57b94a9);
    Variables(w, v, 47, 0x106aa070, 0x065c43da, 0x4172328d, 0xfecf0bc6);
  }

  lemma Rounds48(w: seq<bv32>, v: seq<Words>)
    requires AbcRounds(w, v)
    ensures v[52] == Words(0x886e7a22, 0x7a0508a1, 0xf11bfaa8, 0x05757ceb,
                            0x49231c1e, 0x52f1ccf7, 0x6e5c390c, 0xbd714038)
  {
    Words48(w);
    Rounds44(w, v);
    hide NextWord;
    hide NextRound;
    Variables(w, v, 48, 0x19a4c116, 0xfb3e89cb, 0x05757ceb, 0xbd714038);
    Variables(w, v, 49, 0x1e376c08, 0xcc7617db, 0xf11bfaa8, 0x6e5c390c);
    Variables(w, v, 50, 0x2748774c, 0xb9e66c34, 0x7a0508a1, 0x52f1ccf7);
    Variables(w, v, 51, 0x34b0bcb5, 0xa9993667, 0x886e7a22, 0x49231c1e);
  }

  lemma Rounds52(w: seq<bv32>, v: seq<Words>)
    requires AbcRounds(w, v)
    ensures v[56] == Words(0x38cc9913, 0x3ec45cdb, 0xf5702fdb, 0x101fd28f,
                            0x54cb266b, 0xe50e1b4f, 0x9f4787c3, 0x529e7d00)
  {
    Words48(w);
    Rounds48(w, v);
    hide NextWord;
    hide NextRound;
    Variables(w, v, 52, 0x391c0cb3, 0x84badedd, 0x101fd28f, 0x529e7d00);
    Variables(w, v, 53, 0x4ed8aa4a, 0xc21462bc, 0xf5702fdb, 0x9f4787c3);
    Variables(w, v, 54, 0x5b9cca4f, 0x1487472c, 0x3ec45cdb, 0xe50e1b4f);
    Variables(w, v, 55, 0x682e6ff3, 0xb20f7a99, 0x38cc9913, 0x54cb266b);
  }

  lemma Rounds56(w: seq<bv32>, v: seq<Words>)
    requires AbcRounds(w, v)
    ensures v[60] == Words(0xb6ae8fff, 0xffb70472, 0xc062d46f, 0xfcd1887b,
                            0xb21bad3d, 0x6d83bfc6, 0x7e44008e, 0x9b5e906c)
  {
    Words56(w);
    Rounds52(w, v);
    hide NextWord;
    hide NextRound;
    Variables(w, v, 56, 0x748f82ee, 0xef57b9cd, 0xfcd1887b, 0x9b5e906c);
    Variables(w, v, 57, 0x78a5636f, 0xebe6b238, 0xc062d46f, 0x7e44008e);
    Variables(w, v, 58, 0x84c87814, 0x9fe3095e, 0xffb70472, 0x6d83bfc6);
    Variables(w, v, 59, 0x8cc70208, 0x78bc8d4b, 0xb6ae8fff, 0xb21bad3d);
  }

  lemma Rounds60(w: seq<bv32>, v: seq<Words>)
    requires AbcRounds(w, v)
    ensures v[64] == Words(0x506e3058, 0xd39a2165, 0x04d24d6c, 0xb85e2ce9,
                            0x5ef50f24, 0xfb121210, 0x948d25b6, 0x961f4894)
  {
    Words56(w);
    Rounds56(w, v);
    hide NextWord;
    hide NextRound;
    Variables(w, v, 60, 0x90befffa, 0xa43fcf15, 0xb85e2ce9, 0x961f4894);
    Variables(w, v, 61, 0xa4506ceb, 0x668b2ff8, 0x04d24d6c, 0x948d25b6);
    Variables(w, v, 62, 0xbef9a3f7, 0xeeaba2cc, 0xd39a2165, 0xfb121210);
    Variables(w, v, 63, 0xc67178f2, 0x12b1edeb, 0x506e3058, 0x5ef50f24);
  }

  // ---------- the digest ----------

  lemma AbcIsOneBlock(message: seq<byte>)
    requires message == [0x61, 0x62, 0x63]
    ensures Pad(message) == AbcBlock()
  {
    assert ZeroCount(3) == 52;
    assert BigEndian(24, 8) == [0, 0, 0, 0, 0, 0, 0, 24];
  }

  lemma AbcBytes(i: nat)
    requires i < 64
    ensures AbcBlock()[i] == if i == 0 then 0x61 else if i == 1 then 0x62 else if i == 2 then 0x63 else if i == 3 then 0x80
                             else if i == 63 then 24 else 0
  {
  }

  function BytesWord(b0: byte, b1: byte, b2: byte, b3: byte): bv32 {
    ((b0 as bv32) << 24) | ((b1 as bv32) << 16) | ((b2 as bv32) << 8) | (b3 as bv32)
  }

  lemma FourBytes(block: seq<byte>, offset: nat, b0: byte, b1: byte, b2: byte, b3: byte)
    requires offset + 4 <= |block|
    requires block[offset] == b0 && block[offset + 1] == b1 && block[offset + 2] == b2 && block[offset + 3] == b3
    ensures BlockWord(block, offset) == BytesWord(b0, b1, b2, b3)
  {
  }

  lemma KnownWords()
    ensures BytesWord(0x61, 0x62, 0x63, 0x80) == 0x61626380
    ensures BytesWord(0, 0, 0, 24) == 0x00000018 && BytesWord(0, 0, 0, 0) == 0
  {
  }

  lemma FirstWord(t: nat)
    requires t < 16
    ensures BlockWord(AbcBlock(), 4 * t) == if t == 0 then 0x61626380 else if t == 15 then 0x00000018 else 0
  {
    AbcBytes(4 * t); AbcBytes(4 * t + 1); AbcBytes(4 * t + 2); AbcBytes(4 * t + 3);
    KnownWords();
    hide AbcBlock;
    hide BlockWord;
    hide BytesWord;
    var block := AbcBlock();
    FourBytes(block, 4 * t, block[4 * t], block[4 * t + 1], block[4 * t + 2], block[4 * t + 3]);
  }

  function ScheduleOf(block: seq<byte>): seq<bv32>
    requires |block| == 64
  {
    seq(64, t requires 0 <= t < 64 => Schedule(block, t))
  }

  function RoundsOf(block: seq<byte>): (v: seq<Words>)
    requires |block| == 64
    ensures |v| == 65
  {
    seq(65, t requires 0 <= t < 65 => Rounds(H0, block, t))
  }

  lemma ScheduleIsAbc(block: seq<byte>)
    requires |block| == 64 && block == AbcBlock()
    ensures AbcSchedule(ScheduleOf(block))
  {
    var w := ScheduleOf(block);
    forall t | 0 <= t < 16
      ensures w[t] == if t == 0 then 0x61626380 else if t == 15 then 0x00000018 else 0
    {
      FirstWord(t);
    }
    hide AbcBlock;
    hide BlockWord;
    forall t | 16 <= t < 64
      ensures NextWord(w, t)
    {
      ScheduleStep(block, t);
    }
  }

  lemma ScheduleStep(block: seq<byte>, t: nat)
    requires |block| == 64 && 16 <= t < 64
    ensures NextWord(ScheduleOf(block), t)
  {
    hide SmallSigma0;
    hide SmallSigma1;
    hide Add;
  }

  lemma RoundsAreAbc(block: seq<byte>)
    requires |block| == 64 && block == AbcBlock()
    ensures AbcRounds(ScheduleOf(block), RoundsOf(block))
  {
    ScheduleIsAbc(block);
    hide AbcSchedule;
    hide Round;
    hide RoundConstant;
    hide Schedule;
    hide AbcBlock;
  }

  lemma OneBlock(message: seq<byte>, block: seq<byte>)
    requires Pad(message) == block && |block| == 64
    ensures Hash(message) == AddWords(H0, RoundsOf(block)[64])
  {
    hide AddWords;
    hide Rounds;
    hide Pad;
    assert HashBlocks(H0, []) == H0;
    assert block[..0] == [] && block[0..] == block;
  }

  lemma AbcWords(v: Words)
    requires v == Words(0x506e3058, 0xd39a2165, 0x04d24d6c, 0xb85e2ce9,
                            0x5ef50f24, 0xfb121210, 0x948d25b6, 0x961f4894)
    ensures AddWords(H0, v) == Words(0xba7816bf, 0x8f01cfea, 0x414140de, 0x5dae2223,
                            0xb00361a3, 0x96177a9c, 0xb410ff61, 0xf20015ad)
  {
  }

  lemma Digits0()
    ensures HexWord(0xba7816bf) == "ba7816bf"
  {
  }

  lemma Digits1()
    ensures HexWord(0x8f01cfea) == "8f01cfea"
  {
  }

  lemma Digits2()
    ensures HexWord(0x414140de) == "414140de"
  {
  }

  lemma Digits3()
    ensures HexWord(0x5dae2223) == "5dae2223"
  {
  }

  lemma Digits4()
    ensures HexWord(0xb00361a3) == "b00361a3"
  {
  }

  lemma Digits5()
    ensures HexWord(0x96177a9c) == "96177a9c"
  {
  }

  lemma Digits6()
    ensures HexWord(0xb410ff61) == "b410ff61"
  {
  }

  lemma Digits7()
    ensures HexWord(0xf20015ad) == "f20015ad"
  {
  }

  /** The published digest. */
  lemma AbcDigest(message: seq<byte>)
    requires message == [0x61, 0x62, 0x63]
    ensures Sha256Hex(message) == "ba7816bf" + "8f01cfea" + "414140de" + "5dae2223"
                                + "b00361a3" + "96177a9c" + "b410ff61" + "f20015ad"
  {
    hide ScheduleOf;
    hide RoundsOf;
    hide AddWords;
    hide Hash;
    hide HexWord;
    hide AbcRounds;
    var block := AbcBlock();
    AbcIsOneBlock(message);
    OneBlock(message, block);
    RoundsAreAbc(block);
    Rounds60(ScheduleOf(block), RoundsOf(block));
    AbcWords(RoundsOf(block)[64]);
    Digits0(); Digits1(); Digits2(); Digits3(); Digits4(); Digits5(); Digits6(); Digits7();
  }
}
