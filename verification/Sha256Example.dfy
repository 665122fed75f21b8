// The published SHA-256 example, worked through: the one-block message "abc". It ties the
// constants, the rotations, the rounds, the padding and the text form to the standard's own
// numbers.
module Sha256Example {
  import opened Types
  import opened Sha256

  const ABC: seq<u8> := [0x61, 0x62, 0x63]

  // The padded message, one schedule word to a row of four bytes.
  function Block(): (b: seq<u8>)
    ensures |b| == 64
  {
    [0x61, 0x62, 0x63, 0x80] + Zeros(52) + [0, 0, 0, 0, 0, 0, 0, 24]
  }

  lemma BlockIsPadded()
    ensures Pad(ABC) == Block()
  {
    assert ZeroCount(3) == 52;
    assert LengthField(3) == [0, 0, 0, 0, 0, 0, 0, 24];
    assert ABC + [0x80] == [0x61, 0x62, 0x63, 0x80];
  }

  // ---- the message schedule ------------------------------------------------------------

  lemma FirstWords()
    ensures W(Block(), 0) == 0x61626380 && W(Block(), 1) == 0x00000000 && W(Block(), 2) == 0x00000000 && W(Block(), 3) == 0x00000000
    ensures W(Block(), 4) == 0x00000000 && W(Block(), 5) == 0x00000000 && W(Block(), 6) == 0x00000000 && W(Block(), 7) == 0x00000000
    ensures W(Block(), 8) == 0x00000000 && W(Block(), 9) == 0x00000000 && W(Block(), 10) == 0x00000000 && W(Block(), 11) == 0x00000000
    ensures W(Block(), 12) == 0x00000000 && W(Block(), 13) == 0x00000000 && W(Block(), 14) == 0x00000000 && W(Block(), 15) == 0x00000018
  {
    hide BigEndianWord, Zeros;
    ZeroWord();
    forall t | 1 <= t < 15
      ensures W(Block(), t) == 0
    {
      ZeroSlice(t);
    }
    assert Block()[0..4] == [0x61, 0x62, 0x63, 0x80];
    assert Block()[60..64] == [0, 0, 0, 24];
    OtherWords();
  }

  lemma ZeroSlice(t: nat)
    requires 1 <= t < 15
    ensures Block()[4 * t..4 * t + 4] == [0, 0, 0, 0]
  {
  }

  lemma ZeroWord()
    ensures BigEndianWord([0, 0, 0, 0]) == 0
  {
  }

  lemma OtherWords()
    ensures BigEndianWord([0x61, 0x62, 0x63, 0x80]) == 0x61626380 && BigEndianWord([0, 0, 0, 24]) == 24
  {
  }

  // One more word of the schedule.
  lemma NextWord(b: seq<u8>, t: nat, w16: bv32, w15: bv32, w7: bv32, w2: bv32)
    requires |b| == 64 && 16 <= t < 64
    requires W(b, t - 16) == w16 && W(b, t - 15) == w15 && W(b, t - 7) == w7 && W(b, t - 2) == w2
    ensures W(b, t) == Sum(SmallSigma1(w2), w7, SmallSigma0(w15), w16)
  {
    hide Sum, SmallSigma0, SmallSigma1, BigEndianWord;
  }

  lemma Words16(b: seq<u8>)
    requires |b| == 64
    requires W(b, 0) == 0x61626380 && W(b, 1) == 0x00000000 && W(b, 2) == 0x00000000 && W(b, 3) == 0x00000000
    requires W(b, 4) == 0x00000000 && W(b, 5) == 0x00000000 && W(b, 6) == 0x00000000 && W(b, 7) == 0x00000000
    requires W(b, 8) == 0x00000000 && W(b, 9) == 0x00000000 && W(b, 10) == 0x00000000 && W(b, 11) == 0x00000000
    requires W(b, 12) == 0x00000000 && W(b, 13) == 0x00000000 && W(b, 14) == 0x00000000 && W(b, 15) == 0x00000018
    ensures W(b, 16) == 0x61626380 && W(b, 17) == 0x000f0000 && W(b, 18) == 0x7da86405 && W(b, 19) == 0x600003c6
    ensures W(b, 20) == 0x3e9d7b78 && W(b, 21) == 0x0183fc00 && W(b, 22) == 0x12dcbfdb && W(b, 23) == 0xe2e2c38e
  {
    hide W;
    NextWord(b, 16, 0x61626380, 0x00000000, 0x00000000, 0x00000000);
    NextWord(b, 17, 0x00000000, 0x00000000, 0x00000000, 0x00000018);
    NextWord(b, 18, 0x00000000, 0x00000000, 0x00000000, 0x61626380);
    NextWord(b, 19, 0x00000000, 0x00000000, 0x00000000, 0x000f0000);
    NextWord(b, 20, 0x00000000, 0x00000000, 0x00000000, 0x7da86405);
    NextWord(b, 21, 0x00000000, 0x00000000, 0x00000000, 0x600003c6);
    NextWord(b, 22, 0x00000000, 0x00000000, 0x00000018, 0x3e9d7b78);
    NextWord(b, 23, 0x00000000, 0x00000000, 0x61626380, 0x0183fc00);
  }

  lemma Words24(b: seq<u8>)
    requires |b| == 64
    requires W(b, 8) == 0x00000000 && W(b, 9) == 0x00000000 && W(b, 10) == 0x00000000 && W(b, 11) == 0x00000000
    requires W(b, 12) == 0x00000000 && W(b, 13) == 0x00000000 && W(b, 14) == 0x00000000 && W(b, 15) == 0x00000018
    requires W(b, 16) == 0x61626380 && W(b, 17) == 0x000f0000 && W(b, 18) == 0x7da86405 && W(b, 19) == 0x600003c6
    requires W(b, 20) == 0x3e9d7b78 && W(b, 21) == 0x0183fc00 && W(b, 22) == 0x12dcbfdb && W(b, 23) == 0xe2e2c38e
    ensures W(b, 24) == 0xc8215c1a && W(b, 25) == 0xb73679a2 && W(b, 26) == 0xe5bc3909 && W(b, 27) == 0x32663c5b
    ensures W(b, 28) == 0x9d209d67 && W(b, 29) == 0xec8726cb && W(b, 30) == 0x702138a4 && W(b, 31) == 0xd3b7973b
  {
    hide W;
    NextWord(b, 24, 0x00000000, 0x00000000, 0x000f0000, 0x12dcbfdb);
    NextWord(b, 25, 0x00000000, 0x00000000, 0x7da86405, 0xe2e2c38e);
    NextWord(b, 26, 0x00000000, 0x00000000, 0x600003c6, 0xc8215c1a);
    NextWord(b, 27, 0x00000000, 0x00000000, 0x3e9d7b78, 0xb73679a2);
    NextWord(b, 28, 0x00000000, 0x00000000, 0x0183fc00, 0xe5bc3909);
    NextWord(b, 29, 0x00000000, 0x00000000, 0x12dcbfdb, 0x32663c5b);
    NextWord(b, 30, 0x00000000, 0x00000018, 0xe2e2c38e, 0x9d209d67);
    NextWord(b, 31, 0x00000018, 0x61626380, 0xc8215c1a, 0xec8726cb);
  }

  lemma Words32(b: seq<u8>)
    requires |b| == 64
    requires W(b, 16) == 0x61626380 && W(b, 17) == 0x000f0000 && W(b, 18) == 0x7da86405 && W(b, 19) == 0x600003c6
    requires W(b, 20) == 0x3e9d7b78 && W(b, 21) == 0x0183fc00 && W(b, 22) == 0x12dcbfdb && W(b, 23) == 0xe2e2c38e
    requires W(b, 24) == 0xc8215c1a && W(b, 25) == 0xb73679a2 && W(b, 26) == 0xe5bc3909 && W(b, 27) == 0x32663c5b
    requires W(b, 28) == 0x9d209d67 && W(b, 29) == 0xec8726cb && W(b, 30) == 0x702138a4 && W(b, 31) == 0xd3b7973b
    ensures W(b, 32) == 0x93f5997f && W(b, 33) == 0x3b68ba73 && W(b, 34) == 0xaff4ffc1 && W(b, 35) == 0xf10a5c62
    ensures W(b, 36) == 0x0a8b3996 && W(b, 37) == 0x72af830a && W(b, 38) == 0x9409e33e && W(b, 39) == 0x24641522
  {
    hide W;
    NextWord(b, 32, 0x61626380, 0x000f0000, 0xb73679a2, 0x702138a4);
    NextWord(b, 33, 0x000f0000, 0x7da86405, 0xe5bc3909, 0xd3b7973b);
    NextWord(b, 34, 0x7da86405, 0x600003c6, 0x32663c5b, 0x93f5997f);
    NextWord(b, 35, 0x600003c6, 0x3e9d7b78, 0x9d209d67, 0x3b68ba73);
    NextWord(b, 36, 0x3e9d7b78, 0x0183fc00, 0xec8726cb, 0xaff4ffc1);
    NextWord(b, 37, 0x0183fc00, 0x12dcbfdb, 0x702138a4, 0xf10a5c62);
    NextWord(b, 38, 0x12dcbfdb, 0xe2e2c38e, 0xd3b7973b, 0x0a8b3996);
    NextWord(b, 39, 0xe2e2c38e, 0xc8215c1a, 0x93f5997f, 0x72af830a);
  }

  lemma Words40(b: seq<u8>)
    requires |b| == 64
    requires W(b, 24) == 0xc8215c1a && W(b, 25) == 0xb73679a2 && W(b, 26) == 0xe5bc3909 && W(b, 27) == 0x32663c5b
    requires W(b, 28) == 0x9d209d67 && W(b, 29) == 0xec8726cb && W(b, 30) == 0x702138a4 && W(b, 31) == 0xd3b7973b
    requires W(b, 32) == 0x93f5997f && W(b, 33) == 0x3b68ba73 && W(b, 34) == 0xaff4ffc1 && W(b, 35) == 0xf10a5c62
    requires W(b, 36) == 0x0a8b3996 && W(b, 37) == 0x72af830a && W(b, 38) == 0x9409e33e && W(b, 39) == 0x24641522
    ensures W(b, 40) == 0x9f47bf94 && W(b, 41) == 0xf0a64f5a && W(b, 42) == 0x3e246a79 && W(b, 43) == 0x27333ba3
    ensures W(b, 44) == 0x0c4763f2 && W(b, 45) == 0x840abf27 && W(b, 46) == 0x7a290d5d && W(b, 47) == 0x065c43da
  {
    hide W;
    NextWord(b, 40, 0xc8215c1a, 0xb73679a2, 0x3b68ba73, 0x9409e33e);
    NextWord(b, 41, 0xb73679a2, 0xe5bc3909, 0xaff4ffc1, 0x24641522);
    NextWord(b, 42, 0xe5bc3909, 0x32663c5b, 0xf10a5c62, 0x9f47bf94);
    NextWord(b, 43, 0x32663c5b, 0x9d209d67, 0x0a8b3996, 0xf0a64f5a);
    NextWord(b, 44, 0x9d209d67, 0xec8726cb, 0x72af830a, 0x3e246a79);
    NextWord(b, 45, 0xec8726cb, 0x702138a4, 0x9409e33e, 0x27333ba3);
    NextWord(b, 46, 0x702138a4, 0xd3b7973b, 0x24641522, 0x0c4763f2);
    NextWord(b, 47, 0xd3b7973b, 0x93f5997f, 0x9f47bf94, 0x840abf27);
  }

  lemma Words48(b: seq<u8>)
    requires |b| == 64
    requires W(b, 32) == 0x93f5997f && W(b, 33) == 0x3b68ba73 && W(b, 34) == 0xaff4ffc1 && W(b, 35) == 0xf10a5c62
    requires W(b, 36) == 0x0a8b3996 && W(b, 37) == 0x72af830a && W(b, 38) == 0x9409e33e && W(b, 39) == 0x24641522
    requires W(b, 40) == 0x9f47bf94 && W(b, 41) == 0xf0a64f5a && W(b, 42) == 0x3e246a79 && W(b, 43) == 0x27333ba3
    requires W(b, 44) == 0x0c4763f2 && W(b, 45) == 0x840abf27 && W(b, 46) == 0x7a290d5d && W(b, 47) == 0x065c43da
    ensures W(b, 48) == 0xfb3e89cb && W(b, 49) == 0xcc7617db && W(b, 50) == 0xb9e66c34 && W(b, 51) == 0xa9993667
    ensures W(b, 52) == 0x84badedd && W(b, 53) == 0xc21462bc && W(b, 54) == 0x1487472c && W(b, 55) == 0xb20f7a99
  {
    hide W;
    NextWord(b, 48, 0x93f5997f, 0x3b68ba73, 0xf0a64f5a, 0x7a290d5d);
    NextWord(b, 49, 0x3b68ba73, 0xaff4ffc1, 0x3e246a79, 0x065c43da);
    NextWord(b, 50, 0xaff4ffc1, 0xf10a5c62, 0x27333ba3, 0xfb3e89cb);
    NextWord(b, 51, 0xf10a5c62, 0x0a8b3996, 0x0c4763f2, 0xcc7617db);
    NextWord(b, 52, 0x0a8b3996, 0x72af830a, 0x840abf27, 0xb9e66c34);
    NextWord(b, 53, 0x72af830a, 0x9409e33e, 0x7a290d5d, 0xa9993667);
    NextWord(b, 54, 0x9409e33e, 0x24641522, 0x065c43da, 0x84badedd);
    NextWord(b, 55, 0x24641522, 0x9f47bf94, 0xfb3e89cb, 0xc21462bc);
  }

  lemma Words56(b: seq<u8>)
    requires |b| == 64
    requires W(b, 40) == 0x9f47bf94 && W(b, 41) == 0xf0a64f5a && W(b, 42) == 0x3e246a79 && W(b, 43) == 0x27333ba3
    requires W(b, 44) == 0x0c4763f2 && W(b, 45) == 0x840abf27 && W(b, 46) == 0x7a290d5d && W(b, 47) == 0x065c43da
    requires W(b, 48) == 0xfb3e89cb && W(b, 49) == 0xcc7617db && W(b, 50) == 0xb9e66c34 && W(b, 51) == 0xa9993667
    requires W(b, 52) == 0x84badedd && W(b, 53) == 0xc21462bc && W(b, 54) == 0x1487472c && W(b, 55) == 0xb20f7a99
    ensures W(b, 56) == 0xef57b9cd && W(b, 57) == 0xebe6b238 && W(b, 58) == 0x9fe3095e && W(b, 59) == 0x78bc8d4b
    ensures W(b, 60) == 0xa43fcf15 && W(b, 61) == 0x668b2ff8 && W(b, 62) == 0xeeaba2cc && W(b, 63) == 0x12b1edeb
  {
    hide W;
    NextWord(b, 56, 0x9f47bf94, 0xf0a64f5a, 0xcc7617db, 0x1487472c);
    NextWord(b, 57, 0xf0a64f5a, 0x3e246a79, 0xb9e66c34, 0xb20f7a99);
    NextWord(b, 58, 0x3e246a79, 0x27333ba3, 0xa9993667, 0xef57b9cd);
    NextWord(b, 59, 0x27333ba3, 0x0c4763f2, 0x84badedd, 0xebe6b238);
    NextWord(b, 60, 0x0c4763f2, 0x840abf27, 0xc21462bc, 0x9fe3095e);
    NextWord(b, 61, 0x840abf27, 0x7a290d5d, 0x1487472c, 0x78bc8d4b);
    NextWord(b, 62, 0x7a290d5d, 0x065c43da, 0xb20f7a99, 0xa43fcf15);
    NextWord(b, 63, 0x065c43da, 0xfb3e89cb, 0xef57b9cd, 0x668b2ff8);
  }

  // ---- the rounds ----------------------------------------------------------------------

  lemma NextRound(b: seq<u8>, t: nat, v: Hash, k: bv32, w: bv32)
    requires |b| == 64 && t < 64 && Rounds(IV, b, t) == v && K(t) == k && W(b, t) == w
    ensures Rounds(IV, b, t + 1) == Round(v, k, w)
  {
    hide Round, W, K;
  }

  lemma Constants0()
    ensures K(0) == 0x428a2f98 && K(1) == 0x71374491 && K(2) == 0xb5c0fbcf && K(3) == 0xe9b5dba5
    ensures K(4) == 0x3956c25b && K(5) == 0x59f111f1 && K(6) == 0x923f82a4 && K(7) == 0xab1c5ed5
  {
  }

  lemma Rounds0(b: seq<u8>)
    requires |b| == 64
    requires Rounds(IV, b, 0) == Hash(0x6a09e667, 0xbb67ae85, 0x3c6ef372, 0xa54ff53a, 0x510e527f, 0x9b05688c, 0x1f83d9ab, 0x5be0cd19)
    requires W(b, 0) == 0x61626380 && W(b, 1) == 0x00000000 && W(b, 2) == 0x00000000 && W(b, 3) == 0x00000000
    requires W(b, 4) == 0x00000000 && W(b, 5) == 0x00000000 && W(b, 6) == 0x00000000 && W(b, 7) == 0x00000000
    ensures Rounds(IV, b, 8) == Hash(0x85a07b5f, 0xe5030380, 0x2b4209f5, 0x04409a6a, 0x0c657a79, 0x9b27a401, 0x714260ad, 0x43ada245)
  {
    hide Rounds, W, K;
    Constants0();
    NextRound(b, 0, Hash(0x6a09e667, 0xbb67ae85, 0x3c6ef372, 0xa54ff53a, 0x510e527f, 0x9b05688c, 0x1f83d9ab, 0x5be0cd19), 0x428a2f98, 0x61626380);
    NextRound(b, 1, Hash(0x5d6aebcd, 0x6a09e667, 0xbb67ae85, 0x3c6ef372, 0xfa2a4622, 0x510e527f, 0x9b05688c, 0x1f83d9ab), 0x71374491, 0x00000000);
    NextRound(b, 2, Hash(0x5a6ad9ad, 0x5d6aebcd, 0x6a09e667, 0xbb67ae85, 0x78ce7989, 0xfa2a4622, 0x510e527f, 0x9b05688c), 0xb5c0fbcf, 0x00000000);
    NextRound(b, 3, Hash(0xc8c347a7, 0x5a6ad9ad, 0x5d6aebcd, 0x6a09e667, 0xf92939eb, 0x78ce7989, 0xfa2a4622, 0x510e527f), 0xe9b5dba5, 0x00000000);
    NextRound(b, 4, Hash(0xd550f666, 0xc8c347a7, 0x5a6ad9ad, 0x5d6aebcd, 0x24e00850, 0xf92939eb, 0x78ce7989, 0xfa2a4622), 0x3956c25b, 0x00000000);
    NextRound(b, 5, Hash(0x04409a6a, 0xd550f666, 0xc8c347a7, 0x5a6ad9ad, 0x43ada245, 0x24e00850, 0xf92939eb, 0x78ce7989), 0x59f111f1, 0x00000000);
    NextRound(b, 6, Hash(0x2b4209f5, 0x04409a6a, 0xd550f666, 0xc8c347a7, 0x714260ad, 0x43ada245, 0x24e00850, 0xf92939eb), 0x923f82a4, 0x00000000);
    NextRound(b, 7, Hash(0xe5030380, 0x2b4209f5, 0x04409a6a, 0xd550f666, 0x9b27a401, 0x714260ad, 0x43ada245, 0x24e00850), 0xab1c5ed5, 0x00000000);
  }

  lemma Constants8()
    ensures K(8) == 0xd807aa98 && K(9) == 0x12835b01 && K(10) == 0x243185be && K(11) == 0x550c7dc3
    ensures K(12) == 0x72be5d74 && K(13) == 0x80deb1fe && K(14) == 0x9bdc06a7 && K(15) == 0xc19bf174
  {
  }

  lemma Rounds8(b: seq<u8>)
    requires |b| == 64
    requires Rounds(IV, b, 8) == Hash(0x85a07b5f, 0xe5030380, 0x2b4209f5, 0x04409a6a, 0x0c657a79, 0x9b27a401, 0x714260ad, 0x43ada245)
    requires W(b, 8) == 0x00000000 && W(b, 9) == 0x00000000 && W(b, 10) == 0x00000000 && W(b, 11) == 0x00000000
    requires W(b, 12) == 0x00000000 && W(b, 13) == 0x00000000 && W(b, 14) == 0x00000000 && W(b, 15) == 0x00000018
    ensures Rounds(IV, b, 16) == Hash(0xb0fa238e, 0xc0645fde, 0xd932eb16, 0x87912990, 0x07590dcd, 0x0b92f20c, 0x745a48de, 0x1e578218)
  {
    hide Rounds, W, K;
    Constants8();
    NextRound(b, 8, Hash(0x85a07b5f, 0xe5030380, 0x2b4209f5, 0x04409a6a, 0x0c657a79, 0x9b27a401, 0x714260ad, 0x43ada245), 0xd807aa98, 0x00000000);
    NextRound(b, 9, Hash(0x8e04ecb9, 0x85a07b5f, 0xe5030380, 0x2b4209f5, 0x32ca2d8c, 0x0c657a79, 0x9b27a401, 0x714260ad), 0x12835b01, 0x00000000);
    NextRound(b, 10, Hash(0x8c87346b, 0x8e04ecb9, 0x85a07b5f, 0xe5030380, 0x1cc92596, 0x32ca2d8c, 0x0c657a79, 0x9b27a401), 0x243185be, 0x00000000);
    NextRound(b, 11, Hash(0x4798a3f4, 0x8c87346b, 0x8e04ecb9, 0x85a07b5f, 0x436b23e8, 0x1cc92596, 0x32ca2d8c, 0x0c657a79), 0x550c7dc3, 0x00000000);
    NextRound(b, 12, Hash(0xf71fc5a9, 0x4798a3f4, 0x8c87346b, 0x8e04ecb9, 0x816fd6e9, 0x436b23e8, 0x1cc92596, 0x32ca2d8c), 0x72be5d74, 0x00000000);
    NextRound(b, 13, Hash(0x87912990, 0xf71fc5a9, 0x4798a3f4, 0x8c87346b, 0x1e578218, 0x816fd6e9, 0x436b23e8, 0x1cc92596), 0x80deb1fe, 0x00000000);
    NextRound(b, 14, Hash(0xd932eb16, 0x87912990, 0xf71fc5a9, 0x4798a3f4, 0x745a48de, 0x1e578218, 0x816fd6e9, 0x436b23e8), 0x9bdc06a7, 0x00000000);
    NextRound(b, 15, Hash(0xc0645fde, 0xd932eb16, 0x87912990, 0xf71fc5a9, 0x0b92f20c, 0x745a48de, 0x1e578218, 0x816fd6e9), 0xc19bf174, 0x00000018);
  }

  lemma Constants16()
    ensures K(16) == 0xe49b69c1 && K(17) == 0xefbe4786 && K(18) == 0x0fc19dc6 && K(19) == 0x240ca1cc
    ensures K(20) == 0x2de92c6f && K(21) == 0x4a7484aa && K(22) == 0x5cb0a9dc && K(23) == 0x76f988da
  {
  }

  lemma Rounds16(b: seq<u8>)
    requires |b| == 64
    requires Rounds(IV, b, 16) == Hash(0xb0fa238e, 0xc0645fde, 0xd932eb16, 0x87912990, 0x07590dcd, 0x0b92f20c, 0x745a48de, 0x1e578218)
    requires W(b, 16) == 0x61626380 && W(b, 17) == 0x000f0000 && W(b, 18) == 0x7da86405 && W(b, 19) == 0x600003c6
    requires W(b, 20) == 0x3e9d7b78 && W(b, 21) == 0x0183fc00 && W(b, 22) == 0x12dcbfdb && W(b, 23) == 0xe2e2c38e
    ensures Rounds(IV, b, 24) == Hash(0xc5d53d8d, 0xa7a3623f, 0xc2606d6d, 0x9dc68b63, 0xaa47c347, 0x49f5114a, 0xe1257970, 0x8ada8930)
  {
    hide Rounds, W, K;
    Constants16();
    NextRound(b, 16, Hash(0xb0fa238e, 0xc0645fde, 0xd932eb16, 0x87912990, 0x07590dcd, 0x0b92f20c, 0x745a48de, 0x1e578218), 0xe49b69c1, 0x61626380);
    NextRound(b, 17, Hash(0x21da9a9b, 0xb0fa238e, 0xc0645fde, 0xd932eb16, 0x8034229c, 0x07590dcd, 0x0b92f20c, 0x745a48de), 0xefbe4786, 0x000f0000);
    NextRound(b, 18, Hash(0xc2fbd9d1, 0x21da9a9b, 0xb0fa238e, 0xc0645fde, 0x846ee454, 0x8034229c, 0x07590dcd, 0x0b92f20c), 0x0fc19dc6, 0x7da86405);
    NextRound(b, 19, Hash(0xfe777bbf, 0xc2fbd9d1, 0x21da9a9b, 0xb0fa238e, 0xcc899961, 0x846ee454, 0x8034229c, 0x07590dcd), 0x240ca1cc, 0x600003c6);
    NextRound(b, 20, Hash(0xe1f20c33, 0xfe777bbf, 0xc2fbd9d1, 0x21da9a9b, 0xb0638179, 0xcc899961, 0x846ee454, 0x8034229c), 0x2de92c6f, 0x3e9d7b78);
    NextRound(b, 21, Hash(0x9dc68b63, 0xe1f20c33, 0xfe777bbf, 0xc2fbd9d1, 0x8ada8930, 0xb0638179, 0xcc899961, 0x846ee454), 0x4a7484aa, 0x0183fc00);
    NextRound(b, 22, Hash(0xc2606d6d, 0x9dc68b63, 0xe1f20c33, 0xfe777bbf, 0xe1257970, 0x8ada8930, 0xb0638179, 0xcc899961), 0x5cb0a9dc, 0x12dcbfdb);
    NextRound(b, 23, Hash(0xa7a3623f, 0xc2606d6d, 0x9dc68b63, 0xe1f20c33, 0x49f5114a, 0xe1257970, 0x8ada8930, 0xb0638179), 0x76f988da, 0xe2e2c38e);
  }

  lemma Constants24()
    ensures K(24) == 0x983e5152 && K(25) == 0xa831c66d && K(26) == 0xb00327c8 && K(27) == 0xbf597fc7
    ensures K(28) == 0xc6e00bf3 && K(29) == 0xd5a79147 && K(30) == 0x06ca6351 && K(31) == 0x14292967
  {
  }

  lemma Rounds24(b: seq<u8>)
    requires |b| == 64
    requires Rounds(IV, b, 24) == Hash(0xc5d53d8d, 0xa7a3623f, 0xc2606d6d, 0x9dc68b63, 0xaa47c347, 0x49f5114a, 0xe1257970, 0x8ada8930)
    requires W(b, 24) == 0xc8215c1a && W(b, 25) == 0xb73679a2 && W(b, 26) == 0xe5bc3909 && W(b, 27) == 0x32663c5b
    requires W(b, 28) == 0x9d209d67 && W(b, 29) == 0xec8726cb && W(b, 30) == 0x702138a4 && W(b, 31) == 0xd3b7973b
    ensures Rounds(IV, b, 32) == Hash(0x73b33bf5, 0xea992a22, 0xa0060b30, 0x363482c9, 0xba591112, 0x0109ab3a, 0xade79437, 0x6112a3b7)
  {
    hide Rounds, W, K;
    Constants24();
    NextRound(b, 24, Hash(0xc5d53d8d, 0xa7a3623f, 0xc2606d6d, 0x9dc68b63, 0xaa47c347, 0x49f5114a, 0xe1257970, 0x8ada8930), 0x983e5152, 0xc8215c1a);
    NextRound(b, 25, Hash(0x1c2c2838, 0xc5d53d8d, 0xa7a3623f, 0xc2606d6d, 0x2823ef91, 0xaa47c347, 0x49f5114a, 0xe1257970), 0xa831c66d, 0xb73679a2);
    NextRound(b, 26, Hash(0xcde8037d, 0x1c2c2838, 0xc5d53d8d, 0xa7a3623f, 0x14383d8e, 0x2823ef91, 0xaa47c347, 0x49f5114a), 0xb00327c8, 0xe5bc3909);
    NextRound(b, 27, Hash(0xb62ec4bc, 0xcde8037d, 0x1c2c2838, 0xc5d53d8d, 0xc74c6516, 0x14383d8e, 0x2823ef91, 0xaa47c347), 0xbf597fc7, 0x32663c5b);
    NextRound(b, 28, Hash(0x77d37528, 0xb62ec4bc, 0xcde8037d, 0x1c2c2838, 0xedffbff8, 0xc74c6516, 0x14383d8e, 0x2823ef91), 0xc6e00bf3, 0x9d209d67);
    NextRound(b, 29, Hash(0x363482c9, 0x77d37528, 0xb62ec4bc, 0xcde8037d, 0x6112a3b7, 0xedffbff8, 0xc74c6516, 0x14383d8e), 0xd5a79147, 0xec8726cb);
    NextRound(b, 30, Hash(0xa0060b30, 0x363482c9, 0x77d37528, 0xb62ec4bc, 0xade79437, 0x6112a3b7, 0xedffbff8, 0xc74c6516), 0x06ca6351, 0x702138a4);
    NextRound(b, 31, Hash(0xea992a22, 0xa0060b30, 0x363482c9, 0x77d37528, 0x0109ab3a, 0xade79437, 0x6112a3b7, 0xedffbff8), 0x14292967, 0xd3b7973b);
  }

  lemma Constants32()
    ensures K(32) == 0x27b70a85 && K(33) == 0x2e1b2138 && K(34) == 0x4d2c6dfc && K(35) == 0x53380d13
    ensures K(36) == 0x650a7354 && K(37) == 0x766a0abb && K(38) == 0x81c2c92e && K(39) == 0x92722c85
  {
  }

  lemma Rounds32(b: seq<u8>)
    requires |b| == 64
    requires Rounds(IV, b, 32) == Hash(0x73b33bf5, 0xea992a22, 0xa0060b30, 0x363482c9, 0xba591112, 0x0109ab3a, 0xade79437, 0x6112a3b7)
    requires W(b, 32) == 0x93f5997f && W(b, 33) == 0x3b68ba73 && W(b, 34) == 0xaff4ffc1 && W(b, 35) == 0xf10a5c62
    requires W(b, 36) == 0x0a8b3996 && W(b, 37) == 0x72af830a && W(b, 38) == 0x9409e33e && W(b, 39) == 0x24641522
    ensures Rounds(IV, b, 40) == Hash(0x79ea687a, 0x6dc57a8a, 0x34df1604, 0x41a65cb1, 0x1efbc0a0, 0xf0781bc8, 0xa507a53d, 0x0772a26b)
  {
    hide Rounds, W, K;
    Constants32();
    NextRound(b, 32, Hash(0x73b33bf5, 0xea992a22, 0xa0060b30, 0x363482c9, 0xba591112, 0x0109ab3a, 0xade79437, 0x6112a3b7), 0x27b70a85, 0x93f5997f);
    NextRound(b, 33, Hash(0x98e12507, 0x73b33bf5, 0xea992a22, 0xa0060b30, 0x9cd9f5f6, 0xba591112, 0x0109ab3a, 0xade79437), 0x2e1b2138, 0x3b68ba73);
    NextRound(b, 34, Hash(0xfe604df5, 0x98e12507, 0x73b33bf5, 0xea992a22, 0x59249dd3, 0x9cd9f5f6, 0xba591112, 0x0109ab3a), 0x4d2c6dfc, 0xaff4ffc1);
    NextRound(b, 35, Hash(0xa9a7738c, 0xfe604df5, 0x98e12507, 0x73b33bf5, 0x085f3833, 0x59249dd3, 0x9cd9f5f6, 0xba591112), 0x53380d13, 0xf10a5c62);
    NextRound(b, 36, Hash(0x65a0cfe4, 0xa9a7738c, 0xfe604df5, 0x98e12507, 0xf4b002d6, 0x085f3833, 0x59249dd3, 0x9cd9f5f6), 0x650a7354, 0x0a8b3996);
    NextRound(b, 37, Hash(0x41a65cb1, 0x65a0cfe4, 0xa9a7738c, 0xfe604df5, 0x0772a26b, 0xf4b002d6, 0x085f3833, 0x59249dd3), 0x766a0abb, 0x72af830a);
    NextRound(b, 38, Hash(0x34df1604, 0x41a65cb1, 0x65a0cfe4, 0xa9a7738c, 0xa507a53d, 0x0772a26b, 0xf4b002d6, 0x085f3833), 0x81c2c92e, 0x9409e33e);
    NextRound(b, 39, Hash(0x6dc57a8a, 0x34df1604, 0x41a65cb1, 0x65a0cfe4, 0xf0781bc8, 0xa507a53d, 0x0772a26b, 0xf4b002d6), 0x92722c85, 0x24641522);
  }

  lemma Constants40()
    ensures K(40) == 0xa2bfe8a1 && K(41) == 0xa81a664b && K(42) == 0xc24b8b70 && K(43) == 0xc76c51a3
    ensures K(44) == 0xd192e819 && K(45) == 0xd6990624 && K(46) == 0xf40e3585 && K(47) == 0x106aa070
  {
  }

  lemma Rounds40(b: seq<u8>)
    requires |b| == 64
    requires Rounds(IV, b, 40) == Hash(0x79ea687a, 0x6dc57a8a, 0x34df1604, 0x41a65cb1, 0x1efbc0a0, 0xf0781bc8, 0xa507a53d, 0x0772a26b)
    requires W(b, 40) == 0x9f47bf94 && W(b, 41) == 0xf0a64f5a && W(b, 42) == 0x3e246a79 && W(b, 43) == 0x27333ba3
    requires W(b, 44) == 0x0c4763f2 && W(b, 45) == 0x840abf27 && W(b, 46) == 0x7a290d5d && W(b, 47) == 0x065c43da
    ensures Rounds(IV, b, 48) == Hash(0x4172328d, 0xa14c14b0, 0x72ab4b91, 0x26628815, 0xfecf0bc6, 0xd57b94a9, 0xb7755da1, 0xa80f11f0)
  {
    hide Rounds, W, K;
    Constants40();
    NextRound(b, 40, Hash(0x79ea687a, 0x6dc57a8a, 0x34df1604, 0x41a65cb1, 0x1efbc0a0, 0xf0781bc8, 0xa507a53d, 0x0772a26b), 0xa2bfe8a1, 0x9f47bf94);
    NextRound(b, 41, Hash(0xd6670766, 0x79ea687a, 0x6dc57a8a, 0x34df1604, 0x26352d63, 0x1efbc0a0, 0xf0781bc8, 0xa507a53d), 0xa81a664b, 0xf0a64f5a);
    NextRound(b, 42, Hash(0xdf46652f, 0xd6670766, 0x79ea687a, 0x6dc57a8a, 0x838b2711, 0x26352d63, 0x1efbc0a0, 0xf0781bc8), 0xc24b8b70, 0x3e246a79);
    NextRound(b, 43, Hash(0x17aa0dfe, 0xdf46652f, 0xd6670766, 0x79ea687a, 0xdecd4715, 0x838b2711, 0x26352d63, 0x1efbc0a0), 0xc76c51a3, 0x27333ba3);
    NextRound(b, 44, Hash(0x9d4baf93, 0x17aa0dfe, 0xdf46652f, 0xd6670766, 0xfda24c2e, 0xdecd4715, 0x838b2711, 0x26352d63), 0xd192e819, 0x0c4763f2);
    NextRound(b, 45, Hash(0x26628815, 0x9d4baf93, 0x17aa0dfe, 0xdf46652f, 0xa80f11f0, 0xfda24c2e, 0xdecd4715, 0x838b2711), 0xd6990624, 0x840abf27);
    NextRound(b, 46, Hash(0x72ab4b91, 0x26628815, 0x9d4baf93, 0x17aa0dfe, 0xb7755da1, 0xa80f11f0, 0xfda24c2e, 0xdecd4715), 0xf40e3585, 0x7a290d5d);
    NextRound(b, 47, Hash(0xa14c14b0, 0x72ab4b91, 0x26628815, 0x9d4baf93, 0xd57b94a9, 0xb7755da1, 0xa80f11f0, 0xfda24c2e), 0x106aa070, 0x065c43da);
  }

  lemma Constants48()
    ensures K(48) == 0x19a4c116 && K(49) == 0x1e376c08 && K(50) == 0x2748774c && K(51) == 0x34b0bcb5
    ensures K(52) == 0x391c0cb3 && K(53) == 0x4ed8aa4a && K(54) == 0x5b9cca4f && K(55) == 0x682e6ff3
  {
  }

  lemma Rounds48(b: seq<u8>)
    requires |b| == 64
    requires Rounds(IV, b, 48) == Hash(0x4172328d, 0xa14c14b0, 0x72ab4b91, 0x26628815, 0xfecf0bc6, 0xd57b94a9, 0xb7755da1, 0xa80f11f0)
    requires W(b, 48) == 0xfb3e89cb && W(b, 49) == 0xcc7617db && W(b, 50) == 0xb9e66c34 && W(b, 51) == 0xa9993667
    requires W(b, 52) == 0x84badedd && W(b, 53) == 0xc21462bc && W(b, 54) == 0x1487472c && W(b, 55) == 0xb20f7a99
    ensures Rounds(IV, b, 56) == Hash(0x38cc9913, 0x3ec45cdb, 0xf5702fdb, 0x101fd28f, 0x54cb266b, 0xe50e1b4f, 0x9f4787c3, 0x529e7d00)
  {
    hide Rounds, W, K;
    Constants48();
    NextRound(b, 48, Hash(0x4172328d, 0xa14c14b0, 0x72ab4b91, 0x26628815, 0xfecf0bc6, 0xd57b94a9, 0xb7755da1, 0xa80f11f0), 0x19a4c116, 0xfb3e89cb);
    NextRound(b, 49, Hash(0x05757ceb, 0x4172328d, 0xa14c14b0, 0x72ab4b91, 0xbd714038, 0xfecf0bc6, 0xd57b94a9, 0xb7755da1), 0x1e376c08, 0xcc7617db);
    NextRound(b, 50, Hash(0xf11bfaa8, 0x05757ceb, 0x4172328d, 0xa14c14b0, 0x6e5c390c, 0xbd714038, 0xfecf0bc6, 0xd57b94a9), 0x2748774c, 0xb9e66c34);
    NextRound(b, 51, Hash(0x7a0508a1, 0xf11bfaa8, 0x05757ceb, 0x4172328d, 0x52f1ccf7, 0x6e5c390c, 0xbd714038, 0xfecf0bc6), 0x34b0bcb5, 0xa9993667);
    NextRound(b, 52, Hash(0x886e7a22, 0x7a0508a1, 0xf11bfaa8, 0x05757ceb, 0x49231c1e, 0x52f1ccf7, 0x6e5c390c, 0xbd714038), 0x391c0cb3, 0x84badedd);
    NextRound(b, 53, Hash(0x101fd28f, 0x886e7a22, 0x7a0508a1, 0xf11bfaa8, 0x529e7d00, 0x49231c1e, 0x52f1ccf7, 0x6e5c390c), 0x4ed8aa4a, 0xc21462bc);
    NextRound(b, 54, Hash(0xf5702fdb, 0x101fd28f, 0x886e7a22, 0x7a0508a1, 0x9f4787c3, 0x529e7d00, 0x49231c1e, 0x52f1ccf7), 0x5b9cca4f, 0x1487472c);
    NextRound(b, 55, Hash(0x3ec45cdb, 0xf5702fdb, 0x101fd28f, 0x886e7a22, 0xe50e1b4f, 0x9f4787c3, 0x529e7d00, 0x49231c1e), 0x682e6ff3, 0xb20f7a99);
  }

  lemma Constants56()
    ensures K(56) == 0x748f82ee && K(57) == 0x78a5636f && K(58) == 0x84c87814 && K(59) == 0x8cc70208
    ensures K(60) == 0x90befffa && K(61) == 0xa4506ceb && K(62) == 0xbef9a3f7 && K(63) == 0xc67178f2
  {
  }

  lemma Rounds56(b: seq<u8>)
    requires |b| == 64
    requires Rounds(IV, b, 56) == Hash(0x38cc9913, 0x3ec45cdb, 0xf5702fdb, 0x101fd28f, 0x54cb266b, 0xe50e1b4f, 0x9f4787c3, 0x529e7d00)
    requires W(b, 56) == 0xef57b9cd && W(b, 57) == 0xebe6b238 && W(b, 58) == 0x9fe3095e && W(b, 59) == 0x78bc8d4b
    requires W(b, 60) == 0xa43fcf15 && W(b, 61) == 0x668b2ff8 && W(b, 62) == 0xeeaba2cc && W(b, 63) == 0x12b1edeb
    ensures Rounds(IV, b, 64) == Hash(0x506e3058, 0xd39a2165, 0x04d24d6c, 0xb85e2ce9, 0x5ef50f24, 0xfb121210, 0x948d25b6, 0x961f4894)
  {
    hide Rounds, W, K;
    Constants56();
    NextRound(b, 56, Hash(0x38cc9913, 0x3ec45cdb, 0xf5702fdb, 0x101fd28f, 0x54cb266b, 0xe50e1b4f, 0x9f4787c3, 0x529e7d00), 0x748f82ee, 0xef57b9cd);
    NextRound(b, 57, Hash(0xfcd1887b, 0x38cc9913, 0x3ec45cdb, 0xf5702fdb, 0x9b5e906c, 0x54cb266b, 0xe50e1b4f, 0x9f4787c3), 0x78a5636f, 0xebe6b238);
    NextRound(b, 58, Hash(0xc062d46f, 0xfcd1887b, 0x38cc9913, 0x3ec45cdb, 0x7e44008e, 0x9b5e906c, 0x54cb266b, 0xe50e1b4f), 0x84c87814, 0x9fe3095e);
    NextRound(b, 59, Hash(0xffb70472, 0xc062d46f, 0xfcd1887b, 0x38cc9913, 0x6d83bfc6, 0x7e44008e, 0x9b5e906c, 0x54cb266b), 0x8cc70208, 0x78bc8d4b);
    NextRound(b, 60, Hash(0xb6ae8fff, 0xffb70472, 0xc062d46f, 0xfcd1887b, 0xb21bad3d, 0x6d83bfc6, 0x7e44008e, 0x9b5e906c), 0x90befffa, 0xa43fcf15);
    NextRound(b, 61, Hash(0xb85e2ce9, 0xb6ae8fff, 0xffb70472, 0xc062d46f, 0x961f4894, 0xb21bad3d, 0x6d83bfc6, 0x7e44008e), 0xa4506ceb, 0x668b2ff8);
    NextRound(b, 62, Hash(0x04d24d6c, 0xb85e2ce9, 0xb6ae8fff, 0xffb70472, 0x948d25b6, 0x961f4894, 0xb21bad3d, 0x6d83bfc6), 0xbef9a3f7, 0xeeaba2cc);
    NextRound(b, 63, Hash(0xd39a2165, 0x04d24d6c, 0xb85e2ce9, 0xb6ae8fff, 0xfb121210, 0x948d25b6, 0x961f4894, 0xb21bad3d), 0xc67178f2, 0x12b1edeb);
  }

  // ---- the digest ----------------------------------------------------------------------

  lemma AbcCompressed()
    ensures Compress(IV, Block()) == Hash(0xba7816bf, 0x8f01cfea, 0x414140de, 0x5dae2223, 0xb00361a3, 0x96177a9c, 0xb410ff61, 0xf20015ad)
  {
    hide Rounds, W, Block;
    var b := Block();
    FirstWords();
    Words16(b);
    Words24(b);
    Words32(b);
    Words40(b);
    Words48(b);
    Words56(b);
    NoRounds(b);
    Rounds0(b);
    Rounds8(b);
    Rounds16(b);
    Rounds24(b);
    Rounds32(b);
    Rounds40(b);
    Rounds48(b);
    Rounds56(b);
  }

  lemma NoRounds(b: seq<u8>)
    requires |b| == 64
    ensures Rounds(IV, b, 0) == Hash(0x6a09e667, 0xbb67ae85, 0x3c6ef372, 0xa54ff53a, 0x510e527f, 0x9b05688c, 0x1f83d9ab, 0x5be0cd19)
  {
  }

  lemma AbcDigest()
    ensures Digest(ABC) == Hash(0xba7816bf, 0x8f01cfea, 0x414140de, 0x5dae2223, 0xb00361a3, 0x96177a9c, 0xb410ff61, 0xf20015ad)
  {
    hide Compress, Pad, Block;
    BlockIsPadded();
    AbcCompressed();
    HashOfNone(Pad(ABC));
    assert Pad(ABC)[0..64] == Block();
    HashOfStep(Pad(ABC), 0);
  }

  lemma HexSnoc(words: seq<bv32>, x: bv32)
    ensures HexWords(words + [x]) == HexWords(words) + HexWord(x)
  {
    hide HexWord;
    assert (words + [x])[..|words|] == words;
  }

  lemma {:induction false} HexAppend(xs: seq<bv32>, ys: seq<bv32>)
    ensures HexWords(xs + ys) == HexWords(xs) + HexWords(ys)
  {
    hide HexWord;
    if ys == [] {
      assert xs + ys == xs;
    } else {
      var n := |ys| - 1;
      assert xs + ys == (xs + ys[..n]) + [ys[n]];
      HexSnoc(xs + ys[..n], ys[n]);
      HexAppend(xs, ys[..n]);
    }
  }

  lemma HexFour(a: bv32, b: bv32, c: bv32, d: bv32)
    ensures HexWords([a, b, c, d]) == HexWord(a) + HexWord(b) + HexWord(c) + HexWord(d)
  {
    hide HexWord, HexWords;
    NoHex();
    HexSnoc([], a);
    assert [] + [a] == [a] && "" + HexWord(a) == HexWord(a);
    HexSnoc([a], b);
    assert [a] + [b] == [a, b];
    HexSnoc([a, b], c);
    assert [a, b] + [c] == [a, b, c];
    HexSnoc([a, b, c], d);
    assert [a, b, c] + [d] == [a, b, c, d];
  }

  lemma HexJoins(h: Hash)
    ensures Hex(h) == (HexWord(h.a) + HexWord(h.b) + HexWord(h.c) + HexWord(h.d))
                      + (HexWord(h.e) + HexWord(h.f) + HexWord(h.g) + HexWord(h.h))
  {
    hide HexWord, HexWords;
    var front, back := [h.a, h.b, h.c, h.d], [h.e, h.f, h.g, h.h];
    HexAppend(front, back);
    assert front + back == [h.a, h.b, h.c, h.d, h.e, h.f, h.g, h.h];
    HexFour(h.a, h.b, h.c, h.d);
    HexFour(h.e, h.f, h.g, h.h);
  }

  lemma NoHex()
    ensures HexWords([]) == ""
  {
  }

  // The published text for "abc".
  lemma AbcText()
    ensures Hex(Digest(ABC)) == ("ba7816bf" + "8f01cfea" + "414140de" + "5dae2223")
                             + ("b00361a3" + "96177a9c" + "b410ff61" + "f20015ad")
  {
    hide HexWord, Digest, Hex;
    AbcDigest();
    HexJoins(Digest(ABC));
    TextRows();
  }

  lemma TextRows()
    ensures HexWord(0xba7816bf) == "ba7816bf"
    ensures HexWord(0x8f01cfea) == "8f01cfea"
    ensures HexWord(0x414140de) == "414140de"
    ensures HexWord(0x5dae2223) == "5dae2223"
    ensures HexWord(0xb00361a3) == "b00361a3"
    ensures HexWord(0x96177a9c) == "96177a9c"
    ensures HexWord(0xb410ff61) == "b410ff61"
    ensures HexWord(0xf20015ad) == "f20015ad"
  {
  }
}
