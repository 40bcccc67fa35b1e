/** The known vector of tests/test_digest.cpp: the digest of "abc", worked out round by round. */
module KnownVector {
  import opened Bytes
  import opened Fips180
  import opened Text
  import Digest

  const ABC: seq<Byte> := [0x61, 0x62, 0x63]

  /** The padded message: one block. */
  const BLOCK: seq<Byte> := ABC + [0x80] + Zeros(52) + [0, 0, 0, 0, 0, 0, 0, 24]

  lemma Padded()
    ensures OfString("abc") == ABC && Pad(ABC) == BLOCK && |BLOCK| == 64
  {
    EightBytes();
  }

  lemma EightBytes()
    ensures BigEndian(24, 8) == [0, 0, 0, 0, 0, 0, 0, 24]
  {
    assert BigEndian(0, 1) == [0];
    assert BigEndian(0, 2) == [0, 0];
    assert BigEndian(0, 3) == [0, 0, 0];
    assert BigEndian(0, 4) == [0, 0, 0, 0];
    assert BigEndian(0, 5) == [0, 0, 0, 0, 0];
    assert BigEndian(0, 6) == [0, 0, 0, 0, 0, 0];
    assert BigEndian(0, 7) == [0, 0, 0, 0, 0, 0, 0];
  }

  lemma ScheduleStep(t: nat, a: Word, b: Word, c: Word, d: Word, w: Word)
    requires 16 <= t && |BLOCK| == 64
    requires Schedule(BLOCK, t - 2) == a && Schedule(BLOCK, t - 7) == b
    requires Schedule(BLOCK, t - 15) == c && Schedule(BLOCK, t - 16) == d
    requires Sum4(SmallSigma1(a), b, SmallSigma0(c), d) == w
    ensures Schedule(BLOCK, t) == w
  {
    hide Sum4, SmallSigma0, SmallSigma1, BLOCK;
  }

  lemma RoundStep(v: Hash, t: nat, k: Word, w: Word, next: Hash)
    requires t < |K| && |BLOCK| == 64 && Rounds(H0, BLOCK, t) == v && K[t] == k && Schedule(BLOCK, t) == w
    requires Round(v, k, w) == next
    ensures Rounds(H0, BLOCK, t + 1) == next
  {
    hide Round, Schedule, BLOCK, H0, K;
  }

  lemma Message0()
    ensures |BLOCK| == 64
    ensures Schedule(BLOCK, 0) == 0x61626380
    ensures Schedule(BLOCK, 1) == 0x00000000
    ensures Schedule(BLOCK, 2) == 0x00000000
    ensures Schedule(BLOCK, 3) == 0x00000000
    ensures Schedule(BLOCK, 4) == 0x00000000
    ensures Schedule(BLOCK, 5) == 0x00000000
    ensures Schedule(BLOCK, 6) == 0x00000000
    ensures Schedule(BLOCK, 7) == 0x00000000
    ensures Schedule(BLOCK, 8) == 0x00000000
    ensures Schedule(BLOCK, 9) == 0x00000000
    ensures Schedule(BLOCK, 10) == 0x00000000
    ensures Schedule(BLOCK, 11) == 0x00000000
    ensures Schedule(BLOCK, 12) == 0x00000000
    ensures Schedule(BLOCK, 13) == 0x00000000
    ensures Schedule(BLOCK, 14) == 0x00000000
    ensures Schedule(BLOCK, 15) == 0x00000018
  {
    hide Schedule;
    FirstWords();
    OtherWords();
  }

  lemma BlockBytes()
    ensures |BLOCK| == 64 && BLOCK[0] == 0x61 && BLOCK[1] == 0x62 && BLOCK[2] == 0x63 && BLOCK[3] == 0x80
    ensures BLOCK[63] == 24 && forall i :: 4 <= i < 63 ==> BLOCK[i] == 0
  {
  }

  lemma FirstWords()
    ensures |BLOCK| == 64
    ensures Schedule(BLOCK, 0) == 0x61626380
    ensures Schedule(BLOCK, 1) == 0x00000000
    ensures Schedule(BLOCK, 2) == 0x00000000
    ensures Schedule(BLOCK, 3) == 0x00000000
    ensures Schedule(BLOCK, 4) == 0x00000000
    ensures Schedule(BLOCK, 5) == 0x00000000
    ensures Schedule(BLOCK, 6) == 0x00000000
    ensures Schedule(BLOCK, 7) == 0x00000000
  {
    hide BLOCK;
    BlockBytes();
  }

  lemma OtherWords()
    ensures |BLOCK| == 64
    ensures Schedule(BLOCK, 8) == 0x00000000
    ensures Schedule(BLOCK, 9) == 0x00000000
    ensures Schedule(BLOCK, 10) == 0x00000000
    ensures Schedule(BLOCK, 11) == 0x00000000
    ensures Schedule(BLOCK, 12) == 0x00000000
    ensures Schedule(BLOCK, 13) == 0x00000000
    ensures Schedule(BLOCK, 14) == 0x00000000
    ensures Schedule(BLOCK, 15) == 0x00000018
  {
    hide BLOCK;
    BlockBytes();
  }

  lemma Message1()
    ensures |BLOCK| == 64
    ensures Schedule(BLOCK, 16) == 0x61626380
    ensures Schedule(BLOCK, 17) == 0x000f0000
    ensures Schedule(BLOCK, 18) == 0x7da86405
    ensures Schedule(BLOCK, 19) == 0x600003c6
    ensures Schedule(BLOCK, 20) == 0x3e9d7b78
    ensures Schedule(BLOCK, 21) == 0x0183fc00
    ensures Schedule(BLOCK, 22) == 0x12dcbfdb
    ensures Schedule(BLOCK, 23) == 0xe2e2c38e
    ensures Schedule(BLOCK, 24) == 0xc8215c1a
    ensures Schedule(BLOCK, 25) == 0xb73679a2
    ensures Schedule(BLOCK, 26) == 0xe5bc3909
    ensures Schedule(BLOCK, 27) == 0x32663c5b
    ensures Schedule(BLOCK, 28) == 0x9d209d67
    ensures Schedule(BLOCK, 29) == 0xec8726cb
    ensures Schedule(BLOCK, 30) == 0x702138a4
    ensures Schedule(BLOCK, 31) == 0xd3b7973b
  {
    hide Schedule, BLOCK;
    Message0();
    ScheduleStep(16, 0x00000000, 0x00000000, 0x00000000, 0x61626380, 0x61626380);
    ScheduleStep(17, 0x00000018, 0x00000000, 0x00000000, 0x00000000, 0x000f0000);
    ScheduleStep(18, 0x61626380, 0x00000000, 0x00000000, 0x00000000, 0x7da86405);
    ScheduleStep(19, 0x000f0000, 0x00000000, 0x00000000, 0x00000000, 0x600003c6);
    ScheduleStep(20, 0x7da86405, 0x00000000, 0x00000000, 0x00000000, 0x3e9d7b78);
    ScheduleStep(21, 0x600003c6, 0x00000000, 0x00000000, 0x00000000, 0x0183fc00);
    ScheduleStep(22, 0x3e9d7b78, 0x00000018, 0x00000000, 0x00000000, 0x12dcbfdb);
    ScheduleStep(23, 0x0183fc00, 0x61626380, 0x00000000, 0x00000000, 0xe2e2c38e);
    ScheduleStep(24, 0x12dcbfdb, 0x000f0000, 0x00000000, 0x00000000, 0xc8215c1a);
    ScheduleStep(25, 0xe2e2c38e, 0x7da86405, 0x00000000, 0x00000000, 0xb73679a2);
    ScheduleStep(26, 0xc8215c1a, 0x600003c6, 0x00000000, 0x00000000, 0xe5bc3909);
    ScheduleStep(27, 0xb73679a2, 0x3e9d7b78, 0x00000000, 0x00000000, 0x32663c5b);
    ScheduleStep(28, 0xe5bc3909, 0x0183fc00, 0x00000000, 0x00000000, 0x9d209d67);
    ScheduleStep(29, 0x32663c5b, 0x12dcbfdb, 0x00000000, 0x00000000, 0xec8726cb);
    ScheduleStep(30, 0x9d209d67, 0xe2e2c38e, 0x00000018, 0x00000000, 0x702138a4);
    ScheduleStep(31, 0xec8726cb, 0xc8215c1a, 0x61626380, 0x00000018, 0xd3b7973b);
  }

  lemma Message2()
    ensures |BLOCK| == 64
    ensures Schedule(BLOCK, 32) == 0x93f5997f
    ensures Schedule(BLOCK, 33) == 0x3b68ba73
    ensures Schedule(BLOCK, 34) == 0xaff4ffc1
    ensures Schedule(BLOCK, 35) == 0xf10a5c62
    ensures Schedule(BLOCK, 36) == 0x0a8b3996
    ensures Schedule(BLOCK, 37) == 0x72af830a
    ensures Schedule(BLOCK, 38) == 0x9409e33e
    ensures Schedule(BLOCK, 39) == 0x24641522
    ensures Schedule(BLOCK, 40) == 0x9f47bf94
    ensures Schedule(BLOCK, 41) == 0xf0a64f5a
    ensures Schedule(BLOCK, 42) == 0x3e246a79
    ensures Schedule(BLOCK, 43) == 0x27333ba3
    ensures Schedule(BLOCK, 44) == 0x0c4763f2
    ensures Schedule(BLOCK, 45) == 0x840abf27
    ensures Schedule(BLOCK, 46) == 0x7a290d5d
    ensures Schedule(BLOCK, 47) == 0x065c43da
  {
    hide Schedule, BLOCK;
    Message1();
    ScheduleStep(32, 0x702138a4, 0xb73679a2, 0x000f0000, 0x61626380, 0x93f5997f);
    ScheduleStep(33, 0xd3b7973b, 0xe5bc3909, 0x7da86405, 0x000f0000, 0x3b68ba73);
    ScheduleStep(34, 0x93f5997f, 0x32663c5b, 0x600003c6, 0x7da86405, 0xaff4ffc1);
    ScheduleStep(35, 0x3b68ba73, 0x9d209d67, 0x3e9d7b78, 0x600003c6, 0xf10a5c62);
    ScheduleStep(36, 0xaff4ffc1, 0xec8726cb, 0x0183fc00, 0x3e9d7b78, 0x0a8b3996);
    ScheduleStep(37, 0xf10a5c62, 0x702138a4, 0x12dcbfdb, 0x0183fc00, 0x72af830a);
    ScheduleStep(38, 0x0a8b3996, 0xd3b7973b, 0xe2e2c38e, 0x12dcbfdb, 0x9409e33e);
    ScheduleStep(39, 0x72af830a, 0x93f5997f, 0xc8215c1a, 0xe2e2c38e, 0x24641522);
    ScheduleStep(40, 0x9409e33e, 0x3b68ba73, 0xb73679a2, 0xc8215c1a, 0x9f47bf94);
    ScheduleStep(41, 0x24641522, 0xaff4ffc1, 0xe5bc3909, 0xb73679a2, 0xf0a64f5a);
    ScheduleStep(42, 0x9f47bf94, 0xf10a5c62, 0x32663c5b, 0xe5bc3909, 0x3e246a79);
    ScheduleStep(43, 0xf0a64f5a, 0x0a8b3996, 0x9d209d67, 0x32663c5b, 0x27333ba3);
    ScheduleStep(44, 0x3e246a79, 0x72af830a, 0xec8726cb, 0x9d209d67, 0x0c4763f2);
    ScheduleStep(45, 0x27333ba3, 0x9409e33e, 0x702138a4, 0xec8726cb, 0x840abf27);
    ScheduleStep(46, 0x0c4763f2, 0x24641522, 0xd3b7973b, 0x702138a4, 0x7a290d5d);
    ScheduleStep(47, 0x840abf27, 0x9f47bf94, 0x93f5997f, 0xd3b7973b, 0x065c43da);
  }

  lemma Message3()
    ensures |BLOCK| == 64
    ensures Schedule(BLOCK, 48) == 0xfb3e89cb
    ensures Schedule(BLOCK, 49) == 0xcc7617db
    ensures Schedule(BLOCK, 50) == 0xb9e66c34
    ensures Schedule(BLOCK, 51) == 0xa9993667
    ensures Schedule(BLOCK, 52) == 0x84badedd
    ensures Schedule(BLOCK, 53) == 0xc21462bc
    ensures Schedule(BLOCK, 54) == 0x1487472c
    ensures Schedule(BLOCK, 55) == 0xb20f7a99
    ensures Schedule(BLOCK, 56) == 0xef57b9cd
    ensures Schedule(BLOCK, 57) == 0xebe6b238
    ensures Schedule(BLOCK, 58) == 0x9fe3095e
    ensures Schedule(BLOCK, 59) == 0x78bc8d4b
    ensures Schedule(BLOCK, 60) == 0xa43fcf15
    ensures Schedule(BLOCK, 61) == 0x668b2ff8
    ensures Schedule(BLOCK, 62) == 0xeeaba2cc
    ensures Schedule(BLOCK, 63) == 0x12b1edeb
  {
    hide Schedule, BLOCK;
    Message2();
    ScheduleStep(48, 0x7a290d5d, 0xf0a64f5a, 0x3b68ba73, 0x93f5997f, 0xfb3e89cb);
    ScheduleStep(49, 0x065c43da, 0x3e246a79, 0xaff4ffc1, 0x3b68ba73, 0xcc7617db);
    ScheduleStep(50, 0xfb3e89cb, 0x27333ba3, 0xf10a5c62, 0xaff4ffc1, 0xb9e66c34);
    ScheduleStep(51, 0xcc7617db, 0x0c4763f2, 0x0a8b3996, 0xf10a5c62, 0xa9993667);
    ScheduleStep(52, 0xb9e66c34, 0x840abf27, 0x72af830a, 0x0a8b3996, 0x84badedd);
    ScheduleStep(53, 0xa9993667, 0x7a290d5d, 0x9409e33e, 0x72af830a, 0xc21462bc);
    ScheduleStep(54, 0x84badedd, 0x065c43da, 0x24641522, 0x9409e33e, 0x1487472c);
    ScheduleStep(55, 0xc21462bc, 0xfb3e89cb, 0x9f47bf94, 0x24641522, 0xb20f7a99);
    ScheduleStep(56, 0x1487472c, 0xcc7617db, 0xf0a64f5a, 0x9f47bf94, 0xef57b9cd);
    ScheduleStep(57, 0xb20f7a99, 0xb9e66c34, 0x3e246a79, 0xf0a64f5a, 0xebe6b238);
    ScheduleStep(58, 0xef57b9cd, 0xa9993667, 0x27333ba3, 0x3e246a79, 0x9fe3095e);
    ScheduleStep(59, 0xebe6b238, 0x84badedd, 0x0c4763f2, 0x27333ba3, 0x78bc8d4b);
    ScheduleStep(60, 0x9fe3095e, 0xc21462bc, 0x840abf27, 0x0c4763f2, 0xa43fcf15);
    ScheduleStep(61, 0x78bc8d4b, 0x1487472c, 0x7a290d5d, 0x840abf27, 0x668b2ff8);
    ScheduleStep(62, 0xa43fcf15, 0xb20f7a99, 0x065c43da, 0x7a290d5d, 0xeeaba2cc);
    ScheduleStep(63, 0x668b2ff8, 0xef57b9cd, 0xfb3e89cb, 0x065c43da, 0x12b1edeb);
  }

  lemma Rounds0()
    ensures |BLOCK| == 64 && |K| == 64 && Rounds(H0, BLOCK, 8) == Hash(0x85a07b5f, 0xe5030380, 0x2b4209f5, 0x04409a6a, 0x0c657a79, 0x9b27a401, 0x714260ad, 0x43ada245)
  {
    hide Rounds, Schedule, BLOCK, K;
    Message0();
    Row0();
    NoRounds();
    RoundStep(Hash(0x6a09e667, 0xbb67ae85, 0x3c6ef372, 0xa54ff53a, 0x510e527f, 0x9b05688c, 0x1f83d9ab, 0x5be0cd19), 0, 0x428a2f98, 0x61626380, Hash(0x5d6aebcd, 0x6a09e667, 0xbb67ae85, 0x3c6ef372, 0xfa2a4622, 0x510e527f, 0x9b05688c, 0x1f83d9ab));
    RoundStep(Hash(0x5d6aebcd, 0x6a09e667, 0xbb67ae85, 0x3c6ef372, 0xfa2a4622, 0x510e527f, 0x9b05688c, 0x1f83d9ab), 1, 0x71374491, 0x00000000, Hash(0x5a6ad9ad, 0x5d6aebcd, 0x6a09e667, 0xbb67ae85, 0x78ce7989, 0xfa2a4622, 0x510e527f, 0x9b05688c));
    RoundStep(Hash(0x5a6ad9ad, 0x5d6aebcd, 0x6a09e667, 0xbb67ae85, 0x78ce7989, 0xfa2a4622, 0x510e527f, 0x9b05688c), 2, 0xb5c0fbcf, 0x00000000, Hash(0xc8c347a7, 0x5a6ad9ad, 0x5d6aebcd, 0x6a09e667, 0xf92939eb, 0x78ce7989, 0xfa2a4622, 0x510e527f));
    RoundStep(Hash(0xc8c347a7, 0x5a6ad9ad, 0x5d6aebcd, 0x6a09e667, 0xf92939eb, 0x78ce7989, 0xfa2a4622, 0x510e527f), 3, 0xe9b5dba5, 0x00000000, Hash(0xd550f666, 0xc8c347a7, 0x5a6ad9ad, 0x5d6aebcd, 0x24e00850, 0xf92939eb, 0x78ce7989, 0xfa2a4622));
    RoundStep(Hash(0xd550f666, 0xc8c347a7, 0x5a6ad9ad, 0x5d6aebcd, 0x24e00850, 0xf92939eb, 0x78ce7989, 0xfa2a4622), 4, 0x3956c25b, 0x00000000, Hash(0x04409a6a, 0xd550f666, 0xc8c347a7, 0x5a6ad9ad, 0x43ada245, 0x24e00850, 0xf92939eb, 0x78ce7989));
    RoundStep(Hash(0x04409a6a, 0xd550f666, 0xc8c347a7, 0x5a6ad9ad, 0x43ada245, 0x24e00850, 0xf92939eb, 0x78ce7989), 5, 0x59f111f1, 0x00000000, Hash(0x2b4209f5, 0x04409a6a, 0xd550f666, 0xc8c347a7, 0x714260ad, 0x43ada245, 0x24e00850, 0xf92939eb));
    RoundStep(Hash(0x2b4209f5, 0x04409a6a, 0xd550f666, 0xc8c347a7, 0x714260ad, 0x43ada245, 0x24e00850, 0xf92939eb), 6, 0x923f82a4, 0x00000000, Hash(0xe5030380, 0x2b4209f5, 0x04409a6a, 0xd550f666, 0x9b27a401, 0x714260ad, 0x43ada245, 0x24e00850));
    RoundStep(Hash(0xe5030380, 0x2b4209f5, 0x04409a6a, 0xd550f666, 0x9b27a401, 0x714260ad, 0x43ada245, 0x24e00850), 7, 0xab1c5ed5, 0x00000000, Hash(0x85a07b5f, 0xe5030380, 0x2b4209f5, 0x04409a6a, 0x0c657a79, 0x9b27a401, 0x714260ad, 0x43ada245));
  }

  lemma Row0()
    ensures |K| == 64
    ensures K[0] == 0x428a2f98 && K[1] == 0x71374491 && K[2] == 0xb5c0fbcf && K[3] == 0xe9b5dba5
    ensures K[4] == 0x3956c25b && K[5] == 0x59f111f1 && K[6] == 0x923f82a4 && K[7] == 0xab1c5ed5
  {
  }

  lemma Rounds1()
    ensures |BLOCK| == 64 && |K| == 64 && Rounds(H0, BLOCK, 16) == Hash(0xb0fa238e, 0xc0645fde, 0xd932eb16, 0x87912990, 0x07590dcd, 0x0b92f20c, 0x745a48de, 0x1e578218)
  {
    hide Rounds, Schedule, BLOCK, K;
    Message0();
    Row1();
    Rounds0();
    RoundStep(Hash(0x85a07b5f, 0xe5030380, 0x2b4209f5, 0x04409a6a, 0x0c657a79, 0x9b27a401, 0x714260ad, 0x43ada245), 8, 0xd807aa98, 0x00000000, Hash(0x8e04ecb9, 0x85a07b5f, 0xe5030380, 0x2b4209f5, 0x32ca2d8c, 0x0c657a79, 0x9b27a401, 0x714260ad));
    RoundStep(Hash(0x8e04ecb9, 0x85a07b5f, 0xe5030380, 0x2b4209f5, 0x32ca2d8c, 0x0c657a79, 0x9b27a401, 0x714260ad), 9, 0x12835b01, 0x00000000, Hash(0x8c87346b, 0x8e04ecb9, 0x85a07b5f, 0xe5030380, 0x1cc92596, 0x32ca2d8c, 0x0c657a79, 0x9b27a401));
    RoundStep(Hash(0x8c87346b, 0x8e04ecb9, 0x85a07b5f, 0xe5030380, 0x1cc92596, 0x32ca2d8c, 0x0c657a79, 0x9b27a401), 10, 0x243185be, 0x00000000, Hash(0x4798a3f4, 0x8c87346b, 0x8e04ecb9, 0x85a07b5f, 0x436b23e8, 0x1cc92596, 0x32ca2d8c, 0x0c657a79));
    RoundStep(Hash(0x4798a3f4, 0x8c87346b, 0x8e04ecb9, 0x85a07b5f, 0x436b23e8, 0x1cc92596, 0x32ca2d8c, 0x0c657a79), 11, 0x550c7dc3, 0x00000000, Hash(0xf71fc5a9, 0x4798a3f4, 0x8c87346b, 0x8e04ecb9, 0x816fd6e9, 0x436b23e8, 0x1cc92596, 0x32ca2d8c));
    RoundStep(Hash(0xf71fc5a9, 0x4798a3f4, 0x8c87346b, 0x8e04ecb9, 0x816fd6e9, 0x436b23e8, 0x1cc92596, 0x32ca2d8c), 12, 0x72be5d74, 0x00000000, Hash(0x87912990, 0xf71fc5a9, 0x4798a3f4, 0x8c87346b, 0x1e578218, 0x816fd6e9, 0x436b23e8, 0x1cc92596));
    RoundStep(Hash(0x87912990, 0xf71fc5a9, 0x4798a3f4, 0x8c87346b, 0x1e578218, 0x816fd6e9, 0x436b23e8, 0x1cc92596), 13, 0x80deb1fe, 0x00000000, Hash(0xd932eb16, 0x87912990, 0xf71fc5a9, 0x4798a3f4, 0x745a48de, 0x1e578218, 0x816fd6e9, 0x436b23e8));
    RoundStep(Hash(0xd932eb16, 0x87912990, 0xf71fc5a9, 0x4798a3f4, 0x745a48de, 0x1e578218, 0x816fd6e9, 0x436b23e8), 14, 0x9bdc06a7, 0x00000000, Hash(0xc0645fde, 0xd932eb16, 0x87912990, 0xf71fc5a9, 0x0b92f20c, 0x745a48de, 0x1e578218, 0x816fd6e9));
    RoundStep(Hash(0xc0645fde, 0xd932eb16, 0x87912990, 0xf71fc5a9, 0x0b92f20c, 0x745a48de, 0x1e578218, 0x816fd6e9), 15, 0xc19bf174, 0x00000018, Hash(0xb0fa238e, 0xc0645fde, 0xd932eb16, 0x87912990, 0x07590dcd, 0x0b92f20c, 0x745a48de, 0x1e578218));
  }

  lemma Row1()
    ensures |K| == 64
    ensures K[8] == 0xd807aa98 && K[9] == 0x12835b01 && K[10] == 0x243185be && K[11] == 0x550c7dc3
    ensures K[12] == 0x72be5d74 && K[13] == 0x80deb1fe && K[14] == 0x9bdc06a7 && K[15] == 0xc19bf174
  {
  }

  lemma Rounds2()
    ensures |BLOCK| == 64 && |K| == 64 && Rounds(H0, BLOCK, 24) == Hash(0xc5d53d8d, 0xa7a3623f, 0xc2606d6d, 0x9dc68b63, 0xaa47c347, 0x49f5114a, 0xe1257970, 0x8ada8930)
  {
    hide Rounds, Schedule, BLOCK, K;
    Message1();
    Row2();
    Rounds1();
    RoundStep(Hash(0xb0fa238e, 0xc0645fde, 0xd932eb16, 0x87912990, 0x07590dcd, 0x0b92f20c, 0x745a48de, 0x1e578218), 16, 0xe49b69c1, 0x61626380, Hash(0x21da9a9b, 0xb0fa238e, 0xc0645fde, 0xd932eb16, 0x8034229c, 0x07590dcd, 0x0b92f20c, 0x745a48de));
    RoundStep(Hash(0x21da9a9b, 0xb0fa238e, 0xc0645fde, 0xd932eb16, 0x8034229c, 0x07590dcd, 0x0b92f20c, 0x745a48de), 17, 0xefbe4786, 0x000f0000, Hash(0xc2fbd9d1, 0x21da9a9b, 0xb0fa238e, 0xc0645fde, 0x846ee454, 0x8034229c, 0x07590dcd, 0x0b92f20c));
    RoundStep(Hash(0xc2fbd9d1, 0x21da9a9b, 0xb0fa238e, 0xc0645fde, 0x846ee454, 0x8034229c, 0x07590dcd, 0x0b92f20c), 18, 0x0fc19dc6, 0x7da86405, Hash(0xfe777bbf, 0xc2fbd9d1, 0x21da9a9b, 0xb0fa238e, 0xcc899961, 0x846ee454, 0x8034229c, 0x07590dcd));
    RoundStep(Hash(0xfe777bbf, 0xc2fbd9d1, 0x21da9a9b, 0xb0fa238e, 0xcc899961, 0x846ee454, 0x8034229c, 0x07590dcd), 19, 0x240ca1cc, 0x600003c6, Hash(0xe1f20c33, 0xfe777bbf, 0xc2fbd9d1, 0x21da9a9b, 0xb0638179, 0xcc899961, 0x846ee454, 0x8034229c));
    RoundStep(Hash(0xe1f20c33, 0xfe777bbf, 0xc2fbd9d1, 0x21da9a9b, 0xb0638179, 0xcc899961, 0x846ee454, 0x8034229c), 20, 0x2de92c6f, 0x3e9d7b78, Hash(0x9dc68b63, 0xe1f20c33, 0xfe777bbf, 0xc2fbd9d1, 0x8ada8930, 0xb0638179, 0xcc899961, 0x846ee454));
    RoundStep(Hash(0x9dc68b63, 0xe1f20c33, 0xfe777bbf, 0xc2fbd9d1, 0x8ada8930, 0xb0638179, 0xcc899961, 0x846ee454), 21, 0x4a7484aa, 0x0183fc00, Hash(0xc2606d6d, 0x9dc68b63, 0xe1f20c33, 0xfe777bbf, 0xe1257970, 0x8ada8930, 0xb0638179, 0xcc899961));
    RoundStep(Hash(0xc2606d6d, 0x9dc68b63, 0xe1f20c33, 0xfe777bbf, 0xe1257970, 0x8ada8930, 0xb0638179, 0xcc899961), 22, 0x5cb0a9dc, 0x12dcbfdb, Hash(0xa7a3623f, 0xc2606d6d, 0x9dc68b63, 0xe1f20c33, 0x49f5114a, 0xe1257970, 0x8ada8930, 0xb0638179));
    RoundStep(Hash(0xa7a3623f, 0xc2606d6d, 0x9dc68b63, 0xe1f20c33, 0x49f5114a, 0xe1257970, 0x8ada8930, 0xb0638179), 23, 0x76f988da, 0xe2e2c38e, Hash(0xc5d53d8d, 0xa7a3623f, 0xc2606d6d, 0x9dc68b63, 0xaa47c347, 0x49f5114a, 0xe1257970, 0x8ada8930));
  }

  lemma Row2()
    ensures |K| == 64
    ensures K[16] == 0xe49b69c1 && K[17] == 0xefbe4786 && K[18] == 0x0fc19dc6 && K[19] == 0x240ca1cc
    ensures K[20] == 0x2de92c6f && K[21] == 0x4a7484aa && K[22] == 0x5cb0a9dc && K[23] == 0x76f988da
  {
  }

  lemma Rounds3()
    ensures |BLOCK| == 64 && |K| == 64 && Rounds(H0, BLOCK, 32) == Hash(0x73b33bf5, 0xea992a22, 0xa0060b30, 0x363482c9, 0xba591112, 0x0109ab3a, 0xade79437, 0x6112a3b7)
  {
    hide Rounds, Schedule, BLOCK, K;
    Message1();
    Row3();
    Rounds2();
    RoundStep(Hash(0xc5d53d8d, 0xa7a3623f, 0xc2606d6d, 0x9dc68b63, 0xaa47c347, 0x49f5114a, 0xe1257970, 0x8ada8930), 24, 0x983e5152, 0xc8215c1a, Hash(0x1c2c2838, 0xc5d53d8d, 0xa7a3623f, 0xc2606d6d, 0x2823ef91, 0xaa47c347, 0x49f5114a, 0xe1257970));
    RoundStep(Hash(0x1c2c2838, 0xc5d53d8d, 0xa7a3623f, 0xc2606d6d, 0x2823ef91, 0xaa47c347, 0x49f5114a, 0xe1257970), 25, 0xa831c66d, 0xb73679a2, Hash(0xcde8037d, 0x1c2c2838, 0xc5d53d8d, 0xa7a3623f, 0x14383d8e, 0x2823ef91, 0xaa47c347, 0x49f5114a));
    RoundStep(Hash(0xcde8037d, 0x1c2c2838, 0xc5d53d8d, 0xa7a3623f, 0x14383d8e, 0x2823ef91, 0xaa47c347, 0x49f5114a), 26, 0xb00327c8, 0xe5bc3909, Hash(0xb62ec4bc, 0xcde8037d, 0x1c2c2838, 0xc5d53d8d, 0xc74c6516, 0x14383d8e, 0x2823ef91, 0xaa47c347));
    RoundStep(Hash(0xb62ec4bc, 0xcde8037d, 0x1c2c2838, 0xc5d53d8d, 0xc74c6516, 0x14383d8e, 0x2823ef91, 0xaa47c347), 27, 0xbf597fc7, 0x32663c5b, Hash(0x77d37528, 0xb62ec4bc, 0xcde8037d, 0x1c2c2838, 0xedffbff8, 0xc74c6516, 0x14383d8e, 0x2823ef91));
    RoundStep(Hash(0x77d37528, 0xb62ec4bc, 0xcde8037d, 0x1c2c2838, 0xedffbff8, 0xc74c6516, 0x14383d8e, 0x2823ef91), 28, 0xc6e00bf3, 0x9d209d67, Hash(0x363482c9, 0x77d37528, 0xb62ec4bc, 0xcde8037d, 0x6112a3b7, 0xedffbff8, 0xc74c6516, 0x14383d8e));
    RoundStep(Hash(0x363482c9, 0x77d37528, 0xb62ec4bc, 0xcde8037d, 0x6112a3b7, 0xedffbff8, 0xc74c6516, 0x14383d8e), 29, 0xd5a79147, 0xec8726cb, Hash(0xa0060b30, 0x363482c9, 0x77d37528, 0xb62ec4bc, 0xade79437, 0x6112a3b7, 0xedffbff8, 0xc74c6516));
    RoundStep(Hash(0xa0060b30, 0x363482c9, 0x77d37528, 0xb62ec4bc, 0xade79437, 0x6112a3b7, 0xedffbff8, 0xc74c6516), 30, 0x06ca6351, 0x702138a4, Hash(0xea992a22, 0xa0060b30, 0x363482c9, 0x77d37528, 0x0109ab3a, 0xade79437, 0x6112a3b7, 0xedffbff8));
    RoundStep(Hash(0xea992a22, 0xa0060b30, 0x363482c9, 0x77d37528, 0x0109ab3a, 0xade79437, 0x6112a3b7, 0xedffbff8), 31, 0x14292967, 0xd3b7973b, Hash(0x73b33bf5, 0xea992a22, 0xa0060b30, 0x363482c9, 0xba591112, 0x0109ab3a, 0xade79437, 0x6112a3b7));
  }

  lemma Row3()
    ensures |K| == 64
    ensures K[24] == 0x983e5152 && K[25] == 0xa831c66d && K[26] == 0xb00327c8 && K[27] == 0xbf597fc7
    ensures K[28] == 0xc6e00bf3 && K[29] == 0xd5a79147 && K[30] == 0x06ca6351 && K[31] == 0x14292967
  {
  }

  lemma Rounds4()
    ensures |BLOCK| == 64 && |K| == 64 && Rounds(H0, BLOCK, 40) == Hash(0x79ea687a, 0x6dc57a8a, 0x34df1604, 0x41a65cb1, 0x1efbc0a0, 0xf0781bc8, 0xa507a53d, 0x0772a26b)
  {
    hide Rounds, Schedule, BLOCK, K;
    Message2();
    Row4();
    Rounds3();
    RoundStep(Hash(0x73b33bf5, 0xea992a22, 0xa0060b30, 0x363482c9, 0xba591112, 0x0109ab3a, 0xade79437, 0x6112a3b7), 32, 0x27b70a85, 0x93f5997f, Hash(0x98e12507, 0x73b33bf5, 0xea992a22, 0xa0060b30, 0x9cd9f5f6, 0xba591112, 0x0109ab3a, 0xade79437));
    RoundStep(Hash(0x98e12507, 0x73b33bf5, 0xea992a22, 0xa0060b30, 0x9cd9f5f6, 0xba591112, 0x0109ab3a, 0xade79437), 33, 0x2e1b2138, 0x3b68ba73, Hash(0xfe604df5, 0x98e12507, 0x73b33bf5, 0xea992a22, 0x59249dd3, 0x9cd9f5f6, 0xba591112, 0x0109ab3a));
    RoundStep(Hash(0xfe604df5, 0x98e12507, 0x73b33bf5, 0xea992a22, 0x59249dd3, 0x9cd9f5f6, 0xba591112, 0x0109ab3a), 34, 0x4d2c6dfc, 0xaff4ffc1, Hash(0xa9a7738c, 0xfe604df5, 0x98e12507, 0x73b33bf5, 0x085f3833, 0x59249dd3, 0x9cd9f5f6, 0xba591112));
    RoundStep(Hash(0xa9a7738c, 0xfe604df5, 0x98e12507, 0x73b33bf5, 0x085f3833, 0x59249dd3, 0x9cd9f5f6, 0xba591112), 35, 0x53380d13, 0xf10a5c62, Hash(0x65a0cfe4, 0xa9a7738c, 0xfe604df5, 0x98e12507, 0xf4b002d6, 0x085f3833, 0x59249dd3, 0x9cd9f5f6));
    RoundStep(Hash(0x65a0cfe4, 0xa9a7738c, 0xfe604df5, 0x98e12507, 0xf4b002d6, 0x085f3833, 0x59249dd3, 0x9cd9f5f6), 36, 0x650a7354, 0x0a8b3996, Hash(0x41a65cb1, 0x65a0cfe4, 0xa9a7738c, 0xfe604df5, 0x0772a26b, 0xf4b002d6, 0x085f3833, 0x59249dd3));
    RoundStep(Hash(0x41a65cb1, 0x65a0cfe4, 0xa9a7738c, 0xfe604df5, 0x0772a26b, 0xf4b002d6, 0x085f3833, 0x59249dd3), 37, 0x766a0abb, 0x72af830a, Hash(0x34df1604, 0x41a65cb1, 0x65a0cfe4, 0xa9a7738c, 0xa507a53d, 0x0772a26b, 0xf4b002d6, 0x085f3833));
    RoundStep(Hash(0x34df1604, 0x41a65cb1, 0x65a0cfe4, 0xa9a7738c, 0xa507a53d, 0x0772a26b, 0xf4b002d6, 0x085f3833), 38, 0x81c2c92e, 0x9409e33e, Hash(0x6dc57a8a, 0x34df1604, 0x41a65cb1, 0x65a0cfe4, 0xf0781bc8, 0xa507a53d, 0x0772a26b, 0xf4b002d6));
    RoundStep(Hash(0x6dc57a8a, 0x34df1604, 0x41a65cb1, 0x65a0cfe4, 0xf0781bc8, 0xa507a53d, 0x0772a26b, 0xf4b002d6), 39, 0x92722c85, 0x24641522, Hash(0x79ea687a, 0x6dc57a8a, 0x34df1604, 0x41a65cb1, 0x1efbc0a0, 0xf0781bc8, 0xa507a53d, 0x0772a26b));
  }

  lemma Row4()
    ensures |K| == 64
    ensures K[32] == 0x27b70a85 && K[33] == 0x2e1b2138 && K[34] == 0x4d2c6dfc && K[35] == 0x53380d13
    ensures K[36] == 0x650a7354 && K[37] == 0x766a0abb && K[38] == 0x81c2c92e && K[39] == 0x92722c85
  {
  }

  lemma Rounds5()
    ensures |BLOCK| == 64 && |K| == 64 && Rounds(H0, BLOCK, 48) == Hash(0x4172328d, 0xa14c14b0, 0x72ab4b91, 0x26628815, 0xfecf0bc6, 0xd57b94a9, 0xb7755da1, 0xa80f11f0)
  {
    hide Rounds, Schedule, BLOCK, K;
    Message2();
    Row5();
    Rounds4();
    RoundStep(Hash(0x79ea687a, 0x6dc57a8a, 0x34df1604, 0x41a65cb1, 0x1efbc0a0, 0xf0781bc8, 0xa507a53d, 0x0772a26b), 40, 0xa2bfe8a1, 0x9f47bf94, Hash(0xd6670766, 0x79ea687a, 0x6dc57a8a, 0x34df1604, 0x26352d63, 0x1efbc0a0, 0xf0781bc8, 0xa507a53d));
    RoundStep(Hash(0xd6670766, 0x79ea687a, 0x6dc57a8a, 0x34df1604, 0x26352d63, 0x1efbc0a0, 0xf0781bc8, 0xa507a53d), 41, 0xa81a664b, 0xf0a64f5a, Hash(0xdf46652f, 0xd6670766, 0x79ea687a, 0x6dc57a8a, 0x838b2711, 0x26352d63, 0x1efbc0a0, 0xf0781bc8));
    RoundStep(Hash(0xdf46652f, 0xd6670766, 0x79ea687a, 0x6dc57a8a, 0x838b2711, 0x26352d63, 0x1efbc0a0, 0xf0781bc8), 42, 0xc24b8b70, 0x3e246a79, Hash(0x17aa0dfe, 0xdf46652f, 0xd6670766, 0x79ea687a, 0xdecd4715, 0x838b2711, 0x26352d63, 0x1efbc0a0));
    RoundStep(Hash(0x17aa0dfe, 0xdf46652f, 0xd6670766, 0x79ea687a, 0xdecd4715, 0x838b2711, 0x26352d63, 0x1efbc0a0), 43, 0xc76c51a3, 0x27333ba3, Hash(0x9d4baf93, 0x17aa0dfe, 0xdf46652f, 0xd6670766, 0xfda24c2e, 0xdecd4715, 0x838b2711, 0x26352d63));
    RoundStep(Hash(0x9d4baf93, 0x17aa0dfe, 0xdf46652f, 0xd6670766, 0xfda24c2e, 0xdecd4715, 0x838b2711, 0x26352d63), 44, 0xd192e819, 0x0c4763f2, Hash(0x26628815, 0x9d4baf93, 0x17aa0dfe, 0xdf46652f, 0xa80f11f0, 0xfda24c2e, 0xdecd4715, 0x838b2711));
    RoundStep(Hash(0x26628815, 0x9d4baf93, 0x17aa0dfe, 0xdf46652f, 0xa80f11f0, 0xfda24c2e, 0xdecd4715, 0x838b2711), 45, 0xd6990624, 0x840abf27, Hash(0x72ab4b91, 0x26628815, 0x9d4baf93, 0x17aa0dfe, 0xb7755da1, 0xa80f11f0, 0xfda24c2e, 0xdecd4715));
    RoundStep(Hash(0x72ab4b91, 0x26628815, 0x9d4baf93, 0x17aa0dfe, 0xb7755da1, 0xa80f11f0, 0xfda24c2e, 0xdecd4715), 46, 0xf40e3585, 0x7a290d5d, Hash(0xa14c14b0, 0x72ab4b91, 0x26628815, 0x9d4baf93, 0xd57b94a9, 0xb7755da1, 0xa80f11f0, 0xfda24c2e));
    RoundStep(Hash(0xa14c14b0, 0x72ab4b91, 0x26628815, 0x9d4baf93, 0xd57b94a9, 0xb7755da1, 0xa80f11f0, 0xfda24c2e), 47, 0x106aa070, 0x065c43da, Hash(0x4172328d, 0xa14c14b0, 0x72ab4b91, 0x26628815, 0xfecf0bc6, 0xd57b94a9, 0xb7755da1, 0xa80f11f0));
  }

  lemma Row5()
    ensures |K| == 64
    ensures K[40] == 0xa2bfe8a1 && K[41] == 0xa81a664b && K[42] == 0xc24b8b70 && K[43] == 0xc76c51a3
    ensures K[44] == 0xd192e819 && K[45] == 0xd6990624 && K[46] == 0xf40e3585 && K[47] == 0x106aa070
  {
  }

  lemma Rounds6()
    ensures |BLOCK| == 64 && |K| == 64 && Rounds(H0, BLOCK, 56) == Hash(0x38cc9913, 0x3ec45cdb, 0xf5702fdb, 0x101fd28f, 0x54cb266b, 0xe50e1b4f, 0x9f4787c3, 0x529e7d00)
  {
    hide Rounds, Schedule, BLOCK, K;
    Message3();
    Row6();
    Rounds5();
    RoundStep(Hash(0x4172328d, 0xa14c14b0, 0x72ab4b91, 0x26628815, 0xfecf0bc6, 0xd57b94a9, 0xb7755da1, 0xa80f11f0), 48, 0x19a4c116, 0xfb3e89cb, Hash(0x05757ceb, 0x4172328d, 0xa14c14b0, 0x72ab4b91, 0xbd714038, 0xfecf0bc6, 0xd57b94a9, 0xb7755da1));
    RoundStep(Hash(0x05757ceb, 0x4172328d, 0xa14c14b0, 0x72ab4b91, 0xbd714038, 0xfecf0bc6, 0xd57b94a9, 0xb7755da1), 49, 0x1e376c08, 0xcc7617db, Hash(0xf11bfaa8, 0x05757ceb, 0x4172328d, 0xa14c14b0, 0x6e5c390c, 0xbd714038, 0xfecf0bc6, 0xd57b94a9));
    RoundStep(Hash(0xf11bfaa8, 0x05757ceb, 0x4172328d, 0xa14c14b0, 0x6e5c390c, 0xbd714038, 0xfecf0bc6, 0xd57b94a9), 50, 0x2748774c, 0xb9e66c34, Hash(0x7a0508a1, 0xf11bfaa8, 0x05757ceb, 0x4172328d, 0x52f1ccf7, 0x6e5c390c, 0xbd714038, 0xfecf0bc6));
    RoundStep(Hash(0x7a0508a1, 0xf11bfaa8, 0x05757ceb, 0x4172328d, 0x52f1ccf7, 0x6e5c390c, 0xbd714038, 0xfecf0bc6), 51, 0x34b0bcb5, 0xa9993667, Hash(0x886e7a22, 0x7a0508a1, 0xf11bfaa8, 0x05757ceb, 0x49231c1e, 0x52f1ccf7, 0x6e5c390c, 0xbd714038));
    RoundStep(Hash(0x886e7a22, 0x7a0508a1, 0xf11bfaa8, 0x05757ceb, 0x49231c1e, 0x52f1ccf7, 0x6e5c390c, 0xbd714038), 52, 0x391c0cb3, 0x84badedd, Hash(0x101fd28f, 0x886e7a22, 0x7a0508a1, 0xf11bfaa8, 0x529e7d00, 0x49231c1e, 0x52f1ccf7, 0x6e5c390c));
    RoundStep(Hash(0x101fd28f, 0x886e7a22, 0x7a0508a1, 0xf11bfaa8, 0x529e7d00, 0x49231c1e, 0x52f1ccf7, 0x6e5c390c), 53, 0x4ed8aa4a, 0xc21462bc, Hash(0xf5702fdb, 0x101fd28f, 0x886e7a22, 0x7a0508a1, 0x9f4787c3, 0x529e7d00, 0x49231c1e, 0x52f1ccf7));
    RoundStep(Hash(0xf5702fdb, 0x101fd28f, 0x886e7a22, 0x7a0508a1, 0x9f4787c3, 0x529e7d00, 0x49231c1e, 0x52f1ccf7), 54, 0x5b9cca4f, 0x1487472c, Hash(0x3ec45cdb, 0xf5702fdb, 0x101fd28f, 0x886e7a22, 0xe50e1b4f, 0x9f4787c3, 0x529e7d00, 0x49231c1e));
    RoundStep(Hash(0x3ec45cdb, 0xf5702fdb, 0x101fd28f, 0x886e7a22, 0xe50e1b4f, 0x9f4787c3, 0x529e7d00, 0x49231c1e), 55, 0x682e6ff3, 0xb20f7a99, Hash(0x38cc9913, 0x3ec45cdb, 0xf5702fdb, 0x101fd28f, 0x54cb266b, 0xe50e1b4f, 0x9f4787c3, 0x529e7d00));
  }

  lemma Row6()
    ensures |K| == 64
    ensures K[48] == 0x19a4c116 && K[49] == 0x1e376c08 && K[50] == 0x2748774c && K[51] == 0x34b0bcb5
    ensures K[52] == 0x391c0cb3 && K[53] == 0x4ed8aa4a && K[54] == 0x5b9cca4f && K[55] == 0x682e6ff3
  {
  }

  lemma Rounds7()
    ensures |BLOCK| == 64 && |K| == 64 && Rounds(H0, BLOCK, 64) == Hash(0x506e3058, 0xd39a2165, 0x04d24d6c, 0xb85e2ce9, 0x5ef50f24, 0xfb121210, 0x948d25b6, 0x961f4894)
  {
    hide Rounds, Schedule, BLOCK, K;
    Message3();
    Row7();
    Rounds6();
    RoundStep(Hash(0x38cc9913, 0x3ec45cdb, 0xf5702fdb, 0x101fd28f, 0x54cb266b, 0xe50e1b4f, 0x9f4787c3, 0x529e7d00), 56, 0x748f82ee, 0xef57b9cd, Hash(0xfcd1887b, 0x38cc9913, 0x3ec45cdb, 0xf5702fdb, 0x9b5e906c, 0x54cb266b, 0xe50e1b4f, 0x9f4787c3));
    RoundStep(Hash(0xfcd1887b, 0x38cc9913, 0x3ec45cdb, 0xf5702fdb, 0x9b5e906c, 0x54cb266b, 0xe50e1b4f, 0x9f4787c3), 57, 0x78a5636f, 0xebe6b238, Hash(0xc062d46f, 0xfcd1887b, 0x38cc9913, 0x3ec45cdb, 0x7e44008e, 0x9b5e906c, 0x54cb266b, 0xe50e1b4f));
    RoundStep(Hash(0xc062d46f, 0xfcd1887b, 0x38cc9913, 0x3ec45cdb, 0x7e44008e, 0x9b5e906c, 0x54cb266b, 0xe50e1b4f), 58, 0x84c87814, 0x9fe3095e, Hash(0xffb70472, 0xc062d46f, 0xfcd1887b, 0x38cc9913, 0x6d83bfc6, 0x7e44008e, 0x9b5e906c, 0x54cb266b));
    RoundStep(Hash(0xffb70472, 0xc062d46f, 0xfcd1887b, 0x38cc9913, 0x6d83bfc6, 0x7e44008e, 0x9b5e906c, 0x54cb266b), 59, 0x8cc70208, 0x78bc8d4b, Hash(0xb6ae8fff, 0xffb70472, 0xc062d46f, 0xfcd1887b, 0xb21bad3d, 0x6d83bfc6, 0x7e44008e, 0x9b5e906c));
    RoundStep(Hash(0xb6ae8fff, 0xffb70472, 0xc062d46f, 0xfcd1887b, 0xb21bad3d, 0x6d83bfc6, 0x7e44008e, 0x9b5e906c), 60, 0x90befffa, 0xa43fcf15, Hash(0xb85e2ce9, 0xb6ae8fff, 0xffb70472, 0xc062d46f, 0x961f4894, 0xb21bad3d, 0x6d83bfc6, 0x7e44008e));
    RoundStep(Hash(0xb85e2ce9, 0xb6ae8fff, 0xffb70472, 0xc062d46f, 0x961f4894, 0xb21bad3d, 0x6d83bfc6, 0x7e44008e), 61, 0xa4506ceb, 0x668b2ff8, Hash(0x04d24d6c, 0xb85e2ce9, 0xb6ae8fff, 0xffb70472, 0x948d25b6, 0x961f4894, 0xb21bad3d, 0x6d83bfc6));
    RoundStep(Hash(0x04d24d6c, 0xb85e2ce9, 0xb6ae8fff, 0xffb70472, 0x948d25b6, 0x961f4894, 0xb21bad3d, 0x6d83bfc6), 62, 0xbef9a3f7, 0xeeaba2cc, Hash(0xd39a2165, 0x04d24d6c, 0xb85e2ce9, 0xb6ae8fff, 0xfb121210, 0x948d25b6, 0x961f4894, 0xb21bad3d));
    RoundStep(Hash(0xd39a2165, 0x04d24d6c, 0xb85e2ce9, 0xb6ae8fff, 0xfb121210, 0x948d25b6, 0x961f4894, 0xb21bad3d), 63, 0xc67178f2, 0x12b1edeb, Hash(0x506e3058, 0xd39a2165, 0x04d24d6c, 0xb85e2ce9, 0x5ef50f24, 0xfb121210, 0x948d25b6, 0x961f4894));
  }

  lemma Row7()
    ensures |K| == 64
    ensures K[56] == 0x748f82ee && K[57] == 0x78a5636f && K[58] == 0x84c87814 && K[59] == 0x8cc70208
    ensures K[60] == 0x90befffa && K[61] == 0xa4506ceb && K[62] == 0xbef9a3f7 && K[63] == 0xc67178f2
  {
  }

  lemma NoRounds()
    ensures |BLOCK| == 64 && Rounds(H0, BLOCK, 0) == Hash(0x6a09e667, 0xbb67ae85, 0x3c6ef372, 0xa54ff53a, 0x510e527f, 0x9b05688c, 0x1f83d9ab, 0x5be0cd19)
  {
    Padded();
  }

  lemma OneBlock()
    ensures |BLOCK| == 64 && HashBlocks(BLOCK) == Hash(0xba7816bf, 0x8f01cfea, 0x414140de, 0x5dae2223, 0xb00361a3, 0x96177a9c, 0xb410ff61, 0xf20015ad)
  {
    hide Rounds, BLOCK;
    Rounds7();
    assert BLOCK[..0] == [] && BLOCK[0..] == BLOCK;
    assert HashBlocks([]) == H0;
  }

  // ----- the digest as text -----

  lemma {:induction false} HexConcat(a: seq<Byte>, b: seq<Byte>)
    ensures Digest.Hex(a + b) == Digest.Hex(a) + Digest.Hex(b)
  {
    hide Digest.Hex, Digest.HexPair;
    if b == [] {
      assert a + b == a;
      Digest.PairsEmpty();
    } else {
      var front, last := b[..|b| - 1], b[|b| - 1];
      HexConcat(a, front);
      Digest.HexSnoc(front, last);
      Digest.HexSnoc(a + front, last);
      assert b == front + [last] && a + b == a + front + [last];
    }
  }

  /** A word is written as eight digits. */
  lemma NextWord(ws: seq<Word>, w: Word, b: seq<Byte>, text: string, digits: string)
    requires Digest.Hex(WordsBytes(ws)) == text && WordBytes(w) == b && Digest.Hex(b) == digits
    ensures Digest.Hex(WordsBytes(ws + [w])) == text + digits
  {
    hide WordBytes, Digest.Hex;
    assert (ws + [w])[..|ws|] == ws;
    HexConcat(WordsBytes(ws), b);
  }

  lemma FourBytes(a: Byte, b: Byte, c: Byte, d: Byte)
    ensures Digest.Hex([a, b, c, d]) == Digest.HexPair(a) + Digest.HexPair(b) + Digest.HexPair(c) + Digest.HexPair(d)
  {
    hide Digest.HexPair;
    Digest.PairsEmpty();
    Digest.HexSnoc([], a);
    Digest.HexSnoc([a], b);
    Digest.HexSnoc([a, b], c);
    Digest.HexSnoc([a, b, c], d);
    assert [] + [a] == [a] && [a] + [b] == [a, b] && [a, b] + [c] == [a, b, c] && [a, b, c] + [d] == [a, b, c, d];
  }

  lemma Word0()
    ensures WordBytes(0xba7816bf) == [0xba, 0x78, 0x16, 0xbf]
    ensures Digest.Hex([0xba, 0x78, 0x16, 0xbf]) == "ba7816bf"
  {
    FourBytes(0xba, 0x78, 0x16, 0xbf);
  }

  lemma Word1()
    ensures WordBytes(0x8f01cfea) == [0x8f, 0x01, 0xcf, 0xea]
    ensures Digest.Hex([0x8f, 0x01, 0xcf, 0xea]) == "8f01cfea"
  {
    FourBytes(0x8f, 0x01, 0xcf, 0xea);
  }

  lemma Word2()
    ensures WordBytes(0x414140de) == [0x41, 0x41, 0x40, 0xde]
    ensures Digest.Hex([0x41, 0x41, 0x40, 0xde]) == "414140de"
  {
    FourBytes(0x41, 0x41, 0x40, 0xde);
  }

  lemma Word3()
    ensures WordBytes(0x5dae2223) == [0x5d, 0xae, 0x22, 0x23]
    ensures Digest.Hex([0x5d, 0xae, 0x22, 0x23]) == "5dae2223"
  {
    FourBytes(0x5d, 0xae, 0x22, 0x23);
  }

  lemma Word4()
    ensures WordBytes(0xb00361a3) == [0xb0, 0x03, 0x61, 0xa3]
    ensures Digest.Hex([0xb0, 0x03, 0x61, 0xa3]) == "b00361a3"
  {
    FourBytes(0xb0, 0x03, 0x61, 0xa3);
  }

  lemma Word5()
    ensures WordBytes(0x96177a9c) == [0x96, 0x17, 0x7a, 0x9c]
    ensures Digest.Hex([0x96, 0x17, 0x7a, 0x9c]) == "96177a9c"
  {
    FourBytes(0x96, 0x17, 0x7a, 0x9c);
  }

  lemma Word6()
    ensures WordBytes(0xb410ff61) == [0xb4, 0x10, 0xff, 0x61]
    ensures Digest.Hex([0xb4, 0x10, 0xff, 0x61]) == "b410ff61"
  {
    FourBytes(0xb4, 0x10, 0xff, 0x61);
  }

  lemma Word7()
    ensures WordBytes(0xf20015ad) == [0xf2, 0x00, 0x15, 0xad]
    ensures Digest.Hex([0xf2, 0x00, 0x15, 0xad]) == "f20015ad"
  {
    FourBytes(0xf2, 0x00, 0x15, 0xad);
  }

  /** `Digest256::sha256("abc").hex()` */
  lemma DigestOfAbc()
    ensures Digest.Hex(Sha256(OfString("abc")))
            == "ba7816bf" + "8f01cfea" + "414140de" + "5dae2223" + "b00361a3" + "96177a9c" + "b410ff61" + "f20015ad"
  {
    hide HashBlocks, BLOCK, WordBytes, WordsBytes, Digest.Hex;
    Padded();
    OneBlock();
    assert WordsBytes([]) == [] by { NoWords(); }
    Digest.PairsEmpty();
    var ws: seq<Word>, text := [], "";
    assert text + "ba7816bf" == "ba7816bf";
    Word0();
    NextWord(ws, 0xba7816bf, [0xba, 0x78, 0x16, 0xbf], text, "ba7816bf");
    ws, text := ws + [0xba7816bf], text + "ba7816bf";
    Word1();
    NextWord(ws, 0x8f01cfea, [0x8f, 0x01, 0xcf, 0xea], text, "8f01cfea");
    ws, text := ws + [0x8f01cfea], text + "8f01cfea";
    Word2();
    NextWord(ws, 0x414140de, [0x41, 0x41, 0x40, 0xde], text, "414140de");
    ws, text := ws + [0x414140de], text + "414140de";
    Word3();
    NextWord(ws, 0x5dae2223, [0x5d, 0xae, 0x22, 0x23], text, "5dae2223");
    ws, text := ws + [0x5dae2223], text + "5dae2223";
    Word4();
    NextWord(ws, 0xb00361a3, [0xb0, 0x03, 0x61, 0xa3], text, "b00361a3");
    ws, text := ws + [0xb00361a3], text + "b00361a3";
    Word5();
    NextWord(ws, 0x96177a9c, [0x96, 0x17, 0x7a, 0x9c], text, "96177a9c");
    ws, text := ws + [0x96177a9c], text + "96177a9c";
    Word6();
    NextWord(ws, 0xb410ff61, [0xb4, 0x10, 0xff, 0x61], text, "b410ff61");
    ws, text := ws + [0xb410ff61], text + "b410ff61";
    Word7();
    NextWord(ws, 0xf20015ad, [0xf2, 0x00, 0x15, 0xad], text, "f20015ad");
    ws, text := ws + [0xf20015ad], text + "f20015ad";
    assert ws == [0xba7816bf, 0x8f01cfea, 0x414140de, 0x5dae2223, 0xb00361a3, 0x96177a9c, 0xb410ff61, 0xf20015ad];
  }

  lemma NoWords()
    ensures WordsBytes([]) == []
  {
  }
}
