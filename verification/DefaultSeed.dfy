/** The campaign that the default call of include/chaoslab/fuzz.h:24 generates from the default seed of
    include/chaoslab/random.h:52, worked out on literals. */
module DefaultSeed {
  import opened Words
  import opened SplitMix
  import opened Campaign
  import opened Fuzz

  const SEED: Id := 0xCA05C0DE5EED07

  // ----- combining and shifting literals -----

  type Bit = x: nat | x < 2

  function Differ(p: Bit, q: Bit): Bit { if p == q then 0 else 1 }

  lemma Double(a: nat, b: nat, p: Bit, q: Bit)
    ensures Xor(2 * a + p, 2 * b + q) == 2 * Xor(a, b) + Differ(p, q)
  {
    hide Xor;
    XorBits(2 * a + p, 2 * b + q);
  }

  /** Two numbers are combined one hexadecimal digit after the other. */
  lemma Digit(a: nat, b: nat, x: nat, p: (Bit, Bit, Bit, Bit), q: (Bit, Bit, Bit, Bit))
    requires Xor(a, b) == x
    ensures Xor(16 * a + 8 * p.0 + 4 * p.1 + 2 * p.2 + p.3, 16 * b + 8 * q.0 + 4 * q.1 + 2 * q.2 + q.3)
            == 16 * x + 8 * Differ(p.0, q.0) + 4 * Differ(p.1, q.1) + 2 * Differ(p.2, q.2) + Differ(p.3, q.3)
  {
    hide Xor, Differ;
    Double(a, b, p.0, q.0);
    Double(2 * a + p.0, 2 * b + q.0, p.1, q.1);
    Double(4 * a + 2 * p.0 + p.1, 4 * b + 2 * q.0 + q.1, p.2, q.2);
    Double(8 * a + 4 * p.0 + 2 * p.1 + p.2, 8 * b + 4 * q.0 + 2 * q.1 + q.2, p.3, q.3);
  }

  lemma XorZero()
    ensures Xor(0, 0) == 0
  {
  }

  /** A shift leaves the quotient. */
  lemma {:induction false} ShiftIs(x: nat, n: nat, q: nat, r: nat)
    requires x == q * Pow2(n) + r && r < Pow2(n)
    ensures Shift(x, n) == q
  {
    if n > 0 {
      var h := Pow2(n - 1);
      assert q * (2 * h) == 2 * (q * h);
      ShiftIs(x / 2, n - 1, q, r / 2);
    }
  }

  lemma Widths()
    ensures Pow2(27) == 0x800_0000 && Pow2(30) == 0x4000_0000 && Pow2(31) == 0x8000_0000
  {
    assert Pow2(8) == 0x100;
    assert Pow2(16) == 0x1_0000;
    assert Pow2(24) == 0x100_0000;
  }

  // ----- the first draw -----

  lemma FirstA()
    ensures XorShift(0x9f017f7a5da9691c, 30) == 0x9f017f7821ac94f5
  {
    hide Xor, Shift, Pow2;
    Widths();
    ShiftIs(0x9f017f7a5da9691c, 30, 0x27c05fde9, 0x1da9691c);
    XorZero();
    Digit(0x0, 0x0, 0x0, (1, 0, 0, 1), (0, 0, 0, 0));
    Digit(0x9, 0x0, 0x9, (1, 1, 1, 1), (0, 0, 0, 0));
    Digit(0x9f, 0x0, 0x9f, (0, 0, 0, 0), (0, 0, 0, 0));
    Digit(0x9f0, 0x0, 0x9f0, (0, 0, 0, 1), (0, 0, 0, 0));
    Digit(0x9f01, 0x0, 0x9f01, (0, 1, 1, 1), (0, 0, 0, 0));
    Digit(0x9f017, 0x0, 0x9f017, (1, 1, 1, 1), (0, 0, 0, 0));
    Digit(0x9f017f, 0x0, 0x9f017f, (0, 1, 1, 1), (0, 0, 0, 0));
    Digit(0x9f017f7, 0x0, 0x9f017f7, (1, 0, 1, 0), (0, 0, 1, 0));
    Digit(0x9f017f7a, 0x2, 0x9f017f78, (0, 1, 0, 1), (0, 1, 1, 1));
    Digit(0x9f017f7a5, 0x27, 0x9f017f782, (1, 1, 0, 1), (1, 1, 0, 0));
    Digit(0x9f017f7a5d, 0x27c, 0x9f017f7821, (1, 0, 1, 0), (0, 0, 0, 0));
    Digit(0x9f017f7a5da, 0x27c0, 0x9f017f7821a, (1, 0, 0, 1), (0, 1, 0, 1));
    Digit(0x9f017f7a5da9, 0x27c05, 0x9f017f7821ac, (0, 1, 1, 0), (1, 1, 1, 1));
    Digit(0x9f017f7a5da96, 0x27c05f, 0x9f017f7821ac9, (1, 0, 0, 1), (1, 1, 0, 1));
    Digit(0x9f017f7a5da969, 0x27c05fd, 0x9f017f7821ac94, (0, 0, 0, 1), (1, 1, 1, 0));
    Digit(0x9f017f7a5da9691, 0x27c05fde, 0x9f017f7821ac94f, (1, 1, 0, 0), (1, 0, 0, 1));
  }

  lemma FirstB()
    ensures XorShift(0x1ccbd1402d2ace0d, 27) == 0x1ccbd143b450e608
  {
    hide Xor, Shift, Pow2;
    Widths();
    ShiftIs(0x1ccbd1402d2ace0d, 27, 0x3997a2805, 0x52ace0d);
    XorZero();
    Digit(0x0, 0x0, 0x0, (0, 0, 0, 1), (0, 0, 0, 0));
    Digit(0x1, 0x0, 0x1, (1, 1, 0, 0), (0, 0, 0, 0));
    Digit(0x1c, 0x0, 0x1c, (1, 1, 0, 0), (0, 0, 0, 0));
    Digit(0x1cc, 0x0, 0x1cc, (1, 0, 1, 1), (0, 0, 0, 0));
    Digit(0x1ccb, 0x0, 0x1ccb, (1, 1, 0, 1), (0, 0, 0, 0));
    Digit(0x1ccbd, 0x0, 0x1ccbd, (0, 0, 0, 1), (0, 0, 0, 0));
    Digit(0x1ccbd1, 0x0, 0x1ccbd1, (0, 1, 0, 0), (0, 0, 0, 0));
    Digit(0x1ccbd14, 0x0, 0x1ccbd14, (0, 0, 0, 0), (0, 0, 1, 1));
    Digit(0x1ccbd140, 0x3, 0x1ccbd143, (0, 0, 1, 0), (1, 0, 0, 1));
    Digit(0x1ccbd1402, 0x39, 0x1ccbd143b, (1, 1, 0, 1), (1, 0, 0, 1));
    Digit(0x1ccbd1402d, 0x399, 0x1ccbd143b4, (0, 0, 1, 0), (0, 1, 1, 1));
    Digit(0x1ccbd1402d2, 0x3997, 0x1ccbd143b45, (1, 0, 1, 0), (1, 0, 1, 0));
    Digit(0x1ccbd1402d2a, 0x3997a, 0x1ccbd143b450, (1, 1, 0, 0), (0, 0, 1, 0));
    Digit(0x1ccbd1402d2ac, 0x3997a2, 0x1ccbd143b450e, (1, 1, 1, 0), (1, 0, 0, 0));
    Digit(0x1ccbd1402d2ace, 0x3997a28, 0x1ccbd143b450e6, (0, 0, 0, 0), (0, 0, 0, 0));
    Digit(0x1ccbd1402d2ace0, 0x3997a280, 0x1ccbd143b450e60, (1, 1, 0, 1), (0, 1, 0, 1));
  }

  lemma FirstC()
    ensures XorShift(0x5b866c868511b158, 31) == 0x5b866c86321d6855
  {
    hide Xor, Shift, Pow2;
    Widths();
    ShiftIs(0x5b866c868511b158, 31, 0xb70cd90d, 0x511b158);
    XorZero();
    Digit(0x0, 0x0, 0x0, (0, 1, 0, 1), (0, 0, 0, 0));
    Digit(0x5, 0x0, 0x5, (1, 0, 1, 1), (0, 0, 0, 0));
    Digit(0x5b, 0x0, 0x5b, (1, 0, 0, 0), (0, 0, 0, 0));
    Digit(0x5b8, 0x0, 0x5b8, (0, 1, 1, 0), (0, 0, 0, 0));
    Digit(0x5b86, 0x0, 0x5b86, (0, 1, 1, 0), (0, 0, 0, 0));
    Digit(0x5b866, 0x0, 0x5b866, (1, 1, 0, 0), (0, 0, 0, 0));
    Digit(0x5b866c, 0x0, 0x5b866c, (1, 0, 0, 0), (0, 0, 0, 0));
    Digit(0x5b866c8, 0x0, 0x5b866c8, (0, 1, 1, 0), (0, 0, 0, 0));
    Digit(0x5b866c86, 0x0, 0x5b866c86, (1, 0, 0, 0), (1, 0, 1, 1));
    Digit(0x5b866c868, 0xb, 0x5b866c863, (0, 1, 0, 1), (0, 1, 1, 1));
    Digit(0x5b866c8685, 0xb7, 0x5b866c8632, (0, 0, 0, 1), (0, 0, 0, 0));
    Digit(0x5b866c86851, 0xb70, 0x5b866c86321, (0, 0, 0, 1), (1, 1, 0, 0));
    Digit(0x5b866c868511, 0xb70c, 0x5b866c86321d, (1, 0, 1, 1), (1, 1, 0, 1));
    Digit(0x5b866c868511b, 0xb70cd, 0x5b866c86321d6, (0, 0, 0, 1), (1, 0, 0, 1));
    Digit(0x5b866c868511b1, 0xb70cd9, 0x5b866c86321d68, (0, 1, 0, 1), (0, 0, 0, 0));
    Digit(0x5b866c868511b15, 0xb70cd90, 0x5b866c86321d685, (1, 0, 0, 0), (1, 1, 0, 1));
  }

  lemma FirstDraw()
    ensures Draw(SEED, 0) == 0x5b866c86321d6855
  {
    hide XorShift, Xor, Shift;
    assert State(SEED, 1) == 0x9f017f7a5da9691c;
    FirstA();
    FirstB();
    FirstC();
    assert Times(0x9f017f7821ac94f5, FIRST) == 0x1ccbd1402d2ace0d;
    assert Times(0x1ccbd143b450e608, SECOND) == 0x5b866c868511b158;
  }

  // ----- the second draw -----

  lemma SecondA()
    ensures XorShift(0x3d38f933dcf3e531, 30) == 0x3d38f933281001fe
  {
    hide Xor, Shift, Pow2;
    Widths();
    ShiftIs(0x3d38f933dcf3e531, 30, 0xf4e3e4cf, 0x1cf3e531);
    XorZero();
    Digit(0x0, 0x0, 0x0, (0, 0, 1, 1), (0, 0, 0, 0));
    Digit(0x3, 0x0, 0x3, (1, 1, 0, 1), (0, 0, 0, 0));
    Digit(0x3d, 0x0, 0x3d, (0, 0, 1, 1), (0, 0, 0, 0));
    Digit(0x3d3, 0x0, 0x3d3, (1, 0, 0, 0), (0, 0, 0, 0));
    Digit(0x3d38, 0x0, 0x3d38, (1, 1, 1, 1), (0, 0, 0, 0));
    Digit(0x3d38f, 0x0, 0x3d38f, (1, 0, 0, 1), (0, 0, 0, 0));
    Digit(0x3d38f9, 0x0, 0x3d38f9, (0, 0, 1, 1), (0, 0, 0, 0));
    Digit(0x3d38f93, 0x0, 0x3d38f93, (0, 0, 1, 1), (0, 0, 0, 0));
    Digit(0x3d38f933, 0x0, 0x3d38f933, (1, 1, 0, 1), (1, 1, 1, 1));
    Digit(0x3d38f933d, 0xf, 0x3d38f9332, (1, 1, 0, 0), (0, 1, 0, 0));
    Digit(0x3d38f933dc, 0xf4, 0x3d38f93328, (1, 1, 1, 1), (1, 1, 1, 0));
    Digit(0x3d38f933dcf, 0xf4e, 0x3d38f933281, (0, 0, 1, 1), (0, 0, 1, 1));
    Digit(0x3d38f933dcf3, 0xf4e3, 0x3d38f9332810, (1, 1, 1, 0), (1, 1, 1, 0));
    Digit(0x3d38f933dcf3e, 0xf4e3e, 0x3d38f93328100, (0, 1, 0, 1), (0, 1, 0, 0));
    Digit(0x3d38f933dcf3e5, 0xf4e3e4, 0x3d38f933281001, (0, 0, 1, 1), (1, 1, 0, 0));
    Digit(0x3d38f933dcf3e53, 0xf4e3e4c, 0x3d38f933281001f, (0, 0, 0, 1), (1, 1, 1, 1));
  }

  lemma SecondB()
    ensures XorShift(0x6fb6926dd391a68e, 27) == 0x6fb692602543eb34
  {
    hide Xor, Shift, Pow2;
    Widths();
    ShiftIs(0x6fb6926dd391a68e, 27, 0xdf6d24dba, 0x391a68e);
    XorZero();
    Digit(0x0, 0x0, 0x0, (0, 1, 1, 0), (0, 0, 0, 0));
    Digit(0x6, 0x0, 0x6, (1, 1, 1, 1), (0, 0, 0, 0));
    Digit(0x6f, 0x0, 0x6f, (1, 0, 1, 1), (0, 0, 0, 0));
    Digit(0x6fb, 0x0, 0x6fb, (0, 1, 1, 0), (0, 0, 0, 0));
    Digit(0x6fb6, 0x0, 0x6fb6, (1, 0, 0, 1), (0, 0, 0, 0));
    Digit(0x6fb69, 0x0, 0x6fb69, (0, 0, 1, 0), (0, 0, 0, 0));
    Digit(0x6fb692, 0x0, 0x6fb692, (0, 1, 1, 0), (0, 0, 0, 0));
    Digit(0x6fb6926, 0x0, 0x6fb6926, (1, 1, 0, 1), (1, 1, 0, 1));
    Digit(0x6fb6926d, 0xd, 0x6fb69260, (1, 1, 0, 1), (1, 1, 1, 1));
    Digit(0x6fb6926dd, 0xdf, 0x6fb692602, (0, 0, 1, 1), (0, 1, 1, 0));
    Digit(0x6fb6926dd3, 0xdf6, 0x6fb6926025, (1, 0, 0, 1), (1, 1, 0, 1));
    Digit(0x6fb6926dd39, 0xdf6d, 0x6fb69260254, (0, 0, 0, 1), (0, 0, 1, 0));
    Digit(0x6fb6926dd391, 0xdf6d2, 0x6fb692602543, (1, 0, 1, 0), (0, 1, 0, 0));
    Digit(0x6fb6926dd391a, 0xdf6d24, 0x6fb692602543e, (0, 1, 1, 0), (1, 1, 0, 1));
    Digit(0x6fb6926dd391a6, 0xdf6d24d, 0x6fb692602543eb, (1, 0, 0, 0), (1, 0, 1, 1));
    Digit(0x6fb6926dd391a68, 0xdf6d24db, 0x6fb692602543eb3, (1, 1, 1, 0), (1, 0, 1, 0));
  }

  lemma SecondC()
    ensures XorShift(0x946a902c98eb5cbc, 31) == 0x946a902db03e7ce5
  {
    hide Xor, Shift, Pow2;
    Widths();
    ShiftIs(0x946a902c98eb5cbc, 31, 0x128d52059, 0x18eb5cbc);
    XorZero();
    Digit(0x0, 0x0, 0x0, (1, 0, 0, 1), (0, 0, 0, 0));
    Digit(0x9, 0x0, 0x9, (0, 1, 0, 0), (0, 0, 0, 0));
    Digit(0x94, 0x0, 0x94, (0, 1, 1, 0), (0, 0, 0, 0));
    Digit(0x946, 0x0, 0x946, (1, 0, 1, 0), (0, 0, 0, 0));
    Digit(0x946a, 0x0, 0x946a, (1, 0, 0, 1), (0, 0, 0, 0));
    Digit(0x946a9, 0x0, 0x946a9, (0, 0, 0, 0), (0, 0, 0, 0));
    Digit(0x946a90, 0x0, 0x946a90, (0, 0, 1, 0), (0, 0, 0, 0));
    Digit(0x946a902, 0x0, 0x946a902, (1, 1, 0, 0), (0, 0, 0, 1));
    Digit(0x946a902c, 0x1, 0x946a902d, (1, 0, 0, 1), (0, 0, 1, 0));
    Digit(0x946a902c9, 0x12, 0x946a902db, (1, 0, 0, 0), (1, 0, 0, 0));
    Digit(0x946a902c98, 0x128, 0x946a902db0, (1, 1, 1, 0), (1, 1, 0, 1));
    Digit(0x946a902c98e, 0x128d, 0x946a902db03, (1, 0, 1, 1), (0, 1, 0, 1));
    Digit(0x946a902c98eb, 0x128d5, 0x946a902db03e, (0, 1, 0, 1), (0, 0, 1, 0));
    Digit(0x946a902c98eb5, 0x128d52, 0x946a902db03e7, (1, 1, 0, 0), (0, 0, 0, 0));
    Digit(0x946a902c98eb5c, 0x128d520, 0x946a902db03e7c, (1, 0, 1, 1), (0, 1, 0, 1));
    Digit(0x946a902c98eb5cb, 0x128d5205, 0x946a902db03e7ce, (1, 1, 0, 0), (1, 0, 0, 1));
  }

  lemma SecondDraw()
    ensures Draw(SEED, 1) == 0x946a902db03e7ce5
  {
    hide XorShift, Xor, Shift;
    assert State(SEED, 1) == 0x9f017f7a5da9691c;
    assert State(SEED, 2) == 0x3d38f933dcf3e531;
    SecondA();
    SecondB();
    SecondC();
    assert Times(0x3d38f933281001fe, FIRST) == 0x6fb6926dd391a68e;
    assert Times(0x6fb692602543eb34, SECOND) == 0x946a902c98eb5cbc;
  }

  // ----- the campaign -----

  /** With the default bounds of three workers and eight faults the default seed draws one worker and six
      faults, two of the first three of which target workers that do not exist. */
  lemma DefaultCampaignInvalid()
    ensures CountDrawn(SEED, 3) == 1 && CountDrawn(StateAfter(SEED, 3), 8) == 6
    ensures !CampaignValid(Generated(SEED, SEED, 3, 8))
  {
    hide Draw, State, CampaignValid, Generated;
    FirstDraw();
    SecondDraw();
    DrawRestart(SEED, 1, 0);
    GeneratedValid(SEED, SEED, 3, 8);
  }
}
