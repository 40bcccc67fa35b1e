/** The pseudo-random stream of include/chaoslab/random.h and src/random.cpp.  A 64-bit word is a
    natural number below 2^64 and every operation of the source wraps explicitly. */
module SplitMix {
  import opened Words

  const GAMMA: nat := 0x9e3779b97f4a7c15
  const FIRST: nat := 0xbf58476d1ce4e5b9
  const GAMMA_QUOTIENT: nat := 0x957bbf35006ed677
  const SECOND: nat := 0x94d049bb133111eb

  // ----- words: exclusive or, shift, wrapping product -----

  function Xor(a: nat, b: nat): nat {
    if a == 0 then b else if b == 0 then a
    else 2 * Xor(a / 2, b / 2) + (a + b) % 2
  }

  function Pow2(n: nat): nat { if n == 0 then 1 else 2 * Pow2(n - 1) }

  function Shift(x: nat, n: nat): nat { if n == 0 then x else Shift(x / 2, n - 1) }

  /** `x ^ (x >> n)` */
  function XorShift(x: nat, n: nat): nat { Xor(x, Shift(x, n)) }

  /** The product without wrapping, named so that proofs can treat it as a whole. */
  function Product(a: nat, b: nat): nat { a * b }

  function Times(x: nat, c: nat): (r: nat)
    ensures r < U64
  {
    Product(x, c) % U64
  }

  lemma {:induction false} XorBits(a: nat, b: nat)
    ensures Xor(a, b) / 2 == Xor(a / 2, b / 2)
    ensures Xor(a, b) % 2 == (a + b) % 2
  {
  }

  lemma {:induction false} XorShifts(a: nat, b: nat, n: nat)
    ensures Shift(Xor(a, b), n) == Xor(Shift(a, n), Shift(b, n))
  {
    if n > 0 {
      XorBits(a, b);
      XorShifts(a / 2, b / 2, n - 1);
    }
  }

  lemma {:induction false} XorUndoes(a: nat, b: nat)
    ensures Xor(Xor(a, b), b) == a
    decreases a + b
  {
    if a + b > 0 {
      hide Xor;
      var x := Xor(a, b);
      XorBits(a, b);
      XorBits(x, b);
      XorUndoes(a / 2, b / 2);
      SameHalves(a, b, x, Xor(x, b));
    }
  }

  lemma SameHalves(a: nat, b: nat, x: nat, y: nat)
    requires y / 2 == a / 2
    requires x % 2 == (a + b) % 2 && y % 2 == (x + b) % 2
    ensures y == a
  {
  }

  lemma {:induction false} XorBound(a: nat, b: nat, n: nat)
    requires a < Pow2(n) && b < Pow2(n)
    ensures Xor(a, b) < Pow2(n)
  {
    if n > 0 { XorBound(a / 2, b / 2, n - 1); }
  }

  lemma {:induction false} ShiftShrinks(x: nat, n: nat)
    ensures Shift(x, n) <= x
    ensures n > 0 && x > 0 ==> Shift(x, n) < x
  {
    if n > 0 { ShiftShrinks(x / 2, n - 1); }
  }

  lemma WordWidth()
    ensures Pow2(64) == U64
  {
    assert Pow2(8) == 0x100;
    assert Pow2(16) == 0x1_0000;
    assert Pow2(24) == 0x100_0000;
    assert Pow2(32) == 0x1_0000_0000;
    assert Pow2(40) == 0x100_0000_0000;
    assert Pow2(48) == 0x1_0000_0000_0000;
    assert Pow2(56) == 0x100_0000_0000_0000;
  }

  /** Equal results have equal high parts, and the high part unlocks the rest. */
  lemma {:induction false} XorShiftInjective(x: nat, y: nat, n: nat)
    requires n > 0 && XorShift(x, n) == XorShift(y, n)
    ensures x == y
    decreases x + y
  {
    hide Xor;
    var hx, hy := Shift(x, n), Shift(y, n);
    XorUndoes(x, hx);
    XorUndoes(y, hy);
    if x + y > 0 {
      ShiftShrinks(x, n);
      ShiftShrinks(y, n);
      XorShifts(x, hx, n);
      XorShifts(y, hy, n);
      XorShiftInjective(hx, hy, n);
    }
  }

  lemma XorShiftBound(x: nat, n: nat)
    requires x < U64
    ensures XorShift(x, n) < U64
  {
    WordWidth();
    ShiftShrinks(x, n);
    XorBound(x, Shift(x, n), 64);
  }

  /** Wrapping early or late makes no difference to a product. */
  lemma WrapProduct(a: nat, b: nat)
    ensures Times(a % U64, b) == Times(a, b)
  {
    var q, r := a / U64, a % U64;
    Distribute(q, r, b);
    WrapMultiple(r * b, q * b);
  }

  lemma Distribute(q: nat, r: nat, b: nat)
    ensures (q * U64 + r) * b == r * b + q * b * U64
  {
  }

  /** Multiplying by a number with an inverse modulo 2^64 loses nothing. */
  lemma TimesUndone(x: nat, c: nat, inverse: nat, k: nat)
    requires x < U64 && Product(c, inverse) == 1 + k * U64
    ensures Times(Times(x, c), inverse) == x
  {
    hide Product;
    WrapProduct(Product(x, c), inverse);
    ProductUndone(x, c, inverse, k);
    WrapMultiple(x, Product(x, k));
  }

  lemma ProductUndone(x: nat, c: nat, inverse: nat, k: nat)
    requires Product(c, inverse) == 1 + k * U64
    ensures Product(Product(x, c), inverse) == x + Product(x, k) * U64
  {
    assert x * c * inverse == x * (c * inverse);
    assert x * (1 + k * U64) == x + x * (k * U64);
  }

  lemma TimesInjective(x: nat, y: nat, c: nat, inverse: nat, k: nat)
    requires x < U64 && y < U64 && Product(c, inverse) == 1 + k * U64
    requires Times(x, c) == Times(y, c)
    ensures x == y
  {
    TimesUndone(x, c, inverse, k);
    TimesUndone(y, c, inverse, k);
  }

  // ----- the finaliser -----

  function Mix(s: nat): nat {
    var y := Times(XorShift(s, 30), FIRST);
    var z := Times(XorShift(y, 27), SECOND);
    XorShift(z, 31)
  }

  lemma MixBound(s: nat)
    ensures Mix(s) < U64
  {
    XorShiftBound(Times(XorShift(Times(XorShift(s, 30), FIRST), 27), SECOND), 31);
  }

  /** Different states give different outputs: both multipliers are odd and each
      shift-and-exclusive-or can be undone. */
  lemma MixInjective(s: nat, t: nat)
    requires s < U64 && t < U64 && Mix(s) == Mix(t)
    ensures s == t
  {
    hide Xor, Shift, XorShift, Times;
    var ys, yt := Times(XorShift(s, 30), FIRST), Times(XorShift(t, 30), FIRST);
    var zs, zt := Times(XorShift(ys, 27), SECOND), Times(XorShift(yt, 27), SECOND);
    XorShiftInjective(zs, zt, 31);
    XorShiftBound(ys, 27);
    XorShiftBound(yt, 27);
    TimesInjective(XorShift(ys, 27), XorShift(yt, 27), SECOND, 0x319642b2d24d8ec3, 0x1cd336eda85f1453);
    XorShiftInjective(ys, yt, 27);
    XorShiftBound(s, 30);
    XorShiftBound(t, 30);
    TimesInjective(XorShift(s, 30), XorShift(t, 30), FIRST, 0x96de1b173f119089, 0x70c3bca78f27f46c);
    XorShiftInjective(s, t, 30);
  }

  // ----- the walk of states -----

  /** The state after `k` steps. */
  function State(seed: nat, k: nat): nat {
    if k == 0 then seed else (State(seed, k - 1) + GAMMA) % U64
  }

  /** The `k`-th output, counting from zero. */
  function Draw(seed: nat, k: nat): nat { Mix(State(seed, k + 1)) }

  lemma {:induction false} StateIsMultiple(seed: nat, k: nat)
    requires seed < U64
    ensures State(seed, k) == (seed + Product(k, GAMMA)) % U64
  {
    if k > 0 {
      StateIsMultiple(seed, k - 1);
      WrapSum(seed + Product(k - 1, GAMMA), GAMMA);
      assert Product(k, GAMMA) == Product(k - 1, GAMMA) + GAMMA;
    }
  }

  lemma {:induction false} StateRestart(seed: nat, j: nat, k: nat)
    ensures State(State(seed, j), k) == State(seed, j + k)
  {
    if k > 0 { StateRestart(seed, j, k - 1); }
  }

  lemma NoStep(seed: nat)
    ensures State(seed, 0) == seed
  {
  }

  lemma {:induction false} DrawRestart(seed: nat, j: nat, k: nat)
    ensures Draw(State(seed, j), k) == Draw(seed, j + k)
  {
    hide Mix, State;
    StateRestart(seed, j, k + 1);
    assert j + (k + 1) == (j + k) + 1;
  }

  /** States `i` and `j` agree exactly when `i` and `j` agree modulo 2^64. */
  lemma StatesMeet(seed: nat, i: nat, j: nat)
    requires seed < U64 && i <= j
    ensures State(seed, i) == State(seed, j) <==> (j - i) % U64 == 0
  {
    StateIsMultiple(seed, i);
    StateIsMultiple(seed, j);
    var d := j - i;
    assert Product(j, GAMMA) == Product(i, GAMMA) + Product(d, GAMMA);
    GammaResidue(d);
    SameResidue(seed + Product(i, GAMMA), Product(d, GAMMA));
  }

  lemma GammaResidue(d: nat)
    ensures Product(d, GAMMA) % U64 == 0 <==> d % U64 == 0
  {
    hide Product;
    WrapProduct(d, GAMMA);
    GammaInverse();
    TimesUndone(d % U64, GAMMA, 0xf1de83e19937733d, GAMMA_QUOTIENT);
    ZeroTimes(GAMMA);
    ZeroTimes(0xf1de83e19937733d);
  }

  lemma ZeroTimes(c: nat)
    ensures Times(0, c) == 0
  {
  }

  lemma GammaInverse()
    ensures Product(GAMMA, 0xf1de83e19937733d) == 1 + GAMMA_QUOTIENT * U64
  {
  }

  lemma SameResidue(a: nat, b: nat)
    ensures a % U64 == (a + b) % U64 <==> b % U64 == 0
  {
  }

  /** Two outputs of a stream agree exactly when their positions agree modulo 2^64, whatever the
      seed; so no output repeats within 2^64 draws. */
  lemma DrawsMeet(seed: nat, i: nat, j: nat)
    requires seed < U64 && i <= j
    ensures Draw(seed, i) == Draw(seed, j) <==> (j - i) % U64 == 0
  {
    hide Mix;
    StatesMeet(seed, i + 1, j + 1);
    StateIsMultiple(seed, i + 1);
    StateIsMultiple(seed, j + 1);
    if Draw(seed, i) == Draw(seed, j) {
      MixInjective(State(seed, i + 1), State(seed, j + 1));
    }
  }

  lemma DrawsDistinct(seed: nat, i: nat, j: nat)
    requires seed < U64 && i < j < U64
    ensures Draw(seed, i) != Draw(seed, j)
  {
    DrawsMeet(seed, i, j);
  }

  // ----- the generator object -----

  class Stream {
    var state: nat

    constructor (seed: nat)
      requires seed < U64
      ensures state == seed
    {
      state := seed;
    }

    method Next() returns (z: nat)
      requires state < U64
      modifies this
      ensures state == State(old(state), 1) && state < U64
      ensures z == Draw(old(state), 0) && z < U64
    {
      hide XorShift;
      state := (state + GAMMA) % U64;
      assert State(old(state), 1) == state;
      MixBound(state);
      z := state;
      z := Times(XorShift(z, 30), FIRST);
      z := Times(XorShift(z, 27), SECOND);
      z := XorShift(z, 31);
    }

    /** The next output without taking the step. */
    function Peek(): (z: nat)
      reads this
      ensures z == Draw(state, 0)
    {
      assert State(state, 1) == (state + GAMMA) % U64;
      Mix((state + GAMMA) % U64)
    }

    /** A number below `n`; zero, without a step, when `n` is zero. */
    method Below(n: nat) returns (r: nat)
      requires state < U64
      modifies this
      ensures state < U64
      ensures n == 0 ==> r == 0 && state == old(state)
      ensures n != 0 ==> r == Draw(old(state), 0) % n && state == State(old(state), 1)
    {
      if n == 0 { return 0; }
      var z := Next();
      r := z % n;
    }
  }
}
