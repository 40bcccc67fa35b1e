/** The constants of FIPS 180-4 are what sections 4.2.2 and 5.3.3 say of them: the first 32 bits of the
    fractional parts of the cube roots of the first 64 primes, and of the square roots of the first 8. */
module FipsConstants {
  import opened Fips180

  // ----- the first 64 primes -----

  const P0: seq<nat> := [2, 3, 5, 7, 11, 13, 17, 19]
  const P1: seq<nat> := [23, 29, 31, 37, 41, 43, 47, 53]
  const P2: seq<nat> := [59, 61, 67, 71, 73, 79, 83, 89]
  const P3: seq<nat> := [97, 101, 103, 107, 109, 113, 127, 131]
  const P4: seq<nat> := [137, 139, 149, 151, 157, 163, 167, 173]
  const P5: seq<nat> := [179, 181, 191, 193, 197, 199, 211, 223]
  const P6: seq<nat> := [227, 229, 233, 239, 241, 251, 257, 263]
  const P7: seq<nat> := [269, 271, 277, 281, 283, 293, 307, 311]

  const PRIMES: seq<nat> := P0 + P1 + P2 + P3 + P4 + P5 + P6 + P7

  ghost predicate Prime(n: nat) { n >= 2 && forall d :: 2 <= d < n ==> n % d != 0 }

  /** Nothing up to 17 divides it but itself. */
  predicate Sieved(n: nat) {
    && (n % 2 != 0 || n == 2) && (n % 3 != 0 || n == 3) && (n % 5 != 0 || n == 5) && (n % 7 != 0 || n == 7)
    && (n % 11 != 0 || n == 11) && (n % 13 != 0 || n == 13) && (n % 17 != 0 || n == 17)
  }

  /** `q` is the next number after `p` that passes the sieve. */
  predicate NextSieved(p: nat, q: nat) { p < q && forall n :: p < n < q ==> !Sieved(n) }

  lemma Passes(p: nat)
    requires 2 <= p < 361
    requires (p % 2 != 0 || p == 2) && (p % 3 != 0 || p == 3) && (p % 5 != 0 || p == 5) && (p % 7 != 0 || p == 7)
    requires (p % 11 != 0 || p == 11) && (p % 13 != 0 || p == 13) && (p % 17 != 0 || p == 17)
    ensures Sieved(p)
  {
  }

  lemma Falls(n: nat, d: nat)
    requires d == 2 || d == 3 || d == 5 || d == 7 || d == 11 || d == 13 || d == 17
    requires n > d && n % d == 0
    ensures !Sieved(n)
  {
  }

  lemma MultipleOf(p: nat, k: nat)
    requires p > 0
    ensures p * k % p == 0
  {
    var q, r := p * k / p, p * k % p;
    assert p * (k - q) == r;
    Between(p, k - q);
  }

  lemma Between(p: nat, d: int)
    requires p > 0 && 0 <= p * d < p
    ensures d == 0
  {
  }

  lemma Multiple(n: nat, d: nat, e: nat, p: nat)
    requires n == d * e && p > 0 && d % p == 0
    ensures n % p == 0
  {
    var q := d / p;
    assert d * e == p * (q * e);
    MultipleOf(p, q * e);
  }

  /** A number with a factor from 2 to 18 does not pass the sieve. */
  lemma SmallFactor(n: nat, d: nat, e: nat)
    requires n == d * e && 2 <= d <= 18 && n > 18
    ensures !Sieved(n)
  {
    if d % 2 == 0 {
      Multiple(n, d, e, 2);
    } else if d % 3 == 0 {
      Multiple(n, d, e, 3);
    } else if d % 5 == 0 {
      Multiple(n, d, e, 5);
    } else {
      Multiple(n, d, e, d);
    }
  }

  lemma NoFactor(n: nat, d: nat)
    requires 18 < n < 361 && Sieved(n) && 2 <= d < n
    ensures n % d != 0
  {
    var e := n / d;
    if n == d * e {
      SmallerFactor(d, e);
      SmallFactor(n, if d <= 18 then d else e, if d <= 18 then e else d);
    }
  }

  lemma SmallerFactor(d: nat, e: nat)
    requires 2 <= d < d * e < 361
    ensures 2 <= e && (d <= 18 || e <= 18)
  {
    Product19(d, e);
  }

  lemma Product19(d: nat, e: nat)
    ensures d >= 19 && e >= 19 ==> d * e >= 361
  {
    if d >= 19 && e >= 19 { assert d * e >= 19 * e; }
  }

  /** Below 19 squared the sieve by the primes up to 17 finds exactly the primes. */
  lemma SievedArePrime(n: nat)
    requires 2 <= n < 361
    ensures Prime(n) <==> Sieved(n)
  {
    if n > 18 && Sieved(n) {
      forall d | 2 <= d < n ensures n % d != 0 { NoFactor(n, d); }
    }
  }

  lemma Gaps0()
    ensures forall j :: 0 <= j < 8 ==> 2 <= P0[j] < 361 && Sieved(P0[j])
    ensures forall j :: 0 < j < 8 ==> NextSieved(P0[j - 1], P0[j])
  {
    hide Sieved;
    Passes(2); Passes(3); Passes(5); Passes(7); Passes(11); Passes(13); Passes(17); Passes(19);
    forall n | 3 < n < 5 ensures !Sieved(n) { Falls(n, 2); }
    forall n | 5 < n < 7 ensures !Sieved(n) { Falls(n, 2); }
    forall n | 7 < n < 11 ensures !Sieved(n) { if n == 9 { Falls(9, 3); } else { Falls(n, 2); } }
    forall n | 11 < n < 13 ensures !Sieved(n) { Falls(n, 2); }
    forall n | 13 < n < 17 ensures !Sieved(n) { if n == 15 { Falls(15, 3); } else { Falls(n, 2); } }
    forall n | 17 < n < 19 ensures !Sieved(n) { Falls(n, 2); }
  }

  lemma Gaps1()
    ensures forall j :: 0 <= j < 8 ==> 2 <= P1[j] < 361 && Sieved(P1[j])
    ensures forall j :: 0 < j < 8 ==> NextSieved(P1[j - 1], P1[j])
    ensures NextSieved(P0[7], P1[0])
  {
    hide Sieved;
    Passes(23); Passes(29); Passes(31); Passes(37); Passes(41); Passes(43); Passes(47); Passes(53);
    forall n | 19 < n < 23 ensures !Sieved(n) { if n == 21 { Falls(21, 3); } else { Falls(n, 2); } }
    forall n | 23 < n < 29 ensures !Sieved(n) { if n == 25 { Falls(25, 5); } else if n == 27 { Falls(27, 3); } else { Falls(n, 2); } }
    forall n | 29 < n < 31 ensures !Sieved(n) { Falls(n, 2); }
    forall n | 31 < n < 37 ensures !Sieved(n) { if n == 33 { Falls(33, 3); } else if n == 35 { Falls(35, 5); } else { Falls(n, 2); } }
    forall n | 37 < n < 41 ensures !Sieved(n) { if n == 39 { Falls(39, 3); } else { Falls(n, 2); } }
    forall n | 41 < n < 43 ensures !Sieved(n) { Falls(n, 2); }
    forall n | 43 < n < 47 ensures !Sieved(n) { if n == 45 { Falls(45, 3); } else { Falls(n, 2); } }
    forall n | 47 < n < 53 ensures !Sieved(n) { if n == 49 { Falls(49, 7); } else if n == 51 { Falls(51, 3); } else { Falls(n, 2); } }
  }

  lemma Gaps2()
    ensures forall j :: 0 <= j < 8 ==> 2 <= P2[j] < 361 && Sieved(P2[j])
    ensures forall j :: 0 < j < 8 ==> NextSieved(P2[j - 1], P2[j])
    ensures NextSieved(P1[7], P2[0])
  {
    hide Sieved;
    Passes(59); Passes(61); Passes(67); Passes(71); Passes(73); Passes(79); Passes(83); Passes(89);
    forall n | 53 < n < 59 ensures !Sieved(n) { if n == 55 { Falls(55, 5); } else if n == 57 { Falls(57, 3); } else { Falls(n, 2); } }
    forall n | 59 < n < 61 ensures !Sieved(n) { Falls(n, 2); }
    forall n | 61 < n < 67 ensures !Sieved(n) { if n == 63 { Falls(63, 3); } else if n == 65 { Falls(65, 5); } else { Falls(n, 2); } }
    forall n | 67 < n < 71 ensures !Sieved(n) { if n == 69 { Falls(69, 3); } else { Falls(n, 2); } }
    forall n | 71 < n < 73 ensures !Sieved(n) { Falls(n, 2); }
    forall n | 73 < n < 79 ensures !Sieved(n) { if n == 75 { Falls(75, 3); } else if n == 77 { Falls(77, 7); } else { Falls(n, 2); } }
    forall n | 79 < n < 83 ensures !Sieved(n) { if n == 81 { Falls(81, 3); } else { Falls(n, 2); } }
    forall n | 83 < n < 89 ensures !Sieved(n) { if n == 85 { Falls(85, 5); } else if n == 87 { Falls(87, 3); } else { Falls(n, 2); } }
  }

  lemma Gaps3()
    ensures forall j :: 0 <= j < 8 ==> 2 <= P3[j] < 361 && Sieved(P3[j])
    ensures forall j :: 0 < j < 8 ==> NextSieved(P3[j - 1], P3[j])
    ensures NextSieved(P2[7], P3[0])
  {
    hide Sieved;
    Passes(97); Passes(101); Passes(103); Passes(107); Passes(109); Passes(113); Passes(127); Passes(131);
    forall n | 89 < n < 97 ensures !Sieved(n) { if n == 91 { Falls(91, 7); } else if n == 93 { Falls(93, 3); } else if n == 95 { Falls(95, 5); } else { Falls(n, 2); } }
    forall n | 97 < n < 101 ensures !Sieved(n) { if n == 99 { Falls(99, 3); } else { Falls(n, 2); } }
    forall n | 101 < n < 103 ensures !Sieved(n) { Falls(n, 2); }
    forall n | 103 < n < 107 ensures !Sieved(n) { if n == 105 { Falls(105, 3); } else { Falls(n, 2); } }
    forall n | 107 < n < 109 ensures !Sieved(n) { Falls(n, 2); }
    forall n | 109 < n < 113 ensures !Sieved(n) { if n == 111 { Falls(111, 3); } else { Falls(n, 2); } }
    forall n | 113 < n < 127 ensures !Sieved(n) { if n == 115 { Falls(115, 5); } else if n == 117 { Falls(117, 3); } else if n == 119 { Falls(119, 7); } else if n == 121 { Falls(121, 11); } else if n == 123 { Falls(123, 3); } else if n == 125 { Falls(125, 5); } else { Falls(n, 2); } }
    forall n | 127 < n < 131 ensures !Sieved(n) { if n == 129 { Falls(129, 3); } else { Falls(n, 2); } }
  }

  lemma Gaps4()
    ensures forall j :: 0 <= j < 8 ==> 2 <= P4[j] < 361 && Sieved(P4[j])
    ensures forall j :: 0 < j < 8 ==> NextSieved(P4[j - 1], P4[j])
    ensures NextSieved(P3[7], P4[0])
  {
    hide Sieved;
    Passes(137); Passes(139); Passes(149); Passes(151); Passes(157); Passes(163); Passes(167); Passes(173);
    forall n | 131 < n < 137 ensures !Sieved(n) { if n == 133 { Falls(133, 7); } else if n == 135 { Falls(135, 3); } else { Falls(n, 2); } }
    forall n | 137 < n < 139 ensures !Sieved(n) { Falls(n, 2); }
    forall n | 139 < n < 149 ensures !Sieved(n) { if n == 141 { Falls(141, 3); } else if n == 143 { Falls(143, 11); } else if n == 145 { Falls(145, 5); } else if n == 147 { Falls(147, 3); } else { Falls(n, 2); } }
    forall n | 149 < n < 151 ensures !Sieved(n) { Falls(n, 2); }
    forall n | 151 < n < 157 ensures !Sieved(n) { if n == 153 { Falls(153, 3); } else if n == 155 { Falls(155, 5); } else { Falls(n, 2); } }
    forall n | 157 < n < 163 ensures !Sieved(n) { if n == 159 { Falls(159, 3); } else if n == 161 { Falls(161, 7); } else { Falls(n, 2); } }
    forall n | 163 < n < 167 ensures !Sieved(n) { if n == 165 { Falls(165, 3); } else { Falls(n, 2); } }
    forall n | 167 < n < 173 ensures !Sieved(n) { if n == 169 { Falls(169, 13); } else if n == 171 { Falls(171, 3); } else { Falls(n, 2); } }
  }

  lemma Gaps5()
    ensures forall j :: 0 <= j < 8 ==> 2 <= P5[j] < 361 && Sieved(P5[j])
    ensures forall j :: 0 < j < 8 ==> NextSieved(P5[j - 1], P5[j])
    ensures NextSieved(P4[7], P5[0])
  {
    hide Sieved;
    Passes(179); Passes(181); Passes(191); Passes(193); Passes(197); Passes(199); Passes(211); Passes(223);
    forall n | 173 < n < 179 ensures !Sieved(n) { if n == 175 { Falls(175, 5); } else if n == 177 { Falls(177, 3); } else { Falls(n, 2); } }
    forall n | 179 < n < 181 ensures !Sieved(n) { Falls(n, 2); }
    forall n | 181 < n < 191 ensures !Sieved(n) { if n == 183 { Falls(183, 3); } else if n == 185 { Falls(185, 5); } else if n == 187 { Falls(187, 11); } else if n == 189 { Falls(189, 3); } else { Falls(n, 2); } }
    forall n | 191 < n < 193 ensures !Sieved(n) { Falls(n, 2); }
    forall n | 193 < n < 197 ensures !Sieved(n) { if n == 195 { Falls(195, 3); } else { Falls(n, 2); } }
    forall n | 197 < n < 199 ensures !Sieved(n) { Falls(n, 2); }
    forall n | 199 < n < 211 ensures !Sieved(n) { if n == 201 { Falls(201, 3); } else if n == 203 { Falls(203, 7); } else if n == 205 { Falls(205, 5); } else if n == 207 { Falls(207, 3); } else if n == 209 { Falls(209, 11); } else { Falls(n, 2); } }
    forall n | 211 < n < 223 ensures !Sieved(n) { if n == 213 { Falls(213, 3); } else if n == 215 { Falls(215, 5); } else if n == 217 { Falls(217, 7); } else if n == 219 { Falls(219, 3); } else if n == 221 { Falls(221, 13); } else { Falls(n, 2); } }
  }

  lemma Gaps6()
    ensures forall j :: 0 <= j < 8 ==> 2 <= P6[j] < 361 && Sieved(P6[j])
    ensures forall j :: 0 < j < 8 ==> NextSieved(P6[j - 1], P6[j])
    ensures NextSieved(P5[7], P6[0])
  {
    hide Sieved;
    Passes(227); Passes(229); Passes(233); Passes(239); Passes(241); Passes(251); Passes(257); Passes(263);
    forall n | 223 < n < 227 ensures !Sieved(n) { if n == 225 { Falls(225, 3); } else { Falls(n, 2); } }
    forall n | 227 < n < 229 ensures !Sieved(n) { Falls(n, 2); }
    forall n | 229 < n < 233 ensures !Sieved(n) { if n == 231 { Falls(231, 3); } else { Falls(n, 2); } }
    forall n | 233 < n < 239 ensures !Sieved(n) { if n == 235 { Falls(235, 5); } else if n == 237 { Falls(237, 3); } else { Falls(n, 2); } }
    forall n | 239 < n < 241 ensures !Sieved(n) { Falls(n, 2); }
    forall n | 241 < n < 251 ensures !Sieved(n) { if n == 243 { Falls(243, 3); } else if n == 245 { Falls(245, 5); } else if n == 247 { Falls(247, 13); } else if n == 249 { Falls(249, 3); } else { Falls(n, 2); } }
    forall n | 251 < n < 257 ensures !Sieved(n) { if n == 253 { Falls(253, 11); } else if n == 255 { Falls(255, 3); } else { Falls(n, 2); } }
    forall n | 257 < n < 263 ensures !Sieved(n) { if n == 259 { Falls(259, 7); } else if n == 261 { Falls(261, 3); } else { Falls(n, 2); } }
  }

  lemma Gaps7()
    ensures forall j :: 0 <= j < 8 ==> 2 <= P7[j] < 361 && Sieved(P7[j])
    ensures forall j :: 0 < j < 8 ==> NextSieved(P7[j - 1], P7[j])
    ensures NextSieved(P6[7], P7[0])
  {
    hide Sieved;
    Passes(269); Passes(271); Passes(277); Passes(281); Passes(283); Passes(293); Passes(307); Passes(311);
    forall n | 263 < n < 269 ensures !Sieved(n) { if n == 265 { Falls(265, 5); } else if n == 267 { Falls(267, 3); } else { Falls(n, 2); } }
    forall n | 269 < n < 271 ensures !Sieved(n) { Falls(n, 2); }
    forall n | 271 < n < 277 ensures !Sieved(n) { if n == 273 { Falls(273, 3); } else if n == 275 { Falls(275, 5); } else { Falls(n, 2); } }
    forall n | 277 < n < 281 ensures !Sieved(n) { if n == 279 { Falls(279, 3); } else { Falls(n, 2); } }
    forall n | 281 < n < 283 ensures !Sieved(n) { Falls(n, 2); }
    forall n | 283 < n < 293 ensures !Sieved(n) { if n == 285 { Falls(285, 3); } else if n == 287 { Falls(287, 7); } else if n == 289 { Falls(289, 17); } else if n == 291 { Falls(291, 3); } else { Falls(n, 2); } }
    forall n | 293 < n < 307 ensures !Sieved(n) { if n == 295 { Falls(295, 5); } else if n == 297 { Falls(297, 3); } else if n == 299 { Falls(299, 13); } else if n == 301 { Falls(301, 7); } else if n == 303 { Falls(303, 3); } else if n == 305 { Falls(305, 5); } else { Falls(n, 2); } }
    forall n | 307 < n < 311 ensures !Sieved(n) { if n == 309 { Falls(309, 3); } else { Falls(n, 2); } }
  }

  /** The list starts at two, and each entry is the next prime after the one before. */
  lemma PrimesAreFirst(i: nat)
    requires i < 64
    ensures |PRIMES| == 64 && PRIMES[0] == 2 && Prime(PRIMES[i])
    ensures i > 0 ==> PRIMES[i - 1] < PRIMES[i] && forall n :: PRIMES[i - 1] < n < PRIMES[i] ==> !Prime(n)
  {
    hide Prime, Sieved;
    Gaps0(); Gaps1(); Gaps2(); Gaps3();
    Gaps4(); Gaps5(); Gaps6(); Gaps7();
    SievedArePrime(PRIMES[i]);
    if i > 0 {
      forall n | PRIMES[i - 1] < n < PRIMES[i] ensures !Prime(n) { SievedArePrime(n); }
    }
  }

  // ----- roots -----

  const ONE: nat := 0x1_0000_0000

  function Fixed(c: nat, k: nat): nat { c * ONE + k }

  predicate CubeRootOf(x: nat, p: nat) { x * x * x <= p * ONE * ONE * ONE < (x + 1) * (x + 1) * (x + 1) }

  predicate SquareRootOf(x: nat, p: nat) { x * x <= p * ONE * ONE < (x + 1) * (x + 1) }

  /** `k` is the first 32 bits of the fractional part of the cube root of `p`. */
  ghost predicate CubeRootBits(k: nat, p: nat) { exists c :: CubeRootOf(Fixed(c, k), p) }

  ghost predicate SquareRootBits(h: nat, p: nat) { exists c :: SquareRootOf(Fixed(c, h), p) }

  lemma CubeRoots0()
    ensures forall j :: 0 <= j < 8 ==> CubeRootBits(K0[j] as nat, P0[j])
  {
    assert K0[0] as nat == 0x428a2f98 && CubeRootOf(Fixed(1, 0x428a2f98), 2);
    assert K0[1] as nat == 0x71374491 && CubeRootOf(Fixed(1, 0x71374491), 3);
    assert K0[2] as nat == 0xb5c0fbcf && CubeRootOf(Fixed(1, 0xb5c0fbcf), 5);
    assert K0[3] as nat == 0xe9b5dba5 && CubeRootOf(Fixed(1, 0xe9b5dba5), 7);
    assert K0[4] as nat == 0x3956c25b && CubeRootOf(Fixed(2, 0x3956c25b), 11);
    assert K0[5] as nat == 0x59f111f1 && CubeRootOf(Fixed(2, 0x59f111f1), 13);
    assert K0[6] as nat == 0x923f82a4 && CubeRootOf(Fixed(2, 0x923f82a4), 17);
    assert K0[7] as nat == 0xab1c5ed5 && CubeRootOf(Fixed(2, 0xab1c5ed5), 19);
  }

  lemma CubeRoots1()
    ensures forall j :: 0 <= j < 8 ==> CubeRootBits(K1[j] as nat, P1[j])
  {
    assert K1[0] as nat == 0xd807aa98 && CubeRootOf(Fixed(2, 0xd807aa98), 23);
    assert K1[1] as nat == 0x12835b01 && CubeRootOf(Fixed(3, 0x12835b01), 29);
    assert K1[2] as nat == 0x243185be && CubeRootOf(Fixed(3, 0x243185be), 31);
    assert K1[3] as nat == 0x550c7dc3 && CubeRootOf(Fixed(3, 0x550c7dc3), 37);
    assert K1[4] as nat == 0x72be5d74 && CubeRootOf(Fixed(3, 0x72be5d74), 41);
    assert K1[5] as nat == 0x80deb1fe && CubeRootOf(Fixed(3, 0x80deb1fe), 43);
    assert K1[6] as nat == 0x9bdc06a7 && CubeRootOf(Fixed(3, 0x9bdc06a7), 47);
    assert K1[7] as nat == 0xc19bf174 && CubeRootOf(Fixed(3, 0xc19bf174), 53);
  }

  lemma CubeRoots2()
    ensures forall j :: 0 <= j < 8 ==> CubeRootBits(K2[j] as nat, P2[j])
  {
    assert K2[0] as nat == 0xe49b69c1 && CubeRootOf(Fixed(3, 0xe49b69c1), 59);
    assert K2[1] as nat == 0xefbe4786 && CubeRootOf(Fixed(3, 0xefbe4786), 61);
    assert K2[2] as nat == 0x0fc19dc6 && CubeRootOf(Fixed(4, 0x0fc19dc6), 67);
    assert K2[3] as nat == 0x240ca1cc && CubeRootOf(Fixed(4, 0x240ca1cc), 71);
    assert K2[4] as nat == 0x2de92c6f && CubeRootOf(Fixed(4, 0x2de92c6f), 73);
    assert K2[5] as nat == 0x4a7484aa && CubeRootOf(Fixed(4, 0x4a7484aa), 79);
    assert K2[6] as nat == 0x5cb0a9dc && CubeRootOf(Fixed(4, 0x5cb0a9dc), 83);
    assert K2[7] as nat == 0x76f988da && CubeRootOf(Fixed(4, 0x76f988da), 89);
  }

  lemma CubeRoots3()
    ensures forall j :: 0 <= j < 8 ==> CubeRootBits(K3[j] as nat, P3[j])
  {
    assert K3[0] as nat == 0x983e5152 && CubeRootOf(Fixed(4, 0x983e5152), 97);
    assert K3[1] as nat == 0xa831c66d && CubeRootOf(Fixed(4, 0xa831c66d), 101);
    assert K3[2] as nat == 0xb00327c8 && CubeRootOf(Fixed(4, 0xb00327c8), 103);
    assert K3[3] as nat == 0xbf597fc7 && CubeRootOf(Fixed(4, 0xbf597fc7), 107);
    assert K3[4] as nat == 0xc6e00bf3 && CubeRootOf(Fixed(4, 0xc6e00bf3), 109);
    assert K3[5] as nat == 0xd5a79147 && CubeRootOf(Fixed(4, 0xd5a79147), 113);
    assert K3[6] as nat == 0x06ca6351 && CubeRootOf(Fixed(5, 0x06ca6351), 127);
    assert K3[7] as nat == 0x14292967 && CubeRootOf(Fixed(5, 0x14292967), 131);
  }

  lemma CubeRoots4()
    ensures forall j :: 0 <= j < 8 ==> CubeRootBits(K4[j] as nat, P4[j])
  {
    assert K4[0] as nat == 0x27b70a85 && CubeRootOf(Fixed(5, 0x27b70a85), 137);
    assert K4[1] as nat == 0x2e1b2138 && CubeRootOf(Fixed(5, 0x2e1b2138), 139);
    assert K4[2] as nat == 0x4d2c6dfc && CubeRootOf(Fixed(5, 0x4d2c6dfc), 149);
    assert K4[3] as nat == 0x53380d13 && CubeRootOf(Fixed(5, 0x53380d13), 151);
    assert K4[4] as nat == 0x650a7354 && CubeRootOf(Fixed(5, 0x650a7354), 157);
    assert K4[5] as nat == 0x766a0abb && CubeRootOf(Fixed(5, 0x766a0abb), 163);
    assert K4[6] as nat == 0x81c2c92e && CubeRootOf(Fixed(5, 0x81c2c92e), 167);
    assert K4[7] as nat == 0x92722c85 && CubeRootOf(Fixed(5, 0x92722c85), 173);
  }

  lemma CubeRoots5()
    ensures forall j :: 0 <= j < 8 ==> CubeRootBits(K5[j] as nat, P5[j])
  {
    assert K5[0] as nat == 0xa2bfe8a1 && CubeRootOf(Fixed(5, 0xa2bfe8a1), 179);
    assert K5[1] as nat == 0xa81a664b && CubeRootOf(Fixed(5, 0xa81a664b), 181);
    assert K5[2] as nat == 0xc24b8b70 && CubeRootOf(Fixed(5, 0xc24b8b70), 191);
    assert K5[3] as nat == 0xc76c51a3 && CubeRootOf(Fixed(5, 0xc76c51a3), 193);
    assert K5[4] as nat == 0xd192e819 && CubeRootOf(Fixed(5, 0xd192e819), 197);
    assert K5[5] as nat == 0xd6990624 && CubeRootOf(Fixed(5, 0xd6990624), 199);
    assert K5[6] as nat == 0xf40e3585 && CubeRootOf(Fixed(5, 0xf40e3585), 211);
    assert K5[7] as nat == 0x106aa070 && CubeRootOf(Fixed(6, 0x106aa070), 223);
  }

  lemma CubeRoots6()
    ensures forall j :: 0 <= j < 8 ==> CubeRootBits(K6[j] as nat, P6[j])
  {
    assert K6[0] as nat == 0x19a4c116 && CubeRootOf(Fixed(6, 0x19a4c116), 227);
    assert K6[1] as nat == 0x1e376c08 && CubeRootOf(Fixed(6, 0x1e376c08), 229);
    assert K6[2] as nat == 0x2748774c && CubeRootOf(Fixed(6, 0x2748774c), 233);
    assert K6[3] as nat == 0x34b0bcb5 && CubeRootOf(Fixed(6, 0x34b0bcb5), 239);
    assert K6[4] as nat == 0x391c0cb3 && CubeRootOf(Fixed(6, 0x391c0cb3), 241);
    assert K6[5] as nat == 0x4ed8aa4a && CubeRootOf(Fixed(6, 0x4ed8aa4a), 251);
    assert K6[6] as nat == 0x5b9cca4f && CubeRootOf(Fixed(6, 0x5b9cca4f), 257);
    assert K6[7] as nat == 0x682e6ff3 && CubeRootOf(Fixed(6, 0x682e6ff3), 263);
  }

  lemma CubeRoots7()
    ensures forall j :: 0 <= j < 8 ==> CubeRootBits(K7[j] as nat, P7[j])
  {
    assert K7[0] as nat == 0x748f82ee && CubeRootOf(Fixed(6, 0x748f82ee), 269);
    assert K7[1] as nat == 0x78a5636f && CubeRootOf(Fixed(6, 0x78a5636f), 271);
    assert K7[2] as nat == 0x84c87814 && CubeRootOf(Fixed(6, 0x84c87814), 277);
    assert K7[3] as nat == 0x8cc70208 && CubeRootOf(Fixed(6, 0x8cc70208), 281);
    assert K7[4] as nat == 0x90befffa && CubeRootOf(Fixed(6, 0x90befffa), 283);
    assert K7[5] as nat == 0xa4506ceb && CubeRootOf(Fixed(6, 0xa4506ceb), 293);
    assert K7[6] as nat == 0xbef9a3f7 && CubeRootOf(Fixed(6, 0xbef9a3f7), 307);
    assert K7[7] as nat == 0xc67178f2 && CubeRootOf(Fixed(6, 0xc67178f2), 311);
  }

  /** Where the rows are in the whole tables. */
  lemma InRows(t: nat)
    requires t < 64
    ensures |K| == 64 && |PRIMES| == 64
    ensures 0 <= t < 8 ==> K[t] == K0[t - 0] && PRIMES[t] == P0[t - 0]
    ensures 8 <= t < 16 ==> K[t] == K1[t - 8] && PRIMES[t] == P1[t - 8]
    ensures 16 <= t < 24 ==> K[t] == K2[t - 16] && PRIMES[t] == P2[t - 16]
    ensures 24 <= t < 32 ==> K[t] == K3[t - 24] && PRIMES[t] == P3[t - 24]
    ensures 32 <= t < 40 ==> K[t] == K4[t - 32] && PRIMES[t] == P4[t - 32]
    ensures 40 <= t < 48 ==> K[t] == K5[t - 40] && PRIMES[t] == P5[t - 40]
    ensures 48 <= t < 56 ==> K[t] == K6[t - 48] && PRIMES[t] == P6[t - 48]
    ensures 56 <= t < 64 ==> K[t] == K7[t - 56] && PRIMES[t] == P7[t - 56]
  {
  }

  /** Section 4.2.2: the constant of every round, for the prime of the same number. */
  lemma RoundConstants(t: nat)
    requires t < 64
    ensures |K| == 64 && |PRIMES| == 64 && CubeRootBits(K[t] as nat, PRIMES[t])
  {
    hide CubeRootBits, K, PRIMES, K0, K1, K2, K3, K4, K5, K6, K7, P0, P1, P2, P3, P4, P5, P6, P7;
    InRows(t);
    if t < 8 {
      CubeRoots0();
    } else if t < 16 {
      CubeRoots1();
    } else if t < 24 {
      CubeRoots2();
    } else if t < 32 {
      CubeRoots3();
    } else if t < 40 {
      CubeRoots4();
    } else if t < 48 {
      CubeRoots5();
    } else if t < 56 {
      CubeRoots6();
    } else {
      CubeRoots7();
    }
  }

  lemma FirstHalf()
    ensures SquareRootBits(H0.a as nat, P0[0])
    ensures SquareRootBits(H0.b as nat, P0[1])
    ensures SquareRootBits(H0.c as nat, P0[2])
    ensures SquareRootBits(H0.d as nat, P0[3])
  {
    assert SquareRootOf(Fixed(1, 0x6a09e667), 2);
    assert SquareRootOf(Fixed(1, 0xbb67ae85), 3);
    assert SquareRootOf(Fixed(2, 0x3c6ef372), 5);
    assert SquareRootOf(Fixed(2, 0xa54ff53a), 7);
  }

  lemma SecondHalf()
    ensures SquareRootBits(H0.e as nat, P0[4])
    ensures SquareRootBits(H0.f as nat, P0[5])
    ensures SquareRootBits(H0.g as nat, P0[6])
    ensures SquareRootBits(H0.h as nat, P0[7])
  {
    assert SquareRootOf(Fixed(3, 0x510e527f), 11);
    assert SquareRootOf(Fixed(3, 0x9b05688c), 13);
    assert SquareRootOf(Fixed(4, 0x1f83d9ab), 17);
    assert SquareRootOf(Fixed(4, 0x5be0cd19), 19);
  }

  /** Section 5.3.3, for the first eight primes. */
  lemma InitialValue()
    ensures SquareRootBits(H0.a as nat, P0[0]) && SquareRootBits(H0.b as nat, P0[1])
    ensures SquareRootBits(H0.c as nat, P0[2]) && SquareRootBits(H0.d as nat, P0[3])
    ensures SquareRootBits(H0.e as nat, P0[4]) && SquareRootBits(H0.f as nat, P0[5])
    ensures SquareRootBits(H0.g as nat, P0[6]) && SquareRootBits(H0.h as nat, P0[7])
    ensures P0 <= PRIMES
  {
    hide SquareRootBits;
    FirstHalf();
    SecondHalf();
  }
}
