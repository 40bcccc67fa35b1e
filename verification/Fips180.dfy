/** The SHA-256 of FIPS 180-4, stated recursively as the standard does (sections 4.1.2, 4.2.2,
    5.1.1, 5.3.3 and 6.2.2).  This is the reference the streaming hasher is proved against. */
module Fips180 {
  import opened Words
  import opened Bytes

  type Word = bv32

  /** The eight 32-bit words of an intermediate hash value, also used as working variables. */
  datatype Hash = Hash(a: Word, b: Word, c: Word, d: Word, e: Word, f: Word, g: Word, h: Word)

  /** Section 5.3.3. */
  const H0 := Hash(0x6a09e667, 0xbb67ae85, 0x3c6ef372, 0xa54ff53a, 0x510e527f, 0x9b05688c, 0x1f83d9ab, 0x5be0cd19)

  /** Section 4.2.2, in rows of eight. */
  const K0: seq<Word> := [0x428a2f98, 0x71374491, 0xb5c0fbcf, 0xe9b5dba5, 0x3956c25b, 0x59f111f1, 0x923f82a4, 0xab1c5ed5]
  const K1: seq<Word> := [0xd807aa98, 0x12835b01, 0x243185be, 0x550c7dc3, 0x72be5d74, 0x80deb1fe, 0x9bdc06a7, 0xc19bf174]
  const K2: seq<Word> := [0xe49b69c1, 0xefbe4786, 0x0fc19dc6, 0x240ca1cc, 0x2de92c6f, 0x4a7484aa, 0x5cb0a9dc, 0x76f988da]
  const K3: seq<Word> := [0x983e5152, 0xa831c66d, 0xb00327c8, 0xbf597fc7, 0xc6e00bf3, 0xd5a79147, 0x06ca6351, 0x14292967]
  const K4: seq<Word> := [0x27b70a85, 0x2e1b2138, 0x4d2c6dfc, 0x53380d13, 0x650a7354, 0x766a0abb, 0x81c2c92e, 0x92722c85]
  const K5: seq<Word> := [0xa2bfe8a1, 0xa81a664b, 0xc24b8b70, 0xc76c51a3, 0xd192e819, 0xd6990624, 0xf40e3585, 0x106aa070]
  const K6: seq<Word> := [0x19a4c116, 0x1e376c08, 0x2748774c, 0x34b0bcb5, 0x391c0cb3, 0x4ed8aa4a, 0x5b9cca4f, 0x682e6ff3]
  const K7: seq<Word> := [0x748f82ee, 0x78a5636f, 0x84c87814, 0x8cc70208, 0x90befffa, 0xa4506ceb, 0xbef9a3f7, 0xc67178f2]

  const K: seq<Word> := K0 + K1 + K2 + K3 + K4 + K5 + K6 + K7

  /** Addition modulo 2^32 (section 2.2.1). */
  function Plus(x: Word, y: Word): Word { x + y }

  function Sum4(w: Word, x: Word, y: Word, z: Word): Word { w + x + y + z }

  function Sum5(v: Word, w: Word, x: Word, y: Word, z: Word): Word { v + w + x + y + z }

  // Section 4.1.2.

  function Ch(x: Word, y: Word, z: Word): Word { (x & y) ^ (!x & z) }

  function Maj(x: Word, y: Word, z: Word): Word { (x & y) ^ (x & z) ^ (y & z) }

  function BigSigma0(x: Word): Word { x.RotateRight(2) ^ x.RotateRight(13) ^ x.RotateRight(22) }

  function BigSigma1(x: Word): Word { x.RotateRight(6) ^ x.RotateRight(11) ^ x.RotateRight(25) }

  function SmallSigma0(x: Word): Word { x.RotateRight(7) ^ x.RotateRight(18) ^ (x >> 3) }

  function SmallSigma1(x: Word): Word { x.RotateRight(17) ^ x.RotateRight(19) ^ (x >> 10) }

  function BigEndianWord(b0: Byte, b1: Byte, b2: Byte, b3: Byte): Word {
    (b0 as Word << 24) | (b1 as Word << 16) | (b2 as Word << 8) | b3 as Word
  }

  /** Section 6.2.2, step 1: the message schedule of a 64-byte block. */
  function Schedule(block: seq<Byte>, t: nat): Word
    requires |block| == 64
  {
    if t < 16 then
      BigEndianWord(block[4 * t], block[4 * t + 1], block[4 * t + 2], block[4 * t + 3])
    else
      Sum4(SmallSigma1(Schedule(block, t - 2)), Schedule(block, t - 7),
           SmallSigma0(Schedule(block, t - 15)), Schedule(block, t - 16))
  }

  /** One application of the round equations. */
  function Round(v: Hash, k: Word, w: Word): Hash {
    var t1 := Sum5(v.h, BigSigma1(v.e), Ch(v.e, v.f, v.g), k, w);
    var t2 := Plus(BigSigma0(v.a), Maj(v.a, v.b, v.c));
    Hash(Plus(t1, t2), v.a, v.b, v.c, Plus(v.d, t1), v.e, v.f, v.g)
  }

  /** Section 6.2.2, steps 2 and 3: the working variables after `t` rounds. */
  function Rounds(h: Hash, block: seq<Byte>, t: nat): Hash
    requires |block| == 64 && t <= |K|
  {
    if t == 0 then h else Round(Rounds(h, block, t - 1), K[t - 1], Schedule(block, t - 1))
  }

  function Add(x: Hash, y: Hash): Hash {
    Hash(Plus(x.a, y.a), Plus(x.b, y.b), Plus(x.c, y.c), Plus(x.d, y.d),
         Plus(x.e, y.e), Plus(x.f, y.f), Plus(x.g, y.g), Plus(x.h, y.h))
  }

  /** Section 6.2.2, step 4. */
  function Compress(h: Hash, block: seq<Byte>): Hash
    requires |block| == 64
  {
    Add(h, Rounds(h, block, |K|))
  }

  /** The intermediate hash value after all the 64-byte blocks of `m`. */
  function HashBlocks(m: seq<Byte>): Hash
    requires |m| % 64 == 0
    decreases |m|
  {
    if m == [] then H0
    else Compress(HashBlocks(m[..|m| - 64]), m[|m| - 64..])
  }

  // Section 5.1.1.

  function ZeroBytes(len: nat): nat { (119 - len % 64) % 64 }

  function Zeros(n: nat): (s: seq<Byte>)
    ensures |s| == n
  {
    seq(n, _ => 0)
  }

  /** The padded message.  The length field holds the bit count modulo 2^64; the standard admits
      only messages of fewer than 2^64 bits, where that is the bit count itself. */
  function Pad(m: seq<Byte>): seq<Byte> {
    m + [0x80] + Zeros(ZeroBytes(|m|)) + BigEndian(8 * |m| % U64, 8)
  }

  function WordBytes(w: Word): seq<Byte> {
    [((w >> 24) & 0xff) as Byte, ((w >> 16) & 0xff) as Byte, ((w >> 8) & 0xff) as Byte, (w & 0xff) as Byte]
  }

  function WordsBytes(words: seq<Word>): (s: seq<Byte>)
    ensures |s| == 4 * |words|
  {
    if words == [] then [] else WordsBytes(words[..|words| - 1]) + WordBytes(words[|words| - 1])
  }

  /** The digest: the eight words, each most significant byte first. */
  function HashBytes(h: Hash): (s: seq<Byte>)
    ensures |s| == 32
  {
    WordsBytes([h.a, h.b, h.c, h.d, h.e, h.f, h.g, h.h])
  }

  function Sha256(m: seq<Byte>): (digest: seq<Byte>)
    ensures |digest| == 32
  {
    PadWhole(m);
    HashBytes(HashBlocks(Pad(m)))
  }

  lemma PadWhole(m: seq<Byte>)
    ensures |Pad(m)| % 64 == 0
  {
    PadLength(|m|);
  }

  lemma PadLength(len: nat)
    ensures (len + 1 + ZeroBytes(len) + 8) % 64 == 0
  {
    var q, r := len / 64, len % 64;
    assert len == 64 * q + r;
    assert r + 1 + ZeroBytes(len) + 8 == 64 || r + 1 + ZeroBytes(len) + 8 == 128;
  }

  /** The zero bits after the one bit: the least number reaching 448 modulo 512. */
  lemma LeastZeros(len: nat, z: nat)
    requires z < 8 * ZeroBytes(len) + 7
    ensures (8 * len + 1 + 8 * ZeroBytes(len) + 7) % 512 == 448
    ensures (8 * len + 1 + z) % 512 != 448
  {
    var q, r := len / 64, len % 64;
    var least := 8 * ZeroBytes(len) + 7;
    assert 8 * r + 1 + least == 448 || 8 * r + 1 + least == 960;
    assert 8 * len + 1 + least == 512 * q + (8 * r + 1 + least);
    assert 8 * len + 1 + z == 512 * q + (8 * r + 1 + z);
  }

  lemma LengthFieldReads(n: nat)
    requires n < U64
    ensures BigEndianValue(BigEndian(n, 8)) == n
  {
    assert Pow256(4) == 0x1_0000_0000;
    assert Pow256(8) == U64;
    BigEndianReads(n, 8);
  }

  /** The padding is the one of section 5.1.1: the message, a one bit and then zero bits
      (`LeastZeros` says how many), and the bit count as a 64-bit field (`LengthFieldReads`). */
  lemma PadIsStandard(m: seq<Byte>)
    requires |m| < 0x2000_0000_0000_0000
    ensures m + [0x80] <= Pad(m)
    ensures forall i :: |m| < i < |Pad(m)| - 8 ==> Pad(m)[i] == 0
    ensures |Pad(m)| == |m| + 1 + ZeroBytes(|m|) + 8
    ensures Pad(m)[|Pad(m)| - 8..] == BigEndian(8 * |m|, 8)
  {
    assert 8 * |m| % U64 == 8 * |m|;
    Layout(m, Zeros(ZeroBytes(|m|)), BigEndian(8 * |m|, 8));
  }

  lemma Layout(m: seq<Byte>, zeros: seq<Byte>, field: seq<Byte>)
    requires forall i :: 0 <= i < |zeros| ==> zeros[i] == 0
    ensures var p := m + [0x80] + zeros + field;
            && m + [0x80] <= p
            && (forall i :: |m| < i < |p| - |field| ==> p[i] == 0)
            && p[|p| - |field|..] == field
  {
  }
}
