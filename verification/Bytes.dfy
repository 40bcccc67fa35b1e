/** Bytes and fixed-width integers written as bytes. */
module Bytes {

  newtype Byte = x: int | 0 <= x < 256

  function Pow256(n: nat): (p: nat)
    ensures p > 0
  {
    if n == 0 then 1 else 256 * Pow256(n - 1)
  }

  /** `v` as `n` bytes, most significant first. */
  function BigEndian(v: nat, n: nat): (s: seq<Byte>)
    ensures |s| == n
  {
    if n == 0 then [] else BigEndian(v / 256, n - 1) + [(v % 256) as Byte]
  }

  function BigEndianValue(s: seq<Byte>): nat {
    if s == [] then 0 else 256 * BigEndianValue(s[..|s| - 1]) + s[|s| - 1] as int
  }

  lemma {:induction false} BigEndianReads(v: nat, n: nat)
    requires v < Pow256(n)
    ensures BigEndianValue(BigEndian(v, n)) == v
  {
    if n > 0 {
      BigEndianReads(v / 256, n - 1);
      assert BigEndian(v, n)[..n - 1] == BigEndian(v / 256, n - 1);
    }
  }

  /** Equal widths and equal values mean equal bytes. */
  lemma {:induction false} BigEndianInjective(a: seq<Byte>, b: seq<Byte>)
    requires |a| == |b| && BigEndianValue(a) == BigEndianValue(b)
    ensures a == b
  {
    if |a| > 0 {
      var n := |a| - 1;
      var p, q := BigEndianValue(a[..n]), BigEndianValue(b[..n]);
      assert 256 * p + a[n] as int == 256 * q + b[n] as int;
      BigEndianInjective(a[..n], b[..n]);
      assert a == a[..n] + [a[n]] && b == b[..n] + [b[n]];
    }
  }

  /** `v` as `n` bytes, least significant first. */
  function LittleEndian(v: nat, n: nat): (s: seq<Byte>)
    ensures |s| == n
  {
    if n == 0 then [] else [(v % 256) as Byte] + LittleEndian(v / 256, n - 1)
  }

  function LittleEndianValue(s: seq<Byte>): nat {
    if s == [] then 0 else s[0] as int + 256 * LittleEndianValue(s[1..])
  }

  lemma {:induction false} LittleEndianReads(v: nat, n: nat)
    requires v < Pow256(n)
    ensures LittleEndianValue(LittleEndian(v, n)) == v
  {
    if n > 0 {
      LittleEndianReads(v / 256, n - 1);
      assert LittleEndian(v, n)[1..] == LittleEndian(v / 256, n - 1);
    }
  }

  lemma {:induction false} LittleEndianWrites(s: seq<Byte>)
    ensures LittleEndianValue(s) < Pow256(|s|)
    ensures LittleEndian(LittleEndianValue(s), |s|) == s
  {
    if s != [] {
      LittleEndianWrites(s[1..]);
    }
  }

  /** The bytes of a C++ string; a character is taken modulo 256. */
  function OfString(s: string): (b: seq<Byte>)
    ensures |b| == |s|
  {
    seq(|s|, i requires 0 <= i < |s| => (s[i] as int % 256) as Byte)
  }

  lemma OfStringConcat(a: string, b: string)
    ensures OfString(a + b) == OfString(a) + OfString(b)
  {
  }
}
