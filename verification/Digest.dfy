/** The 256-bit digest value of src/digest.cpp and the worker's deterministic result. */
module Digest {
  import opened Bytes
  import opened Text
  import Fips180
  import Sha256

  // ----- hexadecimal form -----

  function HexPair(b: Byte): string {
    [HexDigit(b as int / 16), HexDigit(b as int % 16)]
  }

  function Hex(d: seq<Byte>): (s: string)
    ensures |s| == 2 * |d|
  {
    if d == [] then "" else Hex(d[..|d| - 1]) + HexPair(d[|d| - 1])
  }

  /** Two digits a byte, in either case; exactly sixty-four digits. */
  function Parse(hex: string): Option<seq<Byte>> {
    if |hex| == 64 then ParsePairs(hex) else None
  }

  function ParsePairs(hex: string): Option<seq<Byte>>
    requires |hex| % 2 == 0
    decreases |hex|
  {
    if hex == "" then Some([])
    else
      var n := |hex|;
      var front := ParsePairs(hex[..n - 2]);
      var hi, lo := Nibble(hex[n - 2]), Nibble(hex[n - 1]);
      if front.None? || hi < 0 || lo < 0 then None
      else Some(front.value + [(hi * 16 + lo) as Byte])
  }

  /** The same digit in lower case. */
  function LowerDigit(c: char): char {
    if Nibble(c) < 0 then c else HexDigit(Nibble(c))
  }

  function LowerDigits(s: string): (r: string)
    ensures |r| == |s|
  {
    seq(|s|, i requires 0 <= i < |s| => LowerDigit(s[i]))
  }

  function PairByte(hi: char, lo: char): Option<Byte> {
    if Nibble(hi) < 0 || Nibble(lo) < 0 then None else Some((Nibble(hi) * 16 + Nibble(lo)) as Byte)
  }

  lemma PairReads(b: Byte)
    ensures PairByte(HexPair(b)[0], HexPair(b)[1]) == Some(b)
  {
  }

  lemma PairPrints(hi: char, lo: char)
    requires PairByte(hi, lo).Some?
    ensures HexPair(PairByte(hi, lo).value) == [LowerDigit(hi), LowerDigit(lo)]
  {
    hide Nibble, HexDigit;
    SplitPair(Nibble(hi), Nibble(lo));
  }

  lemma SplitPair(h: int, l: int)
    requires 0 <= h && 0 <= l < 16
    ensures (h * 16 + l) / 16 == h && (h * 16 + l) % 16 == l
  {
  }

  lemma PairsSnoc(s: string, hi: char, lo: char)
    requires |s| % 2 == 0
    ensures var t := s + [hi, lo];
            |t| % 2 == 0 &&
            ParsePairs(t) == if ParsePairs(s).None? || PairByte(hi, lo).None? then None
                             else Some(ParsePairs(s).value + [PairByte(hi, lo).value])
  {
    assert (s + [hi, lo])[..|s|] == s;
  }

  lemma HexSnoc(d: seq<Byte>, b: Byte)
    ensures Hex(d + [b]) == Hex(d) + HexPair(b)
  {
    assert (d + [b])[..|d|] == d;
  }

  lemma {:induction false} PairsReadHex(d: seq<Byte>)
    ensures ParsePairs(Hex(d)) == Some(d)
  {
    hide Nibble, HexDigit;
    if d != [] {
      var front, b := d[..|d| - 1], d[|d| - 1];
      PairsReadHex(front);
      PairReads(b);
      assert HexPair(b) == [HexPair(b)[0], HexPair(b)[1]];
      PairsSnoc(Hex(front), HexPair(b)[0], HexPair(b)[1]);
      assert d == front + [b];
    }
  }

  lemma {:induction false} PairsAccept(s: string)
    requires |s| % 2 == 0
    ensures ParsePairs(s).Some? <==> forall i :: 0 <= i < |s| ==> Nibble(s[i]) >= 0
    ensures ParsePairs(s).Some? ==> Hex(ParsePairs(s).value) == LowerDigits(s)
    ensures ParsePairs(s).Some? ==> 2 * |ParsePairs(s).value| == |s|
    decreases |s|
  {
    hide Nibble, HexPair, LowerDigit, Hex, ParsePairs;
    if s == "" {
      PairsEmpty();
    } else {
      var front, hi, lo := s[..|s| - 2], s[|s| - 2], s[|s| - 1];
      assert s == front + [hi, lo];
      PairsAccept(front);
      PairsSnoc(front, hi, lo);
      if ParsePairs(s).Some? {
        PairPrints(hi, lo);
        HexSnoc(ParsePairs(front).value, PairByte(hi, lo).value);
        assert LowerDigits(s) == LowerDigits(front) + [LowerDigit(hi), LowerDigit(lo)];
      }
    }
  }

  lemma PairsEmpty()
    ensures ParsePairs("") == Some([]) && Hex([]) == "" && LowerDigits("") == ""
  {
  }

  /** `hex` and `parse` undo each other: a digest always reads back, and parsing accepts exactly
      sixty-four hexadecimal digits, whose lower-case form is printed again. */
  lemma HexRoundTrip(d: seq<Byte>, s: string)
    ensures |d| == 32 ==> Parse(Hex(d)) == Some(d)
    ensures Parse(s).Some? <==> |s| == 64 && forall i :: 0 <= i < |s| ==> Nibble(s[i]) >= 0
    ensures Parse(s).Some? ==> Hex(Parse(s).value) == LowerDigits(s)
  {
    PairsReadHex(d);
    if |s| == 64 { PairsAccept(s); }
  }

  lemma HexDigitsOnly(d: seq<Byte>)
    ensures forall i :: 0 <= i < |Hex(d)| ==> Nibble(Hex(d)[i]) >= 0
  {
    hide Hex, ParsePairs;
    PairsReadHex(d);
    PairsAccept(Hex(d));
  }

  method HexScan(d: seq<Byte>) returns (s: string)
    ensures s == Hex(d)
  {
    s := "";
    for i := 0 to |d|
      invariant s == Hex(d[..i])
    {
      assert d[..i + 1][..i] == d[..i];
      s := s + [HexDigit(d[i] as int / 16)];
      s := s + [HexDigit(d[i] as int % 16)];
    }
    assert d[..|d|] == d;
  }

  method ParseScan(hex: string) returns (r: Option<seq<Byte>>)
    ensures r == Parse(hex)
  {
    if |hex| != 64 { return None; }
    PairsAccept(hex);
    var b: seq<Byte> := [];
    for i := 0 to 32
      invariant ParsePairs(hex[..2 * i]) == Some(b)
    {
      hide ParsePairs;
      var hi, lo := Nibble(hex[2 * i]), Nibble(hex[2 * i + 1]);
      if hi < 0 || lo < 0 { return None; }
      PairsSnoc(hex[..2 * i], hex[2 * i], hex[2 * i + 1]);
      assert hex[..2 * (i + 1)] == hex[..2 * i] + [hex[2 * i], hex[2 * i + 1]];
      b := b + [(hi * 16 + lo) as Byte];
    }
    assert hex[..64] == hex;
    r := Some(b);
  }

  // ----- words and equality -----

  /** The `word`-th group of eight bytes as a big-endian number. */
  function ToU64(d: seq<Byte>, word: nat): nat
    requires |d| == 32 && word < 4
  {
    BigEndianValue(d[8 * word..8 * word + 8])
  }

  method ToU64Scan(d: seq<Byte>, word: nat) returns (v: nat)
    requires |d| == 32 && word < 4
    ensures v == ToU64(d, word)
  {
    v := 0;
    var group := d[8 * word..8 * word + 8];
    for i := 0 to 8
      invariant v == BigEndianValue(group[..i])
    {
      assert group[..i + 1][..i] == group[..i];
      v := v * 256 + d[word * 8 + i] as int;
    }
    assert group[..8] == group;
  }

  /** `operator==` compares the four words. */
  predicate SameWords(a: seq<Byte>, b: seq<Byte>)
    requires |a| == |b| == 32
  {
    && ToU64(a, 0) == ToU64(b, 0) && ToU64(a, 1) == ToU64(b, 1)
    && ToU64(a, 2) == ToU64(b, 2) && ToU64(a, 3) == ToU64(b, 3)
  }

  lemma SameWordsIsEquality(a: seq<Byte>, b: seq<Byte>)
    requires |a| == |b| == 32
    ensures SameWords(a, b) <==> a == b
  {
    if SameWords(a, b) {
      BigEndianInjective(a[0..8], b[0..8]);
      BigEndianInjective(a[8..16], b[8..16]);
      BigEndianInjective(a[16..24], b[16..24]);
      BigEndianInjective(a[24..32], b[24..32]);
      assert a == a[0..8] + a[8..16] + a[16..24] + a[24..32];
      assert b == b[0..8] + b[8..16] + b[16..24] + b[24..32];
    }
  }

  // ----- hashing several pieces -----

  ghost function Concat(pieces: seq<string>): string {
    if pieces == [] then "" else Concat(pieces[..|pieces| - 1]) + pieces[|pieces| - 1]
  }

  /** However a text is cut into updates, the digest is that of the whole text. */
  method HashPieces(pieces: seq<string>) returns (d: seq<Byte>)
    ensures d == Fips180.Sha256(OfString(Concat(pieces)))
  {
    var h := new Sha256.Hasher();
    for i := 0 to |pieces|
      invariant h.Valid() && fresh(h) && fresh(h.state) && fresh(h.buffer)
      invariant h.Consumed() == OfString(Concat(pieces[..i]))
    {
      hide *;
      h.Update(OfString(pieces[i]));
      ConcatSnoc(pieces, i);
      OfStringConcat(Concat(pieces[..i]), pieces[i]);
    }
    assert pieces[..|pieces|] == pieces;
    d := h.Finish();
  }

  lemma ConcatSnoc(pieces: seq<string>, i: nat)
    requires i < |pieces|
    ensures Concat(pieces[..i + 1]) == Concat(pieces[..i]) + pieces[i]
  {
    assert pieces[..i + 1][..i] == pieces[..i];
  }

  // ----- the worker's result (apps/target_worker.cpp) -----

  function BootSuffix(boot: nat): string { "|boot=" + Decimal(boot) }

  function WorkDigest(work: string, boot: nat): seq<Byte> {
    Fips180.Sha256(OfString(work + BootSuffix(boot)))
  }

  function WorkResult(work: string, boot: nat): string { Hex(WorkDigest(work, boot)) }

  method DoWork(work: string, boot: nat) returns (result: string)
    ensures result == WorkResult(work, boot)
  {
    var d := HashPieces([work, BootSuffix(boot)]);
    TwoPieces(work, BootSuffix(boot));
    result := HexScan(d);
  }

  lemma TwoPieces(a: string, b: string)
    ensures Concat([a, b]) == a + b
  {
    ConcatSnoc([a, b], 0);
    ConcatSnoc([a, b], 1);
    assert [a, b][..0] == [] && [a, b][..2] == [a, b];
  }

  /** What the worker hashes. */
  lemma HashedText(work: string, boot: nat)
    ensures WorkResult(work, boot) == Hex(Fips180.Sha256(OfString(work + "|boot=" + Decimal(boot))))
  {
    hide Fips180.Sha256, Hex, OfString, Decimal;
    assert work + BootSuffix(boot) == work + "|boot=" + Decimal(boot);
  }

  /** For work without a bar the hashed texts are equal only for equal work under an equal boot. */
  lemma HashedTextsDiffer(work: string, boot: nat, other: string, later: nat)
    requires '|' !in work && '|' !in other
    ensures work + "|boot=" + Decimal(boot) == other + "|boot=" + Decimal(later) <==> work == other && boot == later
  {
    hide Decimal;
    var s, t := "boot=" + Decimal(boot), "boot=" + Decimal(later);
    IndexOfConcat(work, '|', s);
    IndexOfConcat(other, '|', t);
    assert work + "|boot=" + Decimal(boot) == work + ['|'] + s;
    assert other + "|boot=" + Decimal(later) == other + ['|'] + t;
    if s == t {
      assert Decimal(boot) == s[5..] && Decimal(later) == t[5..];
      DecimalReads(boot);
      DecimalReads(later);
    }
  }
}
