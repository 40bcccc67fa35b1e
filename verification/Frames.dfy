/** The frame codec: src/transport.cpp, lines 12-58. */
module Frames {
  import opened Bytes
  import opened Text

  const U32: nat := 0x1_0000_0000
  const MAGIC: nat := 0x4348_414f
  const HEADER: nat := 12

  datatype Frame = Frame(kind: nat, payload: seq<Byte>)

  /** What fits the two 32-bit header fields. */
  predicate Fits(f: Frame) { f.kind < U32 && |f.payload| < U32 }

  predicate AllFit(fs: seq<Frame>) { forall i :: 0 <= i < |fs| ==> Fits(fs[i]) }

  function Word(v: nat): (s: seq<Byte>)
    ensures |s| == 4
  {
    LittleEndian(v, 4)
  }

  function WordAt(s: seq<Byte>, off: nat): nat
    requires off + 4 <= |s|
  {
    LittleEndianValue(s[off..off + 4])
  }

  lemma WordReads(v: nat)
    requires v < U32
    ensures LittleEndianValue(Word(v)) == v
  {
    FourBytes();
    LittleEndianReads(v, 4);
  }

  lemma WordWrites(s: seq<Byte>)
    requires |s| == 4
    ensures LittleEndianValue(s) < U32 && Word(LittleEndianValue(s)) == s
  {
    FourBytes();
    LittleEndianWrites(s);
  }

  lemma FourBytes()
    ensures Pow256(4) == U32
  {
    assert Pow256(2) == 0x1_0000;
  }

  function Header(kind: nat, len: nat): (s: seq<Byte>)
    ensures |s| == HEADER
  {
    Word(MAGIC) + Word(kind) + Word(len)
  }

  /** `Frame::encode` */
  function Encode(f: Frame): (s: seq<Byte>)
    ensures |s| == HEADER + |f.payload|
  {
    Header(f.kind, |f.payload|) + f.payload
  }

  function DecodeHeader(src: seq<Byte>): Option<(nat, nat)> {
    if |src| < HEADER || WordAt(src, 0) != MAGIC then None
    else Some((WordAt(src, 4), WordAt(src, 8)))
  }

  /** `Frame::decode`: the frame at the front and the number of bytes it takes. */
  function Decode(src: seq<Byte>): (r: Option<(Frame, nat)>)
    ensures r.Some? ==> HEADER <= r.value.1 <= |src|
  {
    match DecodeHeader(src)
    case None => None
    case Some((kind, len)) =>
      if |src| < HEADER + len then None
      else Some((Frame(kind, src[HEADER..HEADER + len]), HEADER + len))
  }

  lemma HeaderReads(kind: nat, len: nat, rest: seq<Byte>)
    requires kind < U32 && len < U32
    ensures DecodeHeader(Header(kind, len) + rest) == Some((kind, len))
  {
    hide Word;
    var s := Header(kind, len) + rest;
    assert s[0..4] == Word(MAGIC) && s[4..8] == Word(kind) && s[8..12] == Word(len);
    WordReads(MAGIC);
    WordReads(kind);
    WordReads(len);
  }

  /** A header is accepted only if it is the one written for the type and length it yields. */
  lemma HeaderWrites(src: seq<Byte>)
    requires DecodeHeader(src).Some?
    ensures var (kind, len) := DecodeHeader(src).value;
            kind < U32 && len < U32 && src[..HEADER] == Header(kind, len)
  {
    hide Word, LittleEndianValue;
    WordWrites(src[0..4]);
    WordWrites(src[4..8]);
    WordWrites(src[8..12]);
    assert src[..12] == src[0..4] + src[4..8] + src[8..12];
  }

  /** An encoded frame is read back, whatever follows it. */
  lemma DecodeEncoded(f: Frame, rest: seq<Byte>)
    requires Fits(f)
    ensures Decode(Encode(f) + rest) == Some((f, |Encode(f)|))
  {
    hide DecodeHeader, Header;
    HeaderReads(f.kind, |f.payload|, f.payload + rest);
    var s := Encode(f) + rest;
    assert s == Header(f.kind, |f.payload|) + (f.payload + rest);
    assert s[HEADER..HEADER + |f.payload|] == f.payload;
  }

  /** Whatever is decoded re-encodes to exactly the bytes consumed. */
  lemma EncodeDecoded(src: seq<Byte>)
    requires Decode(src).Some?
    ensures var (f, n) := Decode(src).value; Fits(f) && Encode(f) == src[..n]
  {
    hide DecodeHeader, Header;
    HeaderWrites(src);
    var (f, n) := Decode(src).value;
    assert src[..n] == src[..HEADER] + src[HEADER..n];
  }

  /** No encoded frame is a proper prefix of another. */
  lemma PrefixFree(f: Frame, g: Frame, x: seq<Byte>, y: seq<Byte>)
    requires Fits(f) && Fits(g) && Encode(f) + x == Encode(g) + y
    ensures f == g && x == y
  {
    hide Decode, Encode;
    DecodeEncoded(f, x);
    DecodeEncoded(g, y);
    assert x == (Encode(f) + x)[|Encode(f)|..];
    assert y == (Encode(g) + y)[|Encode(g)|..];
  }

  /** Exactly the frames that fit read back: a longer payload has its length cut to 32 bits. */
  lemma DecodesExactly(f: Frame, rest: seq<Byte>)
    ensures Decode(Encode(f) + rest) == Some((f, |Encode(f)|)) <==> Fits(f)
  {
    hide DecodeHeader, Header;
    if Fits(f) { DecodeEncoded(f, rest); }
    if Decode(Encode(f) + rest).Some? { EncodeDecoded(Encode(f) + rest); }
  }

  // ----- streams -----

  function EncodeAll(fs: seq<Frame>): seq<Byte> {
    if fs == [] then [] else EncodeAll(fs[..|fs| - 1]) + Encode(fs[|fs| - 1])
  }

  /** The whole frames at the front of a stream, up to the end or the first bad header. */
  function Parse(b: seq<Byte>): seq<Frame>
    decreases |b|
  {
    match Decode(b)
    case None => []
    case Some((f, n)) => [f] + Parse(b[n..])
  }

  lemma EncodeAllSnoc(fs: seq<Frame>, f: Frame)
    ensures EncodeAll(fs + [f]) == EncodeAll(fs) + Encode(f)
  {
    assert (fs + [f])[..|fs|] == fs;
  }

  lemma NoFrames()
    ensures EncodeAll([]) == []
  {
  }

  lemma {:induction false} EncodeAllCons(fs: seq<Frame>)
    requires fs != []
    ensures EncodeAll(fs) == Encode(fs[0]) + EncodeAll(fs[1..])
  {
    hide Encode;
    if |fs| > 1 {
      var n := |fs| - 1;
      EncodeAllCons(fs[..n]);
      assert fs[1..][..n - 1] == fs[..n][1..];
    }
  }

  lemma ParseCons(f: Frame, rest: seq<Byte>)
    requires Fits(f)
    ensures Parse(Encode(f) + rest) == [f] + Parse(rest)
  {
    hide Decode, Encode;
    DecodeEncoded(f, rest);
    assert (Encode(f) + rest)[|Encode(f)|..] == rest;
  }

  /** Any sequence of frames is recovered from its bytes; trailing bytes are parsed after it. */
  lemma {:induction false} ParseEncoded(fs: seq<Frame>, rest: seq<Byte>)
    requires AllFit(fs)
    ensures Parse(EncodeAll(fs) + rest) == fs + Parse(rest)
  {
    hide Parse, Encode, EncodeAll;
    if fs == [] {
      NoFrames();
      assert [] + rest == rest && fs + Parse(rest) == Parse(rest);
    } else {
      var tail := EncodeAll(fs[1..]);
      EncodeAllCons(fs);
      assert Encode(fs[0]) + tail + rest == Encode(fs[0]) + (tail + rest);
      ParseCons(fs[0], tail + rest);
      ParseEncoded(fs[1..], rest);
      assert [fs[0]] + (fs[1..] + Parse(rest)) == fs + Parse(rest);
    }
  }

  /** Whatever a stream parses into fits and encodes to a prefix of the stream. */
  lemma {:induction false} ParsedFits(b: seq<Byte>)
    ensures AllFit(Parse(b)) && EncodeAll(Parse(b)) <= b
    decreases |b|
  {
    hide Decode, Encode, EncodeAll, Fits;
    if Decode(b).None? {
      NoFrames();
    } else {
      EncodeDecoded(b);
      var (f, n) := Decode(b).value;
      ParsedFits(b[n..]);
      EncodeAllCons(Parse(b));
      assert b == b[..n] + b[n..];
    }
  }
}
