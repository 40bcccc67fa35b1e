/** Reading from a socket that may deliver bytes in pieces of any size: `read_exact` of
    src/transport.cpp and `recv_frame`, `put_u64`, `get_u64` of src/runtime_protocol.cpp. */
module Wire {
  import opened Words
  import opened Bytes
  import opened Text
  import opened Frames

  /** The receiving side of a connection. */
  class Socket {
    /** What the peer has written or will write before it closes and was not delivered yet. */
    var incoming: seq<Byte>
    /** Whether receiving never fails or times out. */
    const reliable: bool

    constructor (incoming: seq<Byte>, reliable: bool)
      ensures this.incoming == incoming && this.reliable == reliable
    {
      this.incoming, this.reliable := incoming, reliable;
    }

    /** `tcp_recv_some`: any positive number of the next bytes up to `n`; none only at the end. */
    method RecvSome(buf: array<Byte>, at: nat, n: nat) returns (ok: bool, recvd: nat)
      requires 0 < n && at + n <= buf.Length
      modifies this, buf
      ensures reliable ==> ok
      ensures recvd <= n && (ok ==> (recvd == 0 <==> old(incoming) == []))
      ensures buf[..at + recvd] + incoming == old(buf[..at]) + old(incoming)
    {
      ok :| ok || !reliable;
      if !ok || incoming == [] {
        recvd := 0;
      } else {
        recvd :| 1 <= recvd <= n && recvd <= |incoming|;
        forall i | 0 <= i < recvd { buf[at + i] := incoming[i]; }
        incoming := incoming[recvd..];
      }
    }
  }

  datatype Outcome = Full | Closed | Failed

  /** Fills `n` bytes however they arrive; `Closed` only if fewer than `n` are left. */
  method ReadExact(s: Socket, buf: array<Byte>, n: nat) returns (r: Outcome)
    requires buf.Length == n
    modifies s, buf
    ensures r == Full ==> buf[..] + s.incoming == old(s.incoming)
    ensures r == Closed ==> |old(s.incoming)| < n && s.incoming == []
    ensures r == Failed ==> !s.reliable
  {
    var got := 0;
    while got < n
      invariant 0 <= got <= n
      invariant buf[..got] + s.incoming == old(s.incoming)
    {
      var ok, recvd := s.RecvSome(buf, got, n - got);
      if !ok { return Failed; }
      if recvd == 0 { return Closed; }
      got := got + recvd;
    }
    r := Full;
    assert buf[..got] == buf[..];
  }

  // ----- receiving one message -----

  const LIMIT: nat := 64 * 0x10_0000

  datatype Received = Message(frame: Frame) | ClosedInHeader | BadHeader | TooLarge | ClosedInBody | ReceiveFailed

  /** What `recv_frame` makes of a stream, and what is left of the stream. */
  function Receive(b: seq<Byte>): (Received, seq<Byte>) {
    if |b| < HEADER then (ClosedInHeader, [])
    else
      match DecodeHeader(b[..HEADER])
      case None => (BadHeader, b[HEADER..])
      case Some((kind, len)) =>
        if len > LIMIT then (TooLarge, b[HEADER..])
        else if |b| < HEADER + len then (ClosedInBody, [])
        else (Message(Frame(kind, b[HEADER..HEADER + len])), b[HEADER + len..])
  }

  /** The result depends on the bytes alone, not on how they are delivered. */
  method RecvFrame(s: Socket) returns (r: Received)
    modifies s
    ensures r == ReceiveFailed ==> !s.reliable
    ensures r != ReceiveFailed ==> (r, s.incoming) == Receive(old(s.incoming))
  {
    hide DecodeHeader;
    var hdr := new Byte[HEADER];
    var outcome := ReadExact(s, hdr, HEADER);
    if outcome == Failed { return ReceiveFailed; }
    if outcome == Closed { return ClosedInHeader; }
    ghost var b := old(s.incoming);
    assert b[..HEADER] == hdr[..] && b[HEADER..] == s.incoming;
    var header := DecodeHeader(hdr[..]);
    if header.None? { return BadHeader; }
    var (kind, len) := header.value;
    if len > LIMIT { return TooLarge; }
    if len == 0 {
      assert b[HEADER..HEADER] == [];
      return Message(Frame(kind, []));
    }
    var body := new Byte[len];
    ghost var rest := s.incoming;
    outcome := ReadExact(s, body, len);
    if outcome == Failed { return ReceiveFailed; }
    if outcome == Closed { return ClosedInBody; }
    assert body[..] == rest[..len] == b[HEADER..HEADER + len];
    assert s.incoming == rest[len..] == b[HEADER + len..];
    r := Message(Frame(kind, body[..]));
  }

  /** The messages a receiver gets before its first error. */
  function Messages(b: seq<Byte>): seq<Frame>
    decreases |b|
  {
    var (r, rest) := Receive(b);
    if r.Message? then [r.frame] + Messages(rest) else []
  }

  predicate Small(f: Frame) { |f.payload| <= LIMIT }

  lemma ReceiveEncoded(f: Frame, rest: seq<Byte>)
    requires Fits(f)
    ensures Receive(Encode(f) + rest) == if Small(f) then (Message(f), rest) else (TooLarge, f.payload + rest)
  {
    hide DecodeHeader, Header;
    var b := Encode(f) + rest;
    HeaderReads(f.kind, |f.payload|, []);
    assert b[..HEADER] == Header(f.kind, |f.payload|) + [];
    assert b[HEADER..] == f.payload + rest;
    assert b[HEADER..HEADER + |f.payload|] == f.payload;
    assert b[HEADER + |f.payload|..] == rest;
  }

  /** The frames before the first one over the limit. */
  function UpToLimit(fs: seq<Frame>): (r: seq<Frame>)
    ensures r <= fs
  {
    if fs == [] || !Small(fs[0]) then [] else [fs[0]] + UpToLimit(fs[1..])
  }

  /** From a stream of frames exactly those before the first oversized one are received. */
  lemma {:induction false} MessagesOfFrames(fs: seq<Frame>)
    requires AllFit(fs)
    ensures Messages(EncodeAll(fs)) == UpToLimit(fs)
    ensures Messages(EncodeAll(fs)) == fs <==> forall i :: 0 <= i < |fs| ==> Small(fs[i])
  {
    hide Encode, EncodeAll, Receive, Messages;
    if fs == [] {
      NoFrames();
      NoMessages();
    } else {
      var rest := EncodeAll(fs[1..]);
      EncodeAllCons(fs);
      ReceiveEncoded(fs[0], rest);
      MessagesStep(Encode(fs[0]) + rest);
      MessagesOfFrames(fs[1..]);
      AllSmall(fs);
    }
  }

  lemma {:induction false} AllSmall(fs: seq<Frame>)
    ensures UpToLimit(fs) == fs <==> forall i :: 0 <= i < |fs| ==> Small(fs[i])
  {
    hide Small;
    if fs != [] {
      AllSmall(fs[1..]);
      assert fs == [fs[0]] + fs[1..];
      assert forall i :: 1 <= i < |fs| ==> fs[i] == fs[1..][i - 1];
      if UpToLimit(fs) == fs { assert UpToLimit(fs)[1..] == UpToLimit(fs[1..]); }
    }
  }

  lemma NoMessages()
    ensures Messages([]) == []
  {
  }

  lemma MessagesStep(b: seq<Byte>)
    ensures Messages(b) == if Receive(b).0.Message? then [Receive(b).0.frame] + Messages(Receive(b).1) else []
  {
    hide Receive;
    ReceiveShorter(b);
  }

  lemma ReceiveShorter(b: seq<Byte>)
    ensures Receive(b).0.Message? ==> |Receive(b).1| < |b|
  {
  }

  // ----- counters inside payloads -----

  method PutU64(front: seq<Byte>, v: nat) returns (out: seq<Byte>)
    requires v < U64
    ensures out == front + BigEndian(v, 8)
  {
    hide Pow256, BigEndian;
    out := front;
    NoBytes();
    var i := 8;
    while i > 0
      invariant 0 <= i <= 8
      invariant out == front + BigEndian(v / Pow256(i), 8 - i)
    {
      i := i - 1;
      ShiftTwice(v, i);
      OneMoreByte(v / Pow256(i), 8 - i);
      out := out + [(v / Pow256(i) % 256) as Byte];
    }
    NoShift(v);
  }

  lemma NoBytes()
    ensures forall v: nat :: BigEndian(v, 0) == []
  {
  }

  lemma NoShift(v: nat)
    ensures v / Pow256(0) == v
  {
  }

  lemma OneMoreByte(w: nat, n: nat)
    requires n > 0
    ensures BigEndian(w, n) == BigEndian(w / 256, n - 1) + [(w % 256) as Byte]
  {
  }

  lemma EightBytes()
    ensures Pow256(8) == U64
  {
    assert Pow256(4) == 0x1_0000_0000;
  }

  /** Shifting by one more byte is dividing by 256 once more. */
  lemma ShiftTwice(v: nat, i: nat)
    ensures Pow256(i + 1) == 256 * Pow256(i) && v / Pow256(i) / 256 == v / Pow256(i + 1)
  {
    var p := Pow256(i);
    DivideTwice(v, p, v / p / 256, v / p % 256, v % p);
  }

  lemma DivideTwice(v: nat, p: nat, q: nat, r: nat, s: nat)
    requires p > 0 && r < 256 && s < p && v == p * (256 * q + r) + s
    ensures v / (256 * p) == q
  {
    var d := 256 * p;
    assert p * r <= p * 255;
    assert v == d * q + (p * r + s) by { assert p * (256 * q + r) == d * q + p * r; }
    QuotientIs(v, d, q, p * r + s);
  }

  lemma QuotientIs(v: nat, d: nat, q: nat, r: nat)
    requires r < d && v == d * q + r
    ensures v / d == q
  {
    var k := v / d;
    assert d * k <= v < d * (k + 1) && d * (q + 1) == d * q + d;
    FactorLess(d, k, q + 1);
    FactorLess(d, q, k + 1);
  }

  lemma FactorLess(d: nat, a: nat, b: nat)
    requires d * a < d * b
    ensures a < b
  {
    assert d * (b - a) > 0;
  }

  method GetU64(s: seq<Byte>, off: nat) returns (r: Option<nat>)
    ensures r.Some? <==> off + 8 <= |s|
    ensures r.Some? ==> r.value == BigEndianValue(s[off..off + 8])
  {
    if off + 8 > |s| { return None; }
    var v: nat := 0;
    var group := s[off..off + 8];
    for i := 0 to 8
      invariant v == BigEndianValue(group[..i])
    {
      assert group[..i + 1][..i] == group[..i];
      v := v * 256 + s[off + i] as int;
    }
    assert group[..8] == group;
    r := Some(v);
  }

  /** A counter written anywhere in a payload is read back at its offset. */
  lemma CounterReads(front: seq<Byte>, v: nat, rest: seq<Byte>)
    requires v < U64
    ensures BigEndianValue((front + BigEndian(v, 8) + rest)[|front|..|front| + 8]) == v
  {
    EightBytes();
    BigEndianReads(v, 8);
    assert (front + BigEndian(v, 8) + rest)[|front|..|front| + 8] == BigEndian(v, 8);
  }
}
