/** The byte-level loop of the proxy (src/transport.cpp, lines 105-218) and its refinement of the
    frame-list machine. */
module Forwarder {
  import opened Words
  import opened Bytes
  import opened Text
  import opened Frames
  import opened Proxy
  import opened Wire

  /** The sending side of a connection; sends succeed. */
  class Sink {
    var sent: seq<Byte>

    constructor ()
      ensures sent == []
    {
      sent := [];
    }

    method SendAll(data: seq<Byte>)
      modifies this
      ensures sent == old(sent) + data
    {
      sent := sent + data;
    }
  }

  // ----- reading a frame -----

  /** The next frame's type and bytes, or nothing at the end, at a bad header or on a failed read. */
  method ReadFrame(s: Socket) returns (r: Option<(nat, seq<Byte>)>)
    modifies s
    ensures r.None? && s.reliable ==> Decode(old(s.incoming)).None?
    ensures r.Some? ==> Decode(old(s.incoming)).Some? &&
                        var (f, n) := Decode(old(s.incoming)).value;
                        r.value == (f.kind, Encode(f)) && s.incoming == old(s.incoming)[n..]
  {
    hide DecodeHeader, Header;
    ghost var src := s.incoming;
    var header := new Byte[HEADER];
    var outcome := ReadExact(s, header, HEADER);
    if outcome != Full {
      ShortHeader(src);
      return None;
    }
    assert src[..HEADER] == header[..] && src[HEADER..] == s.incoming;
    HeaderAlone(src);
    var h := DecodeHeader(header[..]);
    if h.None? { return None; }
    var (kind, len) := h.value;
    var bytes := header[..];
    if len > 0 {
      ghost var rest := s.incoming;
      var p := new Byte[len];
      outcome := ReadExact(s, p, len);
      if outcome != Full { return None; }
      assert p[..] == rest[..len] == src[HEADER..HEADER + len];
      assert s.incoming == rest[len..] == src[HEADER + len..];
      bytes := bytes + p[..];
    }
    assert bytes == src[..HEADER + len];
    EncodeDecoded(src);
    r := Some((kind, bytes));
  }

  lemma ShortHeader(src: seq<Byte>)
    ensures |src| < HEADER ==> DecodeHeader(src).None?
  {
  }

  /** Only the first twelve bytes matter to the header. */
  lemma HeaderAlone(src: seq<Byte>)
    requires |src| >= HEADER
    ensures DecodeHeader(src[..HEADER]) == DecodeHeader(src)
  {
    var h := src[..HEADER];
    assert h[0..4] == src[0..4] && h[4..8] == src[4..8] && h[8..12] == src[8..12];
  }

  method Choose(faults: seq<Fault>, dir: Direction, kind: nat, number: nat) returns (r: Option<Fault>)
    ensures r == Pick(faults, dir, kind, number)
  {
    assert faults[0..] == faults;
    for i := 0 to |faults|
      invariant Pick(faults[i..], dir, kind, number) == Pick(faults, dir, kind, number)
    {
      var tf := faults[i];
      assert faults[i..][0] == tf && faults[i..][1..] == faults[i + 1..];
      if tf.direction != dir { continue; }
      if tf.messageType != 0 && tf.messageType != kind { continue; }
      if tf.atSequence != 0 && tf.atSequence != number { continue; }
      return Some(tf);
    }
    r := None;
  }

  // ----- changing the bytes of a frame -----

  /** Rewrites the length field and drops the end: again a well-formed frame. */
  method TruncateBytes(bytes: seq<Byte>, offset: int, ghost f: Frame) returns (r: seq<Byte>)
    requires Fits(f) && bytes == Encode(f) && -I32 <= offset < I32
    ensures r == Encode(Truncated(f, offset))
  {
    hide Word;
    var cut := if offset < 0 then offset + U64 else offset;
    if cut < HEADER { cut := HEADER; }
    if cut > |bytes| { cut := |bytes|; }
    var newlen := (cut - HEADER) % U32;
    var field := Word(newlen);
    r := bytes[8 := field[0]];
    r := r[9 := field[1]];
    r := r[10 := field[2]];
    r := r[11 := field[3]];
    r := r[..cut];
    ghost var kept := f.payload[..cut - HEADER];
    assert r == Word(MAGIC) + Word(f.kind) + Word(newlen) + kept;
  }

  method CorruptBytes(bytes: seq<Byte>, offset: int, ghost f: Frame) returns (r: seq<Byte>)
    requires Fits(f) && bytes == Encode(f)
    ensures r == Encode(Corrupted(f, offset))
  {
    hide Header, Flip;
    r := bytes;
    if offset >= HEADER && offset < AsInt(|bytes|) {
      CorruptsInBounds(f, offset);
      r := r[offset := Flip(r[offset])];
    }
  }

  method Forward(out: Sink, data: seq<Byte>, count: nat, stats: Stats, ghost f: Frame)
    returns (s: Stats)
    requires data == Encode(f)
    modifies out
    ensures s == stats.(forwarded := stats.forwarded + count)
    ensures out.sent == old(out.sent) + EncodeAll(Copies(f, count))
  {
    hide EncodeAll, Encode;
    s := stats;
    NoFrames();
    for i := 0 to count
      invariant s == stats.(forwarded := stats.forwarded + i)
      invariant out.sent == old(out.sent) + EncodeAll(Copies(f, i))
    {
      EncodeAllSnoc(Copies(f, i), f);
      assert Copies(f, i + 1) == Copies(f, i) + [f];
      out.SendAll(data);
      s := s.(forwarded := s.forwarded + 1);
    }
  }

  ghost function Copies(f: Frame, n: nat): (fs: seq<Frame>)
    ensures |fs| == n
  {
    seq(n, _ => f)
  }

  // ----- the loop -----

  /** The loop's variables hold the machine's state; what was sent follows `before`. */
  ghost predicate Mirrors(st: State, number: nat, pending: seq<Byte>, stats: Stats, sent: seq<Byte>, before: seq<Byte>) {
    && st.read == number && st.stats == stats
    && pending == EncodeAll(Held(st.pending))
    && sent == before + EncodeAll(st.out)
    && (st.pending.Some? ==> Fits(st.pending.value))
  }

  lemma {:induction false} EncodeAllConcat(fs: seq<Frame>, gs: seq<Frame>)
    ensures EncodeAll(fs + gs) == EncodeAll(fs) + EncodeAll(gs)
  {
    hide Encode, EncodeAll;
    if gs == [] {
      NoFrames();
      assert fs + gs == fs;
    } else {
      var front, last := gs[..|gs| - 1], gs[|gs| - 1];
      EncodeAllConcat(fs, front);
      assert gs == front + [last] && fs + gs == fs + front + [last];
      EncodeAllSnoc(fs + front, last);
      EncodeAllSnoc(front, last);
    }
  }

  lemma HeldBytes(p: Option<Frame>)
    ensures p.None? ==> EncodeAll(Held(p)) == []
    ensures p.Some? ==> EncodeAll(Held(p)) == Encode(p.value) && EncodeAll(Held(p)) != []
  {
    hide Encode;
    if p.Some? {
      EncodeAllSnoc([], p.value);
      assert [] + [p.value] == [p.value];
    }
  }

  /** What one call of the machine's send does to the mirrored bytes. */
  lemma SendMirrors(st: State, fs: seq<Frame>, sent: seq<Byte>, before: seq<Byte>)
    requires sent == before + EncodeAll(st.out)
    ensures sent + EncodeAll(fs) == before + EncodeAll(Send(st, fs).out)
  {
    hide EncodeAll;
    EncodeAllConcat(st.out, fs);
  }

  lemma CopiesAre(f: Frame)
    ensures Copies(f, 1) == [f] && Copies(f, 2) == [f, f]
  {
  }

  method ApplyFault(out: Sink, t: Fault, bytes: seq<Byte>, pending: seq<Byte>, stats: Stats,
                    ghost st: State, ghost f: Frame, ghost before: seq<Byte>)
    returns (held: seq<Byte>, s: Stats, closed: bool)
    requires Fits(f) && bytes == Encode(f) && -I32 <= t.offset < I32
    requires !st.closed && Mirrors(st, st.read, pending, stats, out.sent, before)
    modifies out
    ensures Mirrors(Apply(st, f, t), st.read, held, s, out.sent, before)
    ensures closed == Apply(st, f, t).closed
  {
    hide EncodeAll, Encode, Truncated, Corrupted;
    held, s, closed := pending, stats.(applied := stats.applied + 1), false;
    CopiesAre(f);
    match t.kind
    case DROP =>
      s := s.(dropped := s.dropped + 1);
    case DUPLICATE =>
      s := s.(duplicated := s.duplicated + 1);
      SendMirrors(st, [f, f], out.sent, before);
      s := Forward(out, bytes, 2, s, f);
    case TRUNCATE =>
      s := s.(truncated := s.truncated + 1);
      ghost var g := Truncated(f, t.offset);
      var cut := TruncateBytes(bytes, t.offset, f);
      CopiesAre(g);
      SendMirrors(st, [g], out.sent, before);
      s := Forward(out, cut, 1, s, g);
    case CORRUPT =>
      s := s.(corrupted := s.corrupted + 1);
      ghost var g := Corrupted(f, t.offset);
      var changed := CorruptBytes(bytes, t.offset, f);
      CopiesAre(g);
      SendMirrors(st, [g], out.sent, before);
      s := Forward(out, changed, 1, s, g);
    case REORDER =>
      s := s.(reordered := s.reordered + 1);
      HeldBytes(st.pending);
      HeldBytes(Some(f));
      SendMirrors(st, Held(st.pending), out.sent, before);
      if pending != [] {
        held := bytes;
        CopiesAre(st.pending.value);
        s := Forward(out, pending, 1, s, st.pending.value);
      } else {
        held := bytes;
      }
    case DELAY =>
      s := s.(delayed := s.delayed + 1);
      SendMirrors(st, [f], out.sent, before);
      s := Forward(out, bytes, 1, s, f);
    case HALF_CLOSE | CLOSE =>
      closed := true;
  }

  /** The loop over one direction refines the frame-list machine: however the input is delivered, the
      bytes sent are those of the machine run over the first `n` frames of the input, with its
      counters; reliable input is read until it ends or a fault closes the connection. */
  method ForwardFrames(input: Socket, out: Sink, dir: Direction, faults: seq<Fault>)
    returns (alive: bool, stats: Stats, ghost n: nat)
    requires forall i :: 0 <= i < |faults| ==> -I32 <= faults[i].offset < I32
    modifies input, out
    ensures var fs := Parse(old(input.incoming));
            && n <= |fs|
            && var st := Run(faults, dir, fs[..n]);
               && out.sent == old(out.sent) + EncodeAll(st.out)
               && stats == st.stats && alive == !st.closed && st.read == n
               && (input.reliable ==> st.closed || n == |fs|)
  {
    hide *;
    ghost var fs := Parse(input.incoming);
    ghost var st := START;
    ghost var before := out.sent;
    var number: nat := 0;
    var pending: seq<Byte> := [];
    stats, n := ZERO, 0;
    StartMirrors(faults, dir, fs, out.sent);
    while true
      invariant n <= |fs| && st == Run(faults, dir, fs[..n]) && number == n
      invariant !st.closed && Mirrors(st, number, pending, stats, out.sent, before)
      invariant Parse(input.incoming) == fs[n..]
      decreases |input.incoming|
    {
      var aborted: bool :| aborted ==> !input.reliable;
      if aborted {
        MirrorParts(st, number, pending, stats, out.sent, before);
        return true, stats, n;
      }
      ghost var src := input.incoming;
      var r := ReadFrame(input);
      ParseStep(src);
      MirrorParts(st, number, pending, stats, out.sent, before);
      if r.None? { return true, stats, n; }
      var (kind, bytes) := r.value;
      ghost var f := Decode(src).value.0;
      assert fs[n] == fs[n..][0] == f && fs[n + 1..] == fs[n..][1..];
      assert fs[..n + 1] == fs[..n] + [f];
      RunSnoc(faults, dir, fs[..n], f);
      number := number + 1;
      var applied := Choose(faults, dir, kind, number);
      StepIs(faults, dir, st, f);
      ghost var next := st.(read := st.read + 1);
      ReadMirrors(st, number - 1, pending, stats, out.sent, before);
      n := n + 1;
      st := Run(faults, dir, fs[..n]);
      if applied.Some? {
        PickOffset(faults, dir, kind, number);
        var closed;
        pending, stats, closed := ApplyFault(out, applied.value, bytes, pending, stats, next, f, before);
        ApplyReads(next, f, applied.value);
        MirrorParts(st, number, pending, stats, out.sent, before);
        if closed { return false, stats, n; }
      } else {
        SendsOne(next, f, pending, stats, out.sent, before);
        CopiesAre(f);
        stats := Forward(out, bytes, 1, stats, f);
      }
    }
  }

  lemma StartMirrors(faults: seq<Fault>, dir: Direction, fs: seq<Frame>, sent: seq<Byte>)
    ensures fs[..0] == [] && fs[0..] == fs && Run(faults, dir, fs[..0]) == START && !START.closed
    ensures Mirrors(START, 0, [], ZERO, sent, sent)
  {
    assert sent + [] == sent;
  }

  lemma MirrorParts(st: State, number: nat, pending: seq<Byte>, stats: Stats, sent: seq<Byte>, before: seq<Byte>)
    requires Mirrors(st, number, pending, stats, sent, before)
    ensures st.read == number && st.stats == stats && sent == before + EncodeAll(st.out)
  {
  }

  lemma ParseStep(src: seq<Byte>)
    ensures Decode(src).None? ==> Parse(src) == []
    ensures Decode(src).Some? ==>
              var (f, n) := Decode(src).value;
              0 < n <= |src| && Fits(f) && Parse(src) != [] && Parse(src)[0] == f && Parse(src)[1..] == Parse(src[n..])
  {
    hide Decode, Encode;
    if Decode(src).Some? { EncodeDecoded(src); }
  }

  lemma StepIs(faults: seq<Fault>, dir: Direction, st: State, f: Frame)
    requires !st.closed
    ensures var next := st.(read := st.read + 1);
            var t := Pick(faults, dir, f.kind, next.read);
            Step(faults, dir, st, f) == if t.Some? then Apply(next, f, t.value) else Send(next, [f])
  {
    hide Pick, Apply;
  }

  lemma ReadMirrors(st: State, number: nat, pending: seq<Byte>, stats: Stats, sent: seq<Byte>, before: seq<Byte>)
    requires Mirrors(st, number, pending, stats, sent, before)
    ensures Mirrors(st.(read := st.read + 1), number + 1, pending, stats, sent, before)
  {
    hide EncodeAll;
  }

  lemma SendsOne(st: State, f: Frame, pending: seq<Byte>, stats: Stats, sent: seq<Byte>, before: seq<Byte>)
    requires Mirrors(st, st.read, pending, stats, sent, before)
    ensures Mirrors(Send(st, [f]), st.read, pending, stats.(forwarded := stats.forwarded + 1), sent + EncodeAll([f]), before)
    ensures Send(st, [f]).closed == st.closed
  {
    hide EncodeAll;
    SendMirrors(st, [f], sent, before);
  }

  lemma ApplyReads(st: State, f: Frame, t: Fault)
    ensures Apply(st, f, t).read == st.read
  {
  }

  lemma {:induction false} PickOffset(faults: seq<Fault>, dir: Direction, kind: nat, number: nat)
    requires forall i :: 0 <= i < |faults| ==> -I32 <= faults[i].offset < I32
    ensures var t := Pick(faults, dir, kind, number); t.Some? ==> -I32 <= t.value.offset < I32
  {
    hide Matches;
    if faults != [] { PickOffset(faults[1..], dir, kind, number); }
  }
}
