/** The fault-injecting proxy: what it does to a list of frames (src/transport.cpp, lines 119-218). */
module Proxy {
  import opened Bytes
  import opened Text
  import opened Frames
  import SplitMix

  datatype Direction = C2S | S2C

  datatype FaultKind = DROP | DUPLICATE | TRUNCATE | CORRUPT | REORDER | DELAY | HALF_CLOSE | CLOSE

  const I32: int := 0x8000_0000

  /** `atSequence` counts from one; zero there or in `messageType` matches anything.  `offset` is a 32-bit int. */
  datatype Fault = Fault(kind: FaultKind, direction: Direction, messageType: nat, atSequence: nat, offset: int)

  datatype Stats = Stats(
    forwarded: nat, applied: nat, dropped: nat, truncated: nat, corrupted: nat, duplicated: nat,
    delayed: nat, reordered: nat)

  const ZERO := Stats(0, 0, 0, 0, 0, 0, 0, 0)

  predicate Matches(t: Fault, dir: Direction, kind: nat, number: nat) {
    && t.direction == dir
    && (t.messageType == 0 || t.messageType == kind)
    && (t.atSequence == 0 || t.atSequence == number)
  }

  /** The first fault in the list that matches. */
  function Pick(faults: seq<Fault>, dir: Direction, kind: nat, number: nat): Option<Fault> {
    if faults == [] then None
    else if Matches(faults[0], dir, kind, number) then Some(faults[0])
    else Pick(faults[1..], dir, kind, number)
  }

  // ----- what a fault does to one frame -----

  /** Where a frame of `size` bytes is cut.  A negative offset becomes a huge unsigned one: no cut. */
  function Cut(offset: int, size: nat): (c: nat)
    requires size >= HEADER
    ensures HEADER <= c <= size
  {
    if 0 <= offset < HEADER then HEADER
    else if offset < 0 || offset > size then size
    else offset
  }

  function Truncated(f: Frame, offset: int): Frame {
    f.(payload := f.payload[..Cut(offset, HEADER + |f.payload|) - HEADER])
  }

  /** `b ^ 0xa5` */
  function Flip(b: Byte): Byte {
    assert SplitMix.Pow2(8) == 256;
    SplitMix.XorBound(b as int, 0xa5, 8);
    SplitMix.Xor(b as int, 0xa5) as Byte
  }

  /** Flipping really changes a byte, and twice restores it. */
  lemma FlipTwice(b: Byte)
    ensures Flip(b) != b && Flip(Flip(b)) == b
  {
    hide SplitMix.Xor;
    SplitMix.XorBits(b as int, 0xa5);
    SplitMix.XorUndoes(b as int, 0xa5);
  }

  /** A size converted to a 32-bit int. */
  function AsInt(n: nat): int {
    var m := n % U32;
    if m < I32 then m else m - U32
  }

  predicate Corrupts(f: Frame, offset: int) {
    HEADER <= offset < AsInt(HEADER + |f.payload|)
  }

  /** A size that does not fit an int converts to less than the true size, so the index is in bounds. */
  lemma CorruptsInBounds(f: Frame, offset: int)
    requires Corrupts(f, offset)
    ensures offset - HEADER < |f.payload|
  {
  }

  /** Frames under 2^31 bytes are corrupted at every payload offset, larger ones at none. */
  lemma CorruptsWhen(f: Frame, offset: int)
    requires Fits(f)
    ensures Corrupts(f, offset) <==> HEADER + |f.payload| < I32 && HEADER <= offset < HEADER + |f.payload|
  {
  }

  function Corrupted(f: Frame, offset: int): Frame {
    if Corrupts(f, offset) then
      CorruptsInBounds(f, offset);
      f.(payload := f.payload[offset - HEADER := Flip(f.payload[offset - HEADER])])
    else f
  }

  // ----- the machine -----

  /** `read` frames were read; `pending` is held back for reordering. */
  datatype State = State(read: nat, pending: Option<Frame>, out: seq<Frame>, stats: Stats, closed: bool)

  const START := State(0, None, [], ZERO, false)

  function Send(st: State, fs: seq<Frame>): State {
    st.(out := st.out + fs, stats := st.stats.(forwarded := st.stats.forwarded + |fs|))
  }

  function Held(p: Option<Frame>): seq<Frame> { if p.Some? then [p.value] else [] }

  function Apply(st: State, f: Frame, t: Fault): State {
    var s := st.stats.(applied := st.stats.applied + 1);
    match t.kind
    case DROP => st.(stats := s.(dropped := s.dropped + 1))
    case DUPLICATE => Send(st.(stats := s.(duplicated := s.duplicated + 1)), [f, f])
    case TRUNCATE => Send(st.(stats := s.(truncated := s.truncated + 1)), [Truncated(f, t.offset)])
    case CORRUPT => Send(st.(stats := s.(corrupted := s.corrupted + 1)), [Corrupted(f, t.offset)])
    case REORDER => Send(st.(stats := s.(reordered := s.reordered + 1), pending := Some(f)), Held(st.pending))
    case DELAY => Send(st.(stats := s.(delayed := s.delayed + 1)), [f])
    case HALF_CLOSE | CLOSE => st.(stats := s, closed := true)
  }

  function Step(faults: seq<Fault>, dir: Direction, st: State, f: Frame): State {
    if st.closed then st
    else
      var next := st.(read := st.read + 1);
      match Pick(faults, dir, f.kind, next.read)
      case Some(t) => Apply(next, f, t)
      case None => Send(next, [f])
  }

  /** The proxy over a list of frames. */
  function Run(faults: seq<Fault>, dir: Direction, fs: seq<Frame>): State {
    if fs == [] then START else Step(faults, dir, Run(faults, dir, fs[..|fs| - 1]), fs[|fs| - 1])
  }

  lemma RunSnoc(faults: seq<Fault>, dir: Direction, fs: seq<Frame>, f: Frame)
    ensures Run(faults, dir, fs + [f]) == Step(faults, dir, Run(faults, dir, fs), f)
  {
    assert (fs + [f])[..|fs|] == fs;
  }

  // ----- what comes out, without the machine -----

  /** The fault that hits frame `i` of the list. */
  function Struck(faults: seq<Fault>, dir: Direction, fs: seq<Frame>, i: nat): Option<Fault>
    requires i < |fs|
  {
    Pick(faults, dir, fs[i].kind, i + 1)
  }

  predicate IsReorder(t: Option<Fault>) { t.Some? && t.value.kind == REORDER }

  predicate IsClose(t: Option<Fault>) { t.Some? && (t.value.kind == HALF_CLOSE || t.value.kind == CLOSE) }

  /** The last frame before `i` that was hit by a reorder. */
  function LastHeld(faults: seq<Fault>, dir: Direction, fs: seq<Frame>, i: nat): Option<Frame>
    requires i <= |fs|
  {
    if i == 0 then None
    else if IsReorder(Struck(faults, dir, fs, i - 1)) then Some(fs[i - 1])
    else LastHeld(faults, dir, fs, i - 1)
  }

  /** What the proxy sends on reading `f`, when `held` was held back before. */
  function Sends(f: Frame, struck: Option<Fault>, held: Option<Frame>): seq<Frame> {
    if struck.None? then [f]
    else
      match struck.value.kind
      case DROP => []
      case DUPLICATE => [f, f]
      case TRUNCATE => [Truncated(f, struck.value.offset)]
      case CORRUPT => [Corrupted(f, struck.value.offset)]
      case REORDER => Held(held)
      case DELAY => [f]
      case HALF_CLOSE | CLOSE => []
  }

  function Emitted(faults: seq<Fault>, dir: Direction, fs: seq<Frame>, i: nat): seq<Frame>
    requires i < |fs|
  {
    Sends(fs[i], Struck(faults, dir, fs, i), LastHeld(faults, dir, fs, i))
  }

  function EmittedUpTo(faults: seq<Fault>, dir: Direction, fs: seq<Frame>, n: nat): seq<Frame>
    requires n <= |fs|
  {
    if n == 0 then [] else EmittedUpTo(faults, dir, fs, n - 1) + Emitted(faults, dir, fs, n - 1)
  }

  /** The index of the first closing fault, or the length. */
  function CloseAt(faults: seq<Fault>, dir: Direction, fs: seq<Frame>, i: nat := 0): (c: nat)
    requires i <= |fs|
    ensures i <= c <= |fs|
    decreases |fs| - i
  {
    if i == |fs| || IsClose(Struck(faults, dir, fs, i)) then i else CloseAt(faults, dir, fs, i + 1)
  }

  predicate OpenUpTo(faults: seq<Fault>, dir: Direction, fs: seq<Frame>, n: nat)
    requires n <= |fs|
  {
    forall i :: 0 <= i < n ==> !IsClose(Struck(faults, dir, fs, i))
  }

  lemma {:induction false} CloseAtFirst(faults: seq<Fault>, dir: Direction, fs: seq<Frame>, i: nat)
    requires i <= |fs| && OpenUpTo(faults, dir, fs, i)
    ensures var c := CloseAt(faults, dir, fs, i);
            OpenUpTo(faults, dir, fs, c) && (c < |fs| ==> IsClose(Struck(faults, dir, fs, c)))
    decreases |fs| - i
  {
    hide Struck, IsClose;
    if i < |fs| && !IsClose(Struck(faults, dir, fs, i)) { CloseAtFirst(faults, dir, fs, i + 1); }
  }

  lemma StepSends(faults: seq<Fault>, dir: Direction, st: State, f: Frame)
    requires !st.closed && !IsClose(Pick(faults, dir, f.kind, st.read + 1))
    ensures var t := Pick(faults, dir, f.kind, st.read + 1);
            var next := Step(faults, dir, st, f);
            && !next.closed && next.read == st.read + 1
            && next.out == st.out + Sends(f, t, st.pending)
            && next.pending == if IsReorder(t) then Some(f) else st.pending
  {
    hide Pick, Truncated, Corrupted;
  }

  lemma {:induction false} RunOpen(faults: seq<Fault>, dir: Direction, fs: seq<Frame>, n: nat)
    requires n <= |fs| && OpenUpTo(faults, dir, fs, n)
    ensures var st := Run(faults, dir, fs[..n]);
            && !st.closed && st.read == n
            && st.out == EmittedUpTo(faults, dir, fs, n) && st.pending == LastHeld(faults, dir, fs, n)
  {
    hide Run, Pick, Step, Sends;
    if n == 0 {
      RunNone(faults, dir);
      assert fs[..0] == [];
    } else {
      RunOpen(faults, dir, fs, n - 1);
      assert fs[..n] == fs[..n - 1] + [fs[n - 1]];
      RunSnoc(faults, dir, fs[..n - 1], fs[n - 1]);
      assert !IsClose(Struck(faults, dir, fs, n - 1));
      StepSends(faults, dir, Run(faults, dir, fs[..n - 1]), fs[n - 1]);
    }
  }

  lemma RunNone(faults: seq<Fault>, dir: Direction)
    ensures Run(faults, dir, []) == START
  {
  }

  lemma {:induction false} RunClosed(faults: seq<Fault>, dir: Direction, fs: seq<Frame>, m: nat, n: nat)
    requires m <= n <= |fs| && Run(faults, dir, fs[..m]).closed
    ensures Run(faults, dir, fs[..n]) == Run(faults, dir, fs[..m])
  {
    hide Run, Pick;
    if m < n {
      RunClosed(faults, dir, fs, m, n - 1);
      assert fs[..n] == fs[..n - 1] + [fs[n - 1]];
      RunSnoc(faults, dir, fs[..n - 1], fs[n - 1]);
    }
  }

  /** The output of a whole run in closed form: frame by frame up to the first closing fault, each
      reordered frame going out when the next reordered one is read. */
  lemma OutputIs(faults: seq<Fault>, dir: Direction, fs: seq<Frame>)
    ensures var c := CloseAt(faults, dir, fs);
            var st := Run(faults, dir, fs);
            && st.out == EmittedUpTo(faults, dir, fs, c)
            && st.pending == LastHeld(faults, dir, fs, c)
            && st.closed == (c < |fs|)
            && st.read == if c < |fs| then c + 1 else c
  {
    hide Run, EmittedUpTo, LastHeld, Pick;
    var c := CloseAt(faults, dir, fs);
    CloseAtFirst(faults, dir, fs, 0);
    RunOpen(faults, dir, fs, c);
    assert fs[..|fs|] == fs;
    if c < |fs| {
      assert fs[..c + 1] == fs[..c] + [fs[c]];
      RunSnoc(faults, dir, fs[..c], fs[c]);
      RunClosed(faults, dir, fs, c + 1, |fs|);
    }
  }

  /** What one fault can do to a frame: the type never changes; a cut leaves a prefix of the payload,
      a corruption changes at most the one byte at the offset. */
  lemma FrameShape(f: Frame, offset: int)
    requires Fits(f)
    ensures var t := Truncated(f, offset);
            && Fits(t) && t.kind == f.kind && t.payload <= f.payload && (offset < 0 ==> t == f)
            && (0 <= offset <= HEADER ==> t.payload == [])
            && (HEADER <= offset <= HEADER + |f.payload| ==> |t.payload| == offset - HEADER)
            && (offset > HEADER + |f.payload| ==> t == f)
    ensures var c := Corrupted(f, offset);
            && Fits(c) && c.kind == f.kind && |c.payload| == |f.payload|
            && (forall k :: 0 <= k < |f.payload| && k != offset - HEADER ==> c.payload[k] == f.payload[k])
            && (c == f <==> !Corrupts(f, offset))
  {
    if Corrupts(f, offset) {
      CorruptsInBounds(f, offset);
      FlipTwice(f.payload[offset - HEADER]);
      assert Corrupted(f, offset).payload[offset - HEADER] != f.payload[offset - HEADER];
    }
  }

  lemma EmittedFits(faults: seq<Fault>, dir: Direction, fs: seq<Frame>, i: nat)
    requires i < |fs| && AllFit(fs)
    ensures AllFit(Emitted(faults, dir, fs, i))
  {
    hide Truncated, Corrupted, Pick, LastHeld;
    var t := Struck(faults, dir, fs, i);
    if t.Some? { FrameShape(fs[i], t.value.offset); }
    LastHeldFits(faults, dir, fs, i);
  }

  lemma {:induction false} LastHeldFits(faults: seq<Fault>, dir: Direction, fs: seq<Frame>, i: nat)
    requires i <= |fs| && AllFit(fs)
    ensures AllFit(Held(LastHeld(faults, dir, fs, i)))
  {
    hide Struck;
    if i > 0 { LastHeldFits(faults, dir, fs, i - 1); }
  }

  lemma {:induction false} EmittedUpToFits(faults: seq<Fault>, dir: Direction, fs: seq<Frame>, n: nat)
    requires n <= |fs| && AllFit(fs)
    ensures AllFit(EmittedUpTo(faults, dir, fs, n))
  {
    hide Emitted, Fits;
    if n > 0 {
      EmittedUpToFits(faults, dir, fs, n - 1);
      EmittedFits(faults, dir, fs, n - 1);
    }
  }

  /** The bytes sent parse again into exactly the frames of the output. */
  lemma OutputReparses(faults: seq<Fault>, dir: Direction, fs: seq<Frame>)
    requires AllFit(fs)
    ensures var out := Run(faults, dir, fs).out;
            AllFit(out) && Parse(EncodeAll(out)) == out
  {
    hide Run, EmittedUpTo, LastHeld, Parse, EncodeAll, Fits;
    OutputIs(faults, dir, fs);
    EmittedUpToFits(faults, dir, fs, CloseAt(faults, dir, fs));
    var out := Run(faults, dir, fs).out;
    ParseEncoded(out, []);
    NothingParses();
    assert EncodeAll(out) + [] == EncodeAll(out) && out + [] == out;
  }

  lemma NothingParses()
    ensures Parse([]) == []
  {
  }

  // ----- conservation -----

  /** How many of the first `n` frames were hit by a fault of this kind. */
  function Hits(faults: seq<Fault>, dir: Direction, fs: seq<Frame>, n: nat, k: FaultKind): nat
    requires n <= |fs|
  {
    if n == 0 then 0
    else Hits(faults, dir, fs, n - 1, k)
         + var t := Struck(faults, dir, fs, n - 1); if t.Some? && t.value.kind == k then 1 else 0
  }

  function Bit(b: bool): nat { if b then 1 else 0 }

  ghost predicate Conserved(st: State) {
    var s := st.stats;
    && s.forwarded == |st.out|
    && s.forwarded + s.dropped + Bit(s.reordered > 0) + Bit(st.closed) == st.read + s.duplicated
    && s.applied == s.dropped + s.duplicated + s.truncated + s.corrupted + s.reordered + s.delayed + Bit(st.closed)
    && (st.pending.Some? <==> s.reordered > 0)
  }

  lemma ApplyConserves(st: State, f: Frame, t: Fault)
    requires st.read > 0 && !st.closed && Conserved(st.(read := st.read - 1))
    ensures Conserved(Apply(st, f, t))
  {
    hide Truncated, Corrupted;
  }

  lemma StepConserves(faults: seq<Fault>, dir: Direction, st: State, f: Frame)
    requires Conserved(st)
    ensures Conserved(Step(faults, dir, st, f))
  {
    hide Pick, Apply;
    if !st.closed {
      var next := st.(read := st.read + 1);
      var t := Pick(faults, dir, f.kind, next.read);
      if t.Some? { ApplyConserves(next, f, t.value); }
    }
  }

  /** Frames are conserved: every frame read is sent once, except for one extra a duplication, one
      less a drop, the one still held when anything was reordered, and the one that closed. */
  lemma {:induction false} RunConserves(faults: seq<Fault>, dir: Direction, fs: seq<Frame>)
    ensures Conserved(Run(faults, dir, fs))
  {
    if fs != [] {
      hide Step, Conserved;
      var n := |fs| - 1;
      RunConserves(faults, dir, fs[..n]);
      StepConserves(faults, dir, Run(faults, dir, fs[..n]), fs[n]);
    }
  }

  /** The counter kept for a kind of fault; closing has none. */
  function Counter(s: Stats, k: FaultKind): nat {
    match k
    case DROP => s.dropped
    case DUPLICATE => s.duplicated
    case TRUNCATE => s.truncated
    case CORRUPT => s.corrupted
    case REORDER => s.reordered
    case DELAY => s.delayed
    case HALF_CLOSE | CLOSE => 0
  }

  lemma ApplyCounts(st: State, f: Frame, t: Fault, k: FaultKind)
    requires t.kind != HALF_CLOSE && t.kind != CLOSE
    ensures Counter(Apply(st, f, t).stats, k) == Counter(st.stats, k) + Bit(t.kind == k)
  {
    hide Truncated, Corrupted;
  }

  /** Each counter of a run that was not closed is the number of frames hit by that kind of fault. */
  lemma {:induction false} CountersCount(faults: seq<Fault>, dir: Direction, fs: seq<Frame>, n: nat, k: FaultKind)
    requires n <= |fs| && OpenUpTo(faults, dir, fs, n)
    ensures Counter(Run(faults, dir, fs[..n]).stats, k) == Hits(faults, dir, fs, n, k)
  {
    hide Run, Pick, Apply, LastHeld, EmittedUpTo;
    if n == 0 {
      RunNone(faults, dir);
      assert fs[..0] == [];
    } else {
      CountersCount(faults, dir, fs, n - 1, k);
      RunOpen(faults, dir, fs, n - 1);
      assert fs[..n] == fs[..n - 1] + [fs[n - 1]];
      RunSnoc(faults, dir, fs[..n - 1], fs[n - 1]);
      var t := Struck(faults, dir, fs, n - 1);
      assert !IsClose(t);
      var st := Run(faults, dir, fs[..n - 1]);
      if t.Some? { ApplyCounts(st.(read := st.read + 1), fs[n - 1], t.value, k); }
    }
  }

  // ----- order -----

  /** Frames tagged with whether a fault hit them. */
  type Tagged = seq<(bool, Frame)>

  function TagAs(tag: bool, fs: seq<Frame>): (ts: Tagged)
    ensures |ts| == |fs|
  {
    seq(|fs|, i requires 0 <= i < |fs| => (tag, fs[i]))
  }

  function Only(ts: Tagged, tag: bool): seq<Frame> {
    if ts == [] then []
    else Only(ts[..|ts| - 1], tag) + if ts[|ts| - 1].0 == tag then [ts[|ts| - 1].1] else []
  }

  function Untag(ts: Tagged): (fs: seq<Frame>)
    ensures |fs| == |ts|
  {
    seq(|ts|, i requires 0 <= i < |ts| => ts[i].1)
  }

  /** The frames read. */
  function ReadTags(faults: seq<Fault>, dir: Direction, fs: seq<Frame>, n: nat): (ts: Tagged)
    requires n <= |fs|
  {
    if n == 0 then []
    else ReadTags(faults, dir, fs, n - 1) + [(Struck(faults, dir, fs, n - 1).Some?, fs[n - 1])]
  }

  /** The frames sent, each tagged like the frame whose reading sent it. */
  function SentTags(faults: seq<Fault>, dir: Direction, fs: seq<Frame>, n: nat): Tagged
    requires n <= |fs|
  {
    if n == 0 then []
    else SentTags(faults, dir, fs, n - 1) + TagAs(Struck(faults, dir, fs, n - 1).Some?, Emitted(faults, dir, fs, n - 1))
  }

  lemma OnlySnoc(ts: Tagged, t: (bool, Frame), tag: bool)
    ensures Only(ts + [t], tag) == Only(ts, tag) + if t.0 == tag then [t.1] else []
  {
    assert (ts + [t])[..|ts|] == ts;
  }

  lemma {:induction false} OnlyTagged(ts: Tagged, t: bool, fs: seq<Frame>, tag: bool)
    ensures Only(ts + TagAs(t, fs), tag) == Only(ts, tag) + if t == tag then fs else []
  {
    hide Only;
    if fs == [] {
      assert ts + TagAs(t, fs) == ts;
    } else {
      var front, last := fs[..|fs| - 1], fs[|fs| - 1];
      OnlyTagged(ts, t, front, tag);
      assert ts + TagAs(t, fs) == ts + TagAs(t, front) + [(t, last)];
      OnlySnoc(ts + TagAs(t, front), (t, last), tag);
      assert fs == front + [last];
    }
  }

  /** Traffic no fault matches goes out unchanged and in order, whatever happens to the rest. */
  lemma {:induction false} UnmatchedPass(faults: seq<Fault>, dir: Direction, fs: seq<Frame>, n: nat)
    requires n <= |fs|
    ensures Only(SentTags(faults, dir, fs, n), false) == Only(ReadTags(faults, dir, fs, n), false)
    ensures Untag(SentTags(faults, dir, fs, n)) == EmittedUpTo(faults, dir, fs, n)
  {
    hide Only, Emitted, Struck;
    if n > 0 {
      var i := n - 1;
      UnmatchedPass(faults, dir, fs, i);
      var t := Struck(faults, dir, fs, i).Some?;
      OnlySnoc(ReadTags(faults, dir, fs, i), (t, fs[i]), false);
      OnlyTagged(SentTags(faults, dir, fs, i), t, Emitted(faults, dir, fs, i), false);
      UnmatchedSends(faults, dir, fs, i);
    }
  }

  lemma UnmatchedSends(faults: seq<Fault>, dir: Direction, fs: seq<Frame>, i: nat)
    requires i < |fs|
    ensures Struck(faults, dir, fs, i).None? ==> Emitted(faults, dir, fs, i) == [fs[i]]
  {
  }

  predicate ReorderOnly(faults: seq<Fault>) {
    forall i :: 0 <= i < |faults| ==> faults[i].kind == REORDER
  }

  lemma {:induction false} PickReorder(faults: seq<Fault>, dir: Direction, kind: nat, number: nat)
    requires ReorderOnly(faults)
    ensures var t := Pick(faults, dir, kind, number); t.Some? ==> t.value.kind == REORDER
  {
    hide Matches;
    if faults != [] { PickReorder(faults[1..], dir, kind, number); }
  }

  /** With reorder faults only, the matched frames go out in their order but for the last, which is held. */
  lemma {:induction false} ReorderKeepsOrder(faults: seq<Fault>, dir: Direction, fs: seq<Frame>, n: nat)
    requires n <= |fs| && ReorderOnly(faults)
    ensures Only(SentTags(faults, dir, fs, n), true) + Held(LastHeld(faults, dir, fs, n))
            == Only(ReadTags(faults, dir, fs, n), true)
  {
    hide Only, Pick, Truncated, Corrupted;
    if n == 0 {
      OnlyNone();
    } else {
      var i := n - 1;
      ReorderKeepsOrder(faults, dir, fs, i);
      PickReorder(faults, dir, fs[i].kind, i + 1);
      var t := Struck(faults, dir, fs, i).Some?;
      OnlySnoc(ReadTags(faults, dir, fs, i), (t, fs[i]), true);
      OnlyTagged(SentTags(faults, dir, fs, i), t, Emitted(faults, dir, fs, i), true);
    }
  }

  lemma OnlyNone()
    ensures Only([], true) == []
  {
  }

  lemma {:induction false} OnlyCounts(ts: Tagged)
    ensures multiset(Only(ts, true)) + multiset(Only(ts, false)) == multiset(Untag(ts))
  {
    if ts == [] {
      assert Untag(ts) == [];
    } else {
      hide Only;
      var front, last := ts[..|ts| - 1], ts[|ts| - 1];
      OnlyCounts(front);
      assert ts == front + [last];
      OnlySnoc(front, last, true);
      OnlySnoc(front, last, false);
      assert Untag(ts) == Untag(front) + [last.1];
    }
  }

  lemma {:induction false} ReadAll(faults: seq<Fault>, dir: Direction, fs: seq<Frame>, n: nat)
    requires n <= |fs|
    ensures Untag(ReadTags(faults, dir, fs, n)) == fs[..n]
  {
    hide Struck;
    if n > 0 {
      ReadAll(faults, dir, fs, n - 1);
      assert fs[..n] == fs[..n - 1] + [fs[n - 1]];
      var front := ReadTags(faults, dir, fs, n - 1);
      assert Untag(ReadTags(faults, dir, fs, n)) == Untag(front) + [fs[n - 1]];
    }
  }

  lemma NeverCloses(faults: seq<Fault>, dir: Direction, fs: seq<Frame>)
    requires ReorderOnly(faults)
    ensures CloseAt(faults, dir, fs) == |fs|
  {
    hide Pick, CloseAt;
    CloseAtFirst(faults, dir, fs, 0);
    var c := CloseAt(faults, dir, fs);
    if c < |fs| { PickReorder(faults, dir, fs[c].kind, c + 1); }
  }

  /** With reorder faults only nothing is lost or made up: output and held frame are the input permuted. */
  lemma ReorderPermutes(faults: seq<Fault>, dir: Direction, fs: seq<Frame>)
    requires ReorderOnly(faults)
    ensures var st := Run(faults, dir, fs);
            multiset(st.out + Held(st.pending)) == multiset(fs)
  {
    hide *;
    var n := |fs|;
    NeverCloses(faults, dir, fs);
    OutputIs(faults, dir, fs);
    UnmatchedPass(faults, dir, fs, n);
    ReorderKeepsOrder(faults, dir, fs, n);
    var all, sent := ReadTags(faults, dir, fs, n), SentTags(faults, dir, fs, n);
    OnlyCounts(all);
    OnlyCounts(sent);
    ReadAll(faults, dir, fs, n);
    assert fs[..n] == fs;
    var st := Run(faults, dir, fs);
    assert multiset(Only(sent, true) + Held(st.pending)) == multiset(Only(sent, true)) + multiset(Held(st.pending));
  }
}
