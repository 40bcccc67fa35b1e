/** What single faults do to traffic, told over their own fields (src/transport.cpp, lines 145-216). */
module FaultEffects {
  import opened Bytes
  import opened Text
  import opened Frames
  import opened Proxy
  import SplitMix

  // ----- which frames are struck -----

  /** The fault list is in order of precedence: a frame is struck by the first fault of its direction that
      asks for any type or the frame's, and for any place or the frame's, counting from one. */
  lemma {:induction false} FirstThatAsks(faults: seq<Fault>, dir: Direction, kind: nat, number: nat, k: nat)
    requires k <= |faults|
    requires forall h :: 0 <= h < k ==>
               || faults[h].direction != dir
               || (faults[h].messageType != 0 && faults[h].messageType != kind)
               || (faults[h].atSequence != 0 && faults[h].atSequence != number)
    ensures k == |faults| ==> Pick(faults, dir, kind, number) == None
    ensures k < |faults| && faults[k].direction == dir
            && (faults[k].messageType == 0 || faults[k].messageType == kind)
            && (faults[k].atSequence == 0 || faults[k].atSequence == number)
            ==> Pick(faults, dir, kind, number) == Some(faults[k])
  {
    if k > 0 { FirstThatAsks(faults[1..], dir, kind, number, k - 1); }
  }

  /** A frame passes untouched exactly when every fault asks for another direction, type or place. */
  lemma {:induction false} UntouchedExactly(faults: seq<Fault>, dir: Direction, fs: seq<Frame>, i: nat)
    requires i < |fs|
    ensures Struck(faults, dir, fs, i) == None <==>
            forall h :: 0 <= h < |faults| ==>
              || faults[h].direction != dir
              || (faults[h].messageType != 0 && faults[h].messageType != fs[i].kind)
              || (faults[h].atSequence != 0 && faults[h].atSequence != i + 1)
  {
    var k := FirstAsking(faults, dir, fs[i].kind, i + 1);
    FirstThatAsks(faults, dir, fs[i].kind, i + 1, k);
  }

  lemma {:induction false} FirstAsking(faults: seq<Fault>, dir: Direction, kind: nat, number: nat) returns (k: nat)
    ensures k <= |faults|
    ensures forall h :: 0 <= h < k ==>
              || faults[h].direction != dir
              || (faults[h].messageType != 0 && faults[h].messageType != kind)
              || (faults[h].atSequence != 0 && faults[h].atSequence != number)
    ensures k < |faults| ==>
              && faults[k].direction == dir
              && (faults[k].messageType == 0 || faults[k].messageType == kind)
              && (faults[k].atSequence == 0 || faults[k].atSequence == number)
  {
    k := 0;
    while k < |faults| && (faults[k].direction != dir
                           || (faults[k].messageType != 0 && faults[k].messageType != kind)
                           || (faults[k].atSequence != 0 && faults[k].atSequence != number))
      invariant 0 <= k <= |faults|
      invariant forall h :: 0 <= h < k ==>
                  || faults[h].direction != dir
                  || (faults[h].messageType != 0 && faults[h].messageType != kind)
                  || (faults[h].atSequence != 0 && faults[h].atSequence != number)
    {
      k := k + 1;
    }
  }

  // ----- one fault for one frame -----

  /** A single fault of this direction for frame number `n`, of whatever type. */
  predicate ForFrame(t: Fault, dir: Direction, n: nat) {
    t.direction == dir && t.messageType == 0 && t.atSequence == n && n > 0
  }

  lemma StruckOnly(t: Fault, dir: Direction, fs: seq<Frame>, i: nat)
    requires i < |fs| && t.atSequence > 0 && ForFrame(t, dir, t.atSequence)
    ensures Struck([t], dir, fs, i) == if i + 1 == t.atSequence then Some(t) else None
  {
    FirstThatAsks([t], dir, fs[i].kind, i + 1, if i + 1 == t.atSequence then 0 else 1);
  }

  /** The frames before pass, then what the struck frame becomes, then the frames after. */
  lemma {:induction false} AroundOne(t: Fault, dir: Direction, fs: seq<Frame>, n: nat, m: nat)
    requires ForFrame(t, dir, n) && n <= |fs| && m <= |fs|
    ensures m < n ==> EmittedUpTo([t], dir, fs, m) == fs[..m] && LastHeld([t], dir, fs, m) == None
    ensures m >= n ==>
              && EmittedUpTo([t], dir, fs, m) == fs[..n - 1] + Sends(fs[n - 1], Some(t), None) + fs[n..m]
              && LastHeld([t], dir, fs, m) == if t.kind == REORDER then Some(fs[n - 1]) else None
  {
    hide Struck, Truncated, Corrupted;
    if m > 0 {
      AroundOne(t, dir, fs, n, m - 1);
      StruckOnly(t, dir, fs, m - 1);
      if m == n {
        assert fs[n..n] == [];
      } else if m > n {
        assert fs[n..m] == fs[n..m - 1] + [fs[m - 1]];
      }
    }
  }

  lemma OneRun(t: Fault, dir: Direction, fs: seq<Frame>, n: nat)
    requires ForFrame(t, dir, n) && n <= |fs|
    ensures var st := Run([t], dir, fs);
            if t.kind == HALF_CLOSE || t.kind == CLOSE then
              st.closed && st.out == fs[..n - 1] && st.pending == None && st.read == n
            else
              && !st.closed && st.read == |fs|
              && st.out == fs[..n - 1] + Sends(fs[n - 1], Some(t), None) + fs[n..]
              && st.pending == if t.kind == REORDER then Some(fs[n - 1]) else None
  {
    hide Run, EmittedUpTo, LastHeld, Struck, Sends, Truncated, Corrupted;
    OutputIs([t], dir, fs);
    forall i | 0 <= i < |fs| ensures Struck([t], dir, fs, i) == if i + 1 == n then Some(t) else None {
      StruckOnly(t, dir, fs, i);
    }
    var c := CloseAt([t], dir, fs);
    CloseAtFirst([t], dir, fs, 0);
    AroundOne(t, dir, fs, n, c);
    if t.kind == HALF_CLOSE || t.kind == CLOSE {
      assert IsClose(Struck([t], dir, fs, n - 1));
      assert c == n - 1;
    } else {
      assert c == |fs|;
      assert fs[n..|fs|] == fs[n..];
    }
  }

  /** What comes out when one fault of each kind strikes frame `n`: the traffic without it, with it twice,
      cut to the length asked for, with one byte changed, without it but held, unchanged, or only what
      came before. */
  lemma OneFault(t: Fault, dir: Direction, fs: seq<Frame>, n: nat)
    requires t.direction == dir && t.messageType == 0 && t.atSequence == n && 1 <= n <= |fs|
    ensures var st := Run([t], dir, fs);
            var before, f, after := fs[..n - 1], fs[n - 1], fs[n..];
            match t.kind
            case DROP => st.out == before + after && st.pending == None && !st.closed
            case DUPLICATE => st.out == before + [f, f] + after && st.pending == None && !st.closed
            case TRUNCATE =>
              var keep := if t.offset < 0 || t.offset > 12 + |f.payload| then |f.payload|
                          else if t.offset < 12 then 0 else t.offset - 12;
              st.out == before + [Frame(f.kind, f.payload[..keep])] + after && st.pending == None && !st.closed
            case CORRUPT =>
              && st.pending == None && !st.closed && |st.out| == |fs|
              && st.out[..n - 1] == before && st.out[n..] == after && st.out[n - 1].kind == f.kind
              && (Fits(f) ==>
                    (st.out[n - 1].payload ==
                     if 12 <= t.offset < 12 + |f.payload| && 12 + |f.payload| < 0x8000_0000
                     then f.payload[t.offset - 12 := Flip(f.payload[t.offset - 12])] else f.payload))
            case REORDER => st.out == before + after && st.pending == Some(f) && !st.closed
            case DELAY => st.out == fs && st.pending == None && !st.closed
            case HALF_CLOSE | CLOSE => st.out == before && st.pending == None && st.closed
  {
    hide Run, Flip;
    OneRun(t, dir, fs, n);
    var before, f, after := fs[..n - 1], fs[n - 1], fs[n..];
    assert fs == before + [f] + after;
    if t.kind == DROP || t.kind == REORDER { assert before + [] + after == before + after; }
    if t.kind == CORRUPT {
      if Fits(f) { CorruptsWhen(f, t.offset); }
      var out := before + [Corrupted(f, t.offset)] + after;
      assert out[..n - 1] == before && out[n..] == after && out[n - 1] == Corrupted(f, t.offset);
    }
  }

  /** The counters of that run: one fault applied, one of its kind, everything sent counted. */
  lemma OneFaultCounts(t: Fault, dir: Direction, fs: seq<Frame>, n: nat)
    requires t.direction == dir && t.messageType == 0 && t.atSequence == n && 1 <= n <= |fs|
    ensures var s := Run([t], dir, fs).stats;
            && s.applied == 1
            && s.dropped == Bit(t.kind == DROP) && s.duplicated == Bit(t.kind == DUPLICATE)
            && s.truncated == Bit(t.kind == TRUNCATE) && s.corrupted == Bit(t.kind == CORRUPT)
            && s.reordered == Bit(t.kind == REORDER) && s.delayed == Bit(t.kind == DELAY)
            && s.forwarded == |Run([t], dir, fs).out|
  {
    hide Run, Struck, Hits, Sends;
    RunConserves([t], dir, fs);
    OneRun(t, dir, fs, n);
    OneCount(t, dir, fs, n, DROP);
    OneCount(t, dir, fs, n, DUPLICATE);
    OneCount(t, dir, fs, n, TRUNCATE);
    OneCount(t, dir, fs, n, CORRUPT);
    OneCount(t, dir, fs, n, REORDER);
    OneCount(t, dir, fs, n, DELAY);
  }

  lemma OneCount(t: Fault, dir: Direction, fs: seq<Frame>, n: nat, k: FaultKind)
    requires ForFrame(t, dir, n) && n <= |fs| && k != HALF_CLOSE && k != CLOSE
    ensures Counter(Run([t], dir, fs).stats, k) == Bit(t.kind == k)
  {
    hide Run, Struck, Hits;
    var c := if t.kind == HALF_CLOSE || t.kind == CLOSE then n - 1 else |fs|;
    forall i | 0 <= i < |fs| ensures Struck([t], dir, fs, i) == if i + 1 == n then Some(t) else None {
      StruckOnly(t, dir, fs, i);
    }
    CountersCount([t], dir, fs, c, k);
    OneHit(t, dir, fs, n, c, k);
    assert fs[..|fs|] == fs;
    if c < |fs| && (t.kind == HALF_CLOSE || t.kind == CLOSE) { ClosingCounts(t, dir, fs, n, k); }
  }

  lemma {:induction false} OneHit(t: Fault, dir: Direction, fs: seq<Frame>, n: nat, c: nat, k: FaultKind)
    requires ForFrame(t, dir, n) && n <= |fs| && c <= |fs|
    ensures Hits([t], dir, fs, c, k) == Bit(n <= c && t.kind == k)
  {
    hide Struck;
    if c > 0 {
      OneHit(t, dir, fs, n, c - 1, k);
      StruckOnly(t, dir, fs, c - 1);
    }
  }

  lemma ClosingCounts(t: Fault, dir: Direction, fs: seq<Frame>, n: nat, k: FaultKind)
    requires ForFrame(t, dir, n) && n <= |fs| && (t.kind == HALF_CLOSE || t.kind == CLOSE)
    ensures Counter(Run([t], dir, fs).stats, k) == Counter(Run([t], dir, fs[..n - 1]).stats, k)
  {
    hide Run, Struck, LastHeld, EmittedUpTo;
    StruckOnly(t, dir, fs, n - 1);
    forall i | 0 <= i < n - 1 ensures !IsClose(Struck([t], dir, fs, i)) { StruckOnly(t, dir, fs, i); }
    RunOpen([t], dir, fs, n - 1);
    assert fs[..n] == fs[..n - 1] + [fs[n - 1]];
    RunSnoc([t], dir, fs[..n - 1], fs[n - 1]);
    RunClosed([t], dir, fs, n, |fs|);
    assert fs[..|fs|] == fs;
    assert Pick([t], dir, fs[n - 1].kind, n) == Some(t) by { StruckIs(t, dir, fs, n); }
  }

  lemma StruckIs(t: Fault, dir: Direction, fs: seq<Frame>, n: nat)
    requires 0 < n <= |fs|
    ensures Struck([t], dir, fs, n - 1) == Pick([t], dir, fs[n - 1].kind, n)
  {
  }

  // ----- one fault for many frames -----

  /** The frames among the first `n` that a fault does not ask for. */
  function Others(t: Fault, dir: Direction, fs: seq<Frame>, n: nat): seq<Frame>
    requires n <= |fs|
  {
    if n == 0 then []
    else
      Others(t, dir, fs, n - 1)
      + if t.direction != dir || (t.messageType != 0 && t.messageType != fs[n - 1].kind)
           || (t.atSequence != 0 && t.atSequence != n)
        then [fs[n - 1]] else []
  }

  lemma {:induction false} DropsUpTo(t: Fault, dir: Direction, fs: seq<Frame>, n: nat)
    requires t.kind == DROP && n <= |fs|
    ensures EmittedUpTo([t], dir, fs, n) == Others(t, dir, fs, n) && OpenUpTo([t], dir, fs, n)
  {
    hide Pick;
    if n > 0 {
      DropsUpTo(t, dir, fs, n - 1);
      var k := FirstAsking([t], dir, fs[n - 1].kind, n);
      FirstThatAsks([t], dir, fs[n - 1].kind, n, k);
      assert Struck([t], dir, fs, n - 1) == if k == 0 then Some(t) else None;
      assert Emitted([t], dir, fs, n - 1) == if k == 0 then [] else [fs[n - 1]];
      assert [t][0] == t && (k == 0 || k == 1);
      assert Others(t, dir, fs, n) == Others(t, dir, fs, n - 1) + if k == 0 then [] else [fs[n - 1]];
    }
  }

  /** A drop fault removes exactly the frames it asks for, by direction, type and place. */
  lemma DropsExactly(t: Fault, dir: Direction, fs: seq<Frame>)
    requires t.kind == DROP
    ensures Run([t], dir, fs).out == Others(t, dir, fs, |fs|)
  {
    hide Run, EmittedUpTo, LastHeld, Struck, Others;
    DropsUpTo(t, dir, fs, |fs|);
    CloseAtFirst([t], dir, fs, 0);
    OutputIs([t], dir, fs);
  }

  // ----- the corrupted byte -----

  function BitAt(x: nat, k: nat): nat { if k == 0 then x % 2 else BitAt(x / 2, k - 1) }

  lemma {:induction false} XorBitAt(a: nat, b: nat, k: nat)
    ensures BitAt(SplitMix.Xor(a, b), k) == (BitAt(a, k) + BitAt(b, k)) % 2
  {
    hide SplitMix.Xor;
    SplitMix.XorBits(a, b);
    if k > 0 { XorBitAt(a / 2, b / 2, k - 1); }
  }

  lemma {:induction false} BitRange(x: nat, k: nat)
    ensures BitAt(x, k) < 2
  {
    if k > 0 { BitRange(x / 2, k - 1); }
  }

  lemma MaskBits(k: nat)
    requires k < 8
    ensures BitAt(0xa5, k) == 1 <==> k == 0 || k == 2 || k == 5 || k == 7
  {
    assert BitAt(0xa5, 0) == 1 && BitAt(0xa5, 1) == 0 && BitAt(0xa5, 2) == 1 && BitAt(0xa5, 3) == 0;
    assert BitAt(0xa5, 4) == 0 && BitAt(0xa5, 5) == 1 && BitAt(0xa5, 6) == 0 && BitAt(0xa5, 7) == 1;
  }

  /** Corruption turns over bits 0, 2, 5 and 7 of the byte and no other. */
  lemma FlippedBits(b: Byte, k: nat)
    requires k < 8
    ensures BitAt(Flip(b) as nat, k) != BitAt(b as nat, k) <==> k == 0 || k == 2 || k == 5 || k == 7
  {
    hide SplitMix.Xor, BitAt;
    XorBitAt(b as nat, 0xa5, k);
    BitRange(b as nat, k);
    BitRange(0xa5, k);
    MaskBits(k);
  }
}
