/** The streaming hasher of src/digest.cpp. */
module Sha256 {
  import opened Words
  import opened Bytes
  import opened Fips180

  // The source rotates with two shifts; the standard's rotation is the same word.

  lemma SmallSigma0Shifts(x: Word)
    ensures ((x >> 7) | (x << 25)) ^ ((x >> 18) | (x << 14)) ^ (x >> 3) == SmallSigma0(x)
  {
    assert (x >> 7) | (x << 25) == x.RotateRight(7);
    assert (x >> 18) | (x << 14) == x.RotateRight(18);
  }

  lemma SmallSigma1Shifts(x: Word)
    ensures ((x >> 17) | (x << 15)) ^ ((x >> 19) | (x << 13)) ^ (x >> 10) == SmallSigma1(x)
  {
    assert (x >> 17) | (x << 15) == x.RotateRight(17);
    assert (x >> 19) | (x << 13) == x.RotateRight(19);
  }

  lemma BigSigma0Shifts(x: Word)
    ensures ((x >> 2) | (x << 30)) ^ ((x >> 13) | (x << 19)) ^ ((x >> 22) | (x << 10)) == BigSigma0(x)
  {
    assert (x >> 2) | (x << 30) == x.RotateRight(2);
    assert (x >> 13) | (x << 19) == x.RotateRight(13);
    assert (x >> 22) | (x << 10) == x.RotateRight(22);
  }

  lemma BigSigma1Shifts(x: Word)
    ensures ((x >> 6) | (x << 26)) ^ ((x >> 11) | (x << 21)) ^ ((x >> 25) | (x << 7)) == BigSigma1(x)
  {
    assert (x >> 6) | (x << 26) == x.RotateRight(6);
    assert (x >> 11) | (x << 21) == x.RotateRight(11);
    assert (x >> 25) | (x << 7) == x.RotateRight(25);
  }

  lemma SumReorder(a: Word, b: Word, c: Word, d: Word)
    ensures Sum4(a, b, c, d) == Sum4(d, c, b, a)
  {
  }

  ghost function HashOf(s: seq<Word>): Hash
    requires |s| == 8
  {
    Hash(s[0], s[1], s[2], s[3], s[4], s[5], s[6], s[7])
  }

  lemma HashBlocksSnoc(m: seq<Byte>, block: seq<Byte>)
    requires |m| % 64 == 0 && |block| == 64
    ensures HashBlocks(m + block) == Compress(HashBlocks(m), block)
  {
    var s := m + block;
    assert s[..|s| - 64] == m && s[|s| - 64..] == block;
  }

  class Hasher {
    const state: array<Word>
    const buffer: array<Byte>
    var buffered: nat
    var total: nat
    /** The bytes hashed so far, a whole number of blocks. */
    ghost var hashed: seq<Byte>

    /** Every byte given to `Update` since the last `Reset`. */
    ghost function Consumed(): seq<Byte>
      requires buffered <= buffer.Length
      reads this, buffer
    {
      hashed + buffer[..buffered]
    }

    ghost predicate Streaming()
      reads this, state, buffer
    {
      && state.Length == 8 && buffer.Length == 64
      && buffered < 64
      && |hashed| % 64 == 0
      && HashOf(state[..]) == HashBlocks(hashed)
    }

    ghost predicate Valid()
      reads this, state, buffer
    {
      Streaming() && total == |Consumed()| % U64
    }

    constructor ()
      ensures Valid() && Consumed() == [] && fresh(state) && fresh(buffer)
    {
      state := new Word[8];
      buffer := new Byte[64];
      new;
      Reset();
    }

    method Reset()
      requires state.Length == 8 && buffer.Length == 64
      modifies this, state
      ensures Valid() && Consumed() == []
    {
      state[0], state[1], state[2], state[3] := 0x6a09e667, 0xbb67ae85, 0x3c6ef372, 0xa54ff53a;
      state[4], state[5], state[6], state[7] := 0x510e527f, 0x9b05688c, 0x1f83d9ab, 0x5be0cd19;
      total, buffered, hashed := 0, 0, [];
    }

    /** Expands the schedule, runs the sixty-four rounds and adds into the state. */
    method ProcessBlock()
      requires state.Length == 8 && buffer.Length == 64
      modifies state
      ensures HashOf(state[..]) == Compress(old(HashOf(state[..])), buffer[..])
    {
      hide Rounds, Schedule, Add;
      var w := ExpandSchedule();
      var v := RunRounds(w);
      AddIntoState(v);
    }

    method AddIntoState(v: Hash)
      requires state.Length == 8
      modifies state
      ensures HashOf(state[..]) == Add(old(HashOf(state[..])), v)
    {
      state[0], state[1], state[2], state[3] :=
        Plus(state[0], v.a), Plus(state[1], v.b), Plus(state[2], v.c), Plus(state[3], v.d);
      state[4], state[5], state[6], state[7] :=
        Plus(state[4], v.e), Plus(state[5], v.f), Plus(state[6], v.g), Plus(state[7], v.h);
    }

    method RunRounds(w: array<Word>) returns (v: Hash)
      requires state.Length == 8 && buffer.Length == 64 && w.Length == 64
      requires forall i :: 0 <= i < 64 ==> w[i] == Schedule(buffer[..], i)
      ensures v == Rounds(HashOf(state[..]), buffer[..], |K|)
    {
      var a, b, c, d := state[0], state[1], state[2], state[3];
      var e, f, g, h := state[4], state[5], state[6], state[7];
      ghost var start := Hash(a, b, c, d, e, f, g, h);
      for i := 0 to |K|
        invariant Hash(a, b, c, d, e, f, g, h) == Rounds(start, buffer[..], i)
      {
        var s1 := ((e >> 6) | (e << 26)) ^ ((e >> 11) | (e << 21)) ^ ((e >> 25) | (e << 7));
        BigSigma1Shifts(e);
        var ch := Ch(e, f, g);
        var temp1 := Sum5(h, s1, ch, K[i], w[i]);
        var s0 := ((a >> 2) | (a << 30)) ^ ((a >> 13) | (a << 19)) ^ ((a >> 22) | (a << 10));
        BigSigma0Shifts(a);
        var maj := Maj(a, b, c);
        var temp2 := Plus(s0, maj);
        h := g; g := f; f := e; e := Plus(d, temp1);
        d := c; c := b; b := a; a := Plus(temp1, temp2);
      }
      v := Hash(a, b, c, d, e, f, g, h);
    }

    method ExpandSchedule() returns (w: array<Word>)
      requires buffer.Length == 64
      ensures fresh(w) && w.Length == 64
      ensures forall i :: 0 <= i < 64 ==> w[i] == Schedule(buffer[..], i)
    {
      hide BigEndianWord, Sum4, SmallSigma0, SmallSigma1;
      w := new Word[64];
      ghost var block := buffer[..];
      for i := 0 to 16
        invariant forall j :: 0 <= j < i ==> w[j] == Schedule(block, j)
      {
        w[i] := BigEndianWord(buffer[i * 4], buffer[i * 4 + 1], buffer[i * 4 + 2], buffer[i * 4 + 3]);
      }
      for i := 16 to 64
        invariant forall j :: 0 <= j < i ==> w[j] == Schedule(block, j)
      {
        var x := NextWord(w[i - 2], w[i - 7], w[i - 15], w[i - 16]);
        w[i] := x;
      }
    }

    method NextWord(w2: Word, w7: Word, w15: Word, w16: Word) returns (w: Word)
      ensures w == Sum4(SmallSigma1(w2), w7, SmallSigma0(w15), w16)
    {
      var s0 := ((w15 >> 7) | (w15 << 25)) ^ ((w15 >> 18) | (w15 << 14)) ^ (w15 >> 3);
      var s1 := ((w2 >> 17) | (w2 << 15)) ^ ((w2 >> 19) | (w2 << 13)) ^ (w2 >> 10);
      SmallSigma0Shifts(w15);
      SmallSigma1Shifts(w2);
      SumReorder(w16, s0, w7, s1);
      w := Sum4(w16, s0, w7, s1);
    }

    /** Takes as much as the buffer holds, hashing a block whenever it is full. */
    method Update(data: seq<Byte>)
      requires Valid()
      modifies this, state, buffer
      ensures Valid() && Consumed() == old(Consumed()) + data
    {
      hide HashBlocks;
      WrapSum(|Consumed()|, |data|);
      total := (total + |data|) % U64;
      Feed(data);
    }

    method Feed(data: seq<Byte>)
      requires Streaming()
      modifies this`buffered, this`hashed, state, buffer
      ensures Streaming() && Consumed() == old(Consumed()) + data
    {
      hide HashBlocks, HashOf;
      ghost var goal := Consumed() + data;
      var rest := data;
      while |rest| > 0
        invariant Streaming() && Consumed() + rest == goal
      {
        var take := 64 - buffered;
        if take > |rest| { take := |rest|; }
        assert rest == rest[..take] + rest[take..];
        Absorb(rest[..take]);
        rest := rest[take..];
      }
    }

    /** The body of the update loop: one copy into the buffer and perhaps one block. */
    method Absorb(piece: seq<Byte>)
      requires Streaming() && 0 < |piece| <= 64 - buffered
      modifies this`buffered, this`hashed, state, buffer
      ensures Streaming() && Consumed() == old(Consumed()) + piece
    {
      hide HashBlocks;
      Copy(piece);
      buffered := buffered + |piece|;
      if buffered == 64 { Flush(); }
    }

    method Flush()
      requires state.Length == 8 && buffer.Length == 64 && buffered == 64
      requires |hashed| % 64 == 0 && HashOf(state[..]) == HashBlocks(hashed)
      modifies this`buffered, this`hashed, state
      ensures Streaming() && Consumed() == old(Consumed())
    {
      hide HashBlocks, Compress;
      ghost var block := buffer[..];
      HashBlocksSnoc(hashed, block);
      ProcessBlock();
      hashed := hashed + block;
      buffered := 0;
      assert buffer[..] == block && buffer[..64] == block;
    }

    method Copy(piece: seq<Byte>)
      requires buffer.Length == 64 && buffered + |piece| <= 64
      modifies buffer
      ensures buffer[..buffered + |piece|] == old(buffer[..buffered]) + piece
    {
      for i := 0 to |piece|
        invariant buffer[..buffered] == old(buffer[..buffered])
        invariant buffer[buffered..buffered + i] == piece[..i]
      {
        buffer[buffered + i] := piece[i];
      }
    }

    /** Pads through `Update` itself, one byte at a time, then appends the saved bit count. */
    method Finish() returns (digest: seq<Byte>)
      requires Valid()
      modifies this, state, buffer
      ensures digest == Sha256(old(Consumed()))
      ensures Valid() && Consumed() == Pad(old(Consumed()))
    {
      ghost var m := Consumed();
      var bitLen := total * 8 % U64;
      BitCount(|m|);
      PadToLength();
      var lenBe := LengthBytes(bitLen);
      Update(lenBe);
      assert Consumed() == Pad(m);
      PadWhole(m);
      BlocksBuffered();
      digest := StateBytes();
    }

    lemma BlocksBuffered()
      requires Streaming() && |Consumed()| % 64 == 0
      ensures buffered == 0 && hashed == Consumed()
    {
    }

    method PadToLength()
      requires Valid()
      modifies this, state, buffer
      ensures Valid()
      ensures Consumed() == old(Consumed()) + [0x80] + Zeros(ZeroBytes(|old(Consumed())|))
    {
      hide HashBlocks;
      ghost var m := Consumed();
      Update([0x80]);
      ghost var zeros := 0;
      assert m + [0x80] == m + [0x80] + Zeros(0);
      while buffered != 56
        invariant Valid() && zeros <= ZeroBytes(|m|)
        invariant Consumed() == m + [0x80] + Zeros(zeros)
        decreases ZeroBytes(|m|) - zeros
      {
        BufferedIs();
        ZerosLeft(|m|, zeros);
        Update([0]);
        OneMoreZero(m, zeros);
        zeros := zeros + 1;
      }
      BufferedIs();
      ZerosEnough(|m|, zeros);
    }

    static lemma OneMoreZero(m: seq<Byte>, n: nat)
      ensures m + [0x80] + Zeros(n) + [0] == m + [0x80] + Zeros(n + 1)
    {
    }

    lemma BufferedIs()
      requires Streaming()
      ensures buffered == |Consumed()| % 64
    {
    }

    method LengthBytes(bitLen: nat) returns (out: seq<Byte>)
      ensures out == BigEndian(bitLen, 8)
    {
      out := [];
      var v := bitLen;
      for i := 0 to 8
        invariant BigEndian(v, 8 - i) + out == BigEndian(bitLen, 8)
      {
        out := [(v % 256) as Byte] + out;
        v := v / 256;
      }
    }

    method StateBytes() returns (out: seq<Byte>)
      requires state.Length == 8
      ensures out == HashBytes(HashOf(state[..]))
    {
      out := [];
      for i := 0 to 8
        invariant out == WordsBytes(state[..i])
      {
        assert state[..i + 1][..i] == state[..i];
        out := out + WordBytes(state[i]);
      }
      assert state[..8] == [state[0], state[1], state[2], state[3], state[4], state[5], state[6], state[7]];
    }
  }

  lemma BitCount(len: nat)
    ensures len % U64 * 8 % U64 == 8 * len % U64
  {
    var q := len / U64;
    assert 8 * len == len % U64 * 8 + 8 * q * U64;
    WrapMultiple(len % U64 * 8, 8 * q);
  }

  lemma ZerosLeft(len: nat, zeros: nat)
    requires zeros <= ZeroBytes(len) && (len + 1 + zeros) % 64 != 56
    ensures zeros < ZeroBytes(len)
  {
  }

  lemma ZerosEnough(len: nat, zeros: nat)
    requires zeros <= ZeroBytes(len) && (len + 1 + zeros) % 64 == 56
    ensures zeros == ZeroBytes(len)
  {
  }
}
