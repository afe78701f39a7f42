/** The block-buffered SHA-256 of the firmware, proved to compute FIPS 180-4 for every split of the message. */
module Sha256Portable {
  import opened Bytes
  import opened Fips180

  function AsHash(s: seq<bv32>): Hash
    requires |s| == 8
  {
    Hash(s[0], s[1], s[2], s[3], s[4], s[5], s[6], s[7])
  }

  class Context {
    const state: array<bv32>
    const block: array<byte>
    var blockBytes: nat
    var totalBytes: u64
    /** Everything fed in since Begin. */
    ghost var message: seq<byte>

    ghost predicate Shaped() { state.Length == 8 && block.Length == 64 }

    /** The state has absorbed the whole blocks of the message, and the block holds the rest. */
    ghost predicate Buffered()
      reads this`blockBytes, this`message, state, block
      ensures Buffered() ==> Shaped() && blockBytes == |message| % 64
    {
      && Shaped()
      && blockBytes == |message| % 64
      && AsHash(state[..]) == HashBlocks(message, |message| / 64)
      && block[..blockBytes] == message[64 * (|message| / 64)..]
    }

    ghost predicate Valid()
      reads this, state, block
    {
      Buffered() && totalBytes == |message|
    }

    constructor ()
      ensures Shaped() && fresh(state) && fresh(block)
    {
      state := new bv32[8](_ => 0);
      block := new byte[64](_ => 0);
      blockBytes, totalBytes, message := 0, 0, [];
    }

    method Begin()
      requires Shaped()
      modifies this, state, block
      ensures Valid() && message == []
    {
      hide HashBlocks, Wide;
      forall i | 0 <= i < 8 { state[i] := Wide(INITIAL_WORDS[i]); }
      totalBytes, blockBytes := 0, 0;
      forall i | 0 <= i < 64 { block[i] := 0; }
      message := [];
      HashBlocksNone(message);
    }

    /** The 64-word schedule of the buffered block. */
    method ExpandBlock() returns (words: array<bv32>)
      requires Shaped()
      ensures fresh(words) && words.Length == 64
      ensures forall t :: 0 <= t < 64 ==> words[t] == W(block[..], t)
    {
      hide W, BlockWord, NextWordOf;
      words := new bv32[64](_ => 0);
      ghost var b := block[..];
      for index := 0 to 16
        invariant forall t :: 0 <= t < index ==> words[t] == W(b, t)
      {
        words[index] := ReadWord(index);
        FirstWord(b, index);
      }
      for index := 16 to 64
        invariant forall t :: 0 <= t < index ==> words[t] == W(b, t)
      {
        words[index] := NextWord(words[index - 16], words[index - 15], words[index - 7], words[index - 2]);
        LaterWord(b, index);
      }
    }

    method ReadWord(index: nat) returns (w: bv32)
      requires Shaped() && index < 16
      ensures w == BlockWord(block[..], index)
    {
      w := (Word(block[index * 4]) << 24) | (Word(block[index * 4 + 1]) << 16)
         | (Word(block[index * 4 + 2]) << 8) | Word(block[index * 4 + 3]);
    }

    method ProcessBlock()
      requires Shaped()
      modifies state
      ensures AsHash(state[..]) == Compress(old(AsHash(state[..])), block[..])
    {
      hide Round, W, BlockWord, Add, K;
      var words := ExpandBlock();
      ghost var start, input := AsHash(state[..]), block[..];
      var a, b, c, d := state[0], state[1], state[2], state[3];
      var e, f, g, h := state[4], state[5], state[6], state[7];
      for index := 0 to 64
        invariant Hash(a, b, c, d, e, f, g, h) == Rounds(start, input, index)
        invariant state[..] == old(state[..]) && block[..] == input
        invariant forall t :: 0 <= t < 64 ==> words[t] == W(input, t)
      {
        a, b, c, d, e, f, g, h := RoundStep(a, b, c, d, e, f, g, h, K(index), words[index]);
      }
      ghost var last := Hash(a, b, c, d, e, f, g, h);
      AddState(a, b, c, d, e, f, g, h);
      assert AsHash(state[..]) == Add(start, last);
    }

    method AddState(a: bv32, b: bv32, c: bv32, d: bv32, e: bv32, f: bv32, g: bv32, h: bv32)
      requires Shaped()
      modifies state
      ensures AsHash(state[..]) == Add(old(AsHash(state[..])), Hash(a, b, c, d, e, f, g, h))
    {
      hide Sum;
      state[0] := Sum(state[0], a);
      state[1] := Sum(state[1], b);
      state[2] := Sum(state[2], c);
      state[3] := Sum(state[3], d);
      state[4] := Sum(state[4], e);
      state[5] := Sum(state[5], f);
      state[6] := Sum(state[6], g);
      state[7] := Sum(state[7], h);
    }

    method Update(data: seq<byte>) returns (ok: bool)
      requires Valid()
      modifies this, state, block
      ensures ok <==> old(totalBytes) + |data| <= U64_MAX
      ensures Valid() && message == old(message) + (if ok then data else [])
    {
      hide HashBlocks, AsHash, Buffered;
      if U64_MAX - totalBytes < |data| { return false; }
      totalBytes := totalBytes + |data|;
      var consumed := 0;
      while consumed < |data|
        invariant consumed <= |data|
        invariant totalBytes == |old(message)| + |data|
        invariant message == old(message) + data[..consumed]
        invariant Buffered()
      {
        var available := 64 - blockBytes;
        var copy := if |data| - consumed < available then |data| - consumed else available;
        CopyIn(data[consumed..consumed + copy]);
        assert data[..consumed] + data[consumed..consumed + copy] == data[..consumed + copy];
        consumed := consumed + copy;
      }
      assert data[..consumed] == data;
      return true;
    }

    /** One turn of the copying loop: fill the block, and compress it when it is full. */
    method CopyIn(data: seq<byte>)
      requires Buffered() && 0 < |data| <= 64 - blockBytes
      modifies this`blockBytes, this`message, state, block
      ensures Buffered() && message == old(message) + data
    {
      hide HashBlocks, AsHash;
      ghost var n, was := |message| / 64, message;
      CopyBytes(data);
      Appended(was, data, n);
      message := message + data;
      HashBlocksPrefix(was, message, n);
      blockBytes := blockBytes + |data|;
      if blockBytes == 64 { CompressFull(n); }
    }

    method CopyBytes(data: seq<byte>)
      requires Shaped() && blockBytes + |data| <= 64
      modifies block
      ensures block[..blockBytes + |data|] == old(block[..blockBytes]) + data
    {
      forall k | blockBytes <= k < blockBytes + |data| { block[k] := data[k - blockBytes]; }
    }

    static lemma Appended(was: seq<byte>, data: seq<byte>, n: nat)
      requires n == |was| / 64 && |was| % 64 + |data| <= 64
      ensures var m := was + data;
        && m[..64 * n] == was[..64 * n] && m[64 * n..] == was[64 * n..] + data
        && (|was| % 64 + |data| < 64 ==> |m| / 64 == n && |m| % 64 == |was| % 64 + |data|)
        && (|was| % 64 + |data| == 64 ==> |m| == 64 * (n + 1) && m[64 * n..] == Block(m, n))
    {}

    /** The block holds block n of the message, which ends there. */
    method CompressFull(ghost n: nat)
      requires Shaped() && |message| == 64 * (n + 1) && block[..] == Block(message, n)
      requires AsHash(state[..]) == HashBlocks(message, n)
      modifies this`blockBytes, state
      ensures Buffered()
    {
      hide Compress, HashBlocks, AsHash;
      ProcessBlock();
      HashBlocksStep(message, n);
      blockBytes := 0;
      assert |message| / 64 == n + 1;
      assert message[64 * (n + 1)..] == [];
    }

    method Finish() returns (ok: bool, digest: seq<byte>)
      requires Valid()
      modifies this, state, block
      ensures Shaped()
      ensures ok <==> old(totalBytes) <= U64_MAX / 8
      ensures ok ==> digest == Sha256(old(message))
    {
      hide HashBlocks, AsHash, Digest, Compress, BigEndian64, Sha256;
      digest := [];
      if totalBytes > U64_MAX / 8 { return false, digest; }
      var bitLength := totalBytes * 8;
      ghost var n, summary := |message| / 64, AsHash(state[..]);
      ghost var tail, length := message[64 * n..] + [0x80], BigEndian64(bitLength);
      block[blockBytes] := 0x80;
      blockBytes := blockBytes + 1;
      assert block[..blockBytes] == tail;
      assert state[..] == old(state[..]);
      if blockBytes > 56 {
        Spill();
        PadTwoBlocks(message, n, tail, length);
      } else {
        PadOneBlock(message, n, tail, length);
      }
      LastBlock(bitLength);
      assert [] + Zeros(56) + length == Zeros(56) + length;
      digest := WriteDigest();
      return true, digest;
    }

    /** No room for the length: fill up with zeros and start another block. */
    method Spill()
      requires Shaped() && blockBytes <= 64
      modifies this`blockBytes, state, block
      ensures blockBytes == 0 && block[..0] == []
      ensures AsHash(state[..]) ==
        Compress(old(AsHash(state[..])), old(block[..blockBytes]) + Zeros(64 - old(blockBytes)))
    {
      hide Compress;
      ClearBlock(blockBytes, 64);
      assert state[..] == old(state[..]);
      assert block[..] == old(block[..blockBytes]) + Zeros(64 - blockBytes);
      ProcessBlock();
      blockBytes := 0;
    }

    /** Zeros up to byte 56, the length in bits, and the last compression. */
    method LastBlock(bitLength: u64)
      requires Shaped() && blockBytes <= 56
      modifies state, block
      ensures AsHash(state[..]) == Compress(
        old(AsHash(state[..])), old(block[..blockBytes]) + Zeros(56 - blockBytes) + BigEndian64(bitLength))
    {
      hide Compress, BigEndian64;
      ClearBlock(blockBytes, 56);
      assert block[..56] == old(block[..blockBytes]) + Zeros(56 - blockBytes);
      PutLength(bitLength);
      assert state[..] == old(state[..]);
      ProcessBlock();
    }

    method ClearBlock(lo: nat, hi: nat)
      requires Shaped() && lo <= hi <= 64
      modifies block
      ensures block[..] == old(block[..lo]) + Zeros(hi - lo) + old(block[hi..])
    {
      forall i | lo <= i < hi { block[i] := 0; }
    }

    method PutLength(bitLength: u64)
      requires Shaped()
      modifies block
      ensures block[..] == old(block[..56]) + BigEndian64(bitLength)
    {
      for index := 0 to 8
        invariant forall i :: 0 <= i < 56 ==> block[i] == old(block[i])
        invariant forall i :: 8 - index <= i < 8 ==> block[56 + i] == BigEndian64(bitLength)[i]
      {
        block[63 - index] := bitLength / Power256(index) % 0x100;
        assert BigEndian64(bitLength)[7 - index] == BigEndianByte(bitLength, 7 - index);
      }
      assert forall i :: 0 <= i < 8 ==> block[56..][i] == block[56 + i];
      assert block[56..] == BigEndian64(bitLength);
      assert block[..56] == old(block[..56]);
    }

    method WriteDigest() returns (digest: seq<byte>)
      requires Shaped()
      ensures digest == Digest(AsHash(state[..]))
    {
      hide WordBytes;
      digest := [];
      for index := 0 to 8
        invariant digest == JoinWords(state[..index])
      {
        digest := digest + WordBytes(state[index]);
        assert state[..index + 1][..index] == state[..index];
      }
      assert state[..8] == HashWords(AsHash(state[..]));
    }
  }

  /** Begin, any number of updates with any split of a message, then finish: the hash of the whole message. */
  method HashPieces(context: Context, pieces: seq<seq<byte>>) returns (ok: bool, digest: seq<byte>)
    requires context.Shaped()
    requires |Joined(pieces)| <= U64_MAX / 8
    modifies context, context.state, context.block
    ensures ok && digest == Sha256(Joined(pieces))
  {
    hide Sha256, context.Buffered, Joined;
    context.Begin();
    JoinedNone(pieces);
    for i := 0 to |pieces|
      invariant context.Valid() && context.message == Joined(pieces[..i])
    {
      JoinedPrefix(pieces, i + 1);
      JoinedNext(pieces, i);
      var accepted := context.Update(pieces[i]);
    }
    assert pieces[..|pieces|] == pieces;
    ok, digest := context.Finish();
  }

  function NextWordOf(w16: bv32, w15: bv32, w7: bv32, w2: bv32): bv32 {
    Sum4(SmallSigma1(w2), w7, SmallSigma0(w15), w16)
  }

  lemma SumLaws(p: bv32, q: bv32, r: bv32)
    ensures Sum(Sum(p, q), r) == Sum(p, Sum(q, r))
    ensures Sum(p, q) == Sum(q, p)
  {}

  lemma SumOrder(p: bv32, q: bv32, r: bv32, s: bv32)
    ensures Sum4(p, q, r, s) == Sum4(s, r, q, p)
  {
    hide Sum;
    SumLaws(Sum(p, q), r, s);
    SumLaws(p, q, r);
    SumLaws(r, s, s);
    SumLaws(Sum(s, r), q, p);
    SumLaws(Sum(p, q), Sum(r, s), p);
  }

  method NextWord(w16: bv32, w15: bv32, w7: bv32, w2: bv32) returns (w: bv32)
    ensures w == NextWordOf(w16, w15, w7, w2)
  {
    hide Sum, Sum4, Xor, Rotr, Shr;
    var sigma0 := Xor(Xor(Rotr(w15, 7), Rotr(w15, 18)), Shr(w15, 3));
    var sigma1 := Xor(Xor(Rotr(w2, 17), Rotr(w2, 19)), Shr(w2, 10));
    w := Sum4(w16, sigma0, w7, sigma1);
    SumOrder(w16, sigma0, w7, sigma1);
  }

  lemma {:induction false} FirstWord(b: seq<byte>, t: nat)
    requires |b| == 64 && t < 16
    ensures W(b, t) == BlockWord(b, t)
  {}

  lemma LaterWord(b: seq<byte>, t: nat)
    requires |b| == 64 && 16 <= t
    ensures W(b, t) == NextWordOf(W(b, t - 16), W(b, t - 15), W(b, t - 7), W(b, t - 2))
  {
    hide SmallSigma0, SmallSigma1, BlockWord, Sum4;
  }

  method RoundStep(a0: bv32, b0: bv32, c0: bv32, d0: bv32, e0: bv32, f0: bv32, g0: bv32, h0: bv32, k: bv32, w: bv32)
    returns (a: bv32, b: bv32, c: bv32, d: bv32, e: bv32, f: bv32, g: bv32, h: bv32)
    ensures Hash(a, b, c, d, e, f, g, h) == Round(Hash(a0, b0, c0, d0, e0, f0, g0, h0), k, w)
  {
    hide Sum, Xor, And, Not, Rotr;
    a, b, c, d, e, f, g, h := a0, b0, c0, d0, e0, f0, g0, h0;
    var sum1 := Xor(Xor(Rotr(e, 6), Rotr(e, 11)), Rotr(e, 25));
    var choose := Xor(And(e, f), And(Not(e), g));
    var temporary1 := Sum(Sum(Sum(Sum(h, sum1), choose), k), w);
    var sum0 := Xor(Xor(Rotr(a, 2), Rotr(a, 13)), Rotr(a, 22));
    var majority := Xor(Xor(And(a, b), And(a, c)), And(b, c));
    var temporary2 := Sum(sum0, majority);
    h := g;
    g := f;
    f := e;
    e := Sum(d, temporary1);
    d := c;
    c := b;
    b := a;
    a := Sum(temporary1, temporary2);
  }
}
