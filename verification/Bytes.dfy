/** Bytes, the fixed-width unsigned integers of the C sources, and little-endian fields. */
module Bytes {
  type byte = n: nat | n < 0x100
  type u16 = n: nat | n < 0x1_0000
  type u32 = n: nat | n < 0x1_0000_0000
  type u64 = n: nat | n < 0x1_0000_0000_0000_0000

  const U32_MAX: nat := 0xffff_ffff
  const U64_MAX: nat := 0xffff_ffff_ffff_ffff

  // ---- Bit patterns ---------------------------------------------------------

  function Val(b: bv8): (n: byte) { b as nat }

  function Bits(n: byte): bv8 { n as bv8 }

  lemma BitsVal(b: bv8)
    ensures Bits(Val(b)) == b
  {}

  lemma ValSuccessor(b: bv8)
    requires b < 0xff
    ensures Val(b + 1) as nat == Val(b) as nat + 1
  {}

  /** Every byte is the value of some bit pattern. */
  lemma {:induction false} PatternOf(n: byte) returns (b: bv8)
    ensures Val(b) == n
  {
    if n == 0 {
      b := 0;
    } else {
      b := PatternOf(n as nat - 1);
      BitsVal(b);
      ValSuccessor(b);
      b := b + 1;
    }
  }

  lemma ValBits(n: byte)
    ensures Val(Bits(n)) == n
  {
    hide Bits, Val;
    var b := PatternOf(n);
    BitsVal(b);
  }

  lemma BitsInjective(a: byte, b: byte)
    requires Bits(a) == Bits(b)
    ensures a == b
  {
    hide Bits, Val;
    ValBits(a);
    ValBits(b);
  }

  predicate AllZero(s: seq<byte>) { forall i :: 0 <= i < |s| ==> s[i] == 0 }

  function Zeros(n: nat): (s: seq<byte>)
    ensures |s| == n && AllZero(s)
  {
    seq(n, _ => 0)
  }

  lemma ZerosUnique(s: seq<byte>)
    requires AllZero(s)
    ensures s == Zeros(|s|)
  {}

  lemma Subslice<T>(s: seq<T>, lo: nat, hi: nat, from: nat, to: nat)
    requires lo <= hi <= |s| && from <= to <= hi - lo
    ensures s[lo..hi][from..to] == s[lo + from..lo + to]
  {
    var outer := s[lo..hi];
    forall k | 0 <= k < to - from ensures outer[from..to][k] == s[lo + from..lo + to][k] {
      assert outer[from + k] == s[lo + from + k];
    }
  }

  /** The concatenation of the pieces a message arrived in. */
  function Joined(pieces: seq<seq<byte>>): seq<byte> {
    if pieces == [] then [] else Joined(pieces[..|pieces| - 1]) + pieces[|pieces| - 1]
  }

  lemma {:induction false} JoinedPrefix(pieces: seq<seq<byte>>, n: nat)
    requires n <= |pieces|
    ensures Joined(pieces[..n]) <= Joined(pieces)
    decreases |pieces| - n
  {
    if n < |pieces| {
      JoinedPrefix(pieces, n + 1);
      assert pieces[..n + 1][..n] == pieces[..n];
    } else {
      assert pieces[..n] == pieces;
    }
  }

  lemma {:induction false} JoinedNext(pieces: seq<seq<byte>>, n: nat)
    requires n < |pieces|
    ensures Joined(pieces[..n + 1]) == Joined(pieces[..n]) + pieces[n]
    ensures |Joined(pieces[..n])| + |pieces[n]| <= |Joined(pieces)|
    ensures pieces[n] in pieces
  {
    assert pieces[..n + 1][..n] == pieces[..n];
    JoinedPrefix(pieces, n + 1);
  }

  lemma {:induction false} JoinedNone(pieces: seq<seq<byte>>)
    ensures Joined(pieces[..0]) == []
  {}

  // ---- Little-endian fields -------------------------------------------------

  function WriteU16(n: u16): (s: seq<byte>)
    ensures |s| == 2
  {
    [n % 0x100, n / 0x100]
  }

  function ReadU16(s: seq<byte>): (n: u16)
    requires |s| == 2
  {
    s[0] as nat + 0x100 * s[1] as nat
  }

  function WriteU32(n: u32): (s: seq<byte>)
    ensures |s| == 4
  {
    WriteU16(n % 0x1_0000) + WriteU16(n / 0x1_0000)
  }

  function ReadU32(s: seq<byte>): (n: u32)
    requires |s| == 4
  {
    ReadU16(s[..2]) as nat + 0x1_0000 * ReadU16(s[2..]) as nat
  }

  function WriteU64(n: u64): (s: seq<byte>)
    ensures |s| == 8
  {
    WriteU32(n % 0x1_0000_0000) + WriteU32(n / 0x1_0000_0000)
  }

  function ReadU64(s: seq<byte>): (n: u64)
    requires |s| == 8
  {
    ReadU32(s[..4]) as nat + 0x1_0000_0000 * ReadU32(s[4..]) as nat
  }

  lemma Digits16(lo: u16, hi: nat)
    ensures (lo as nat + 0x1_0000 * hi) % 0x1_0000 == lo && (lo as nat + 0x1_0000 * hi) / 0x1_0000 == hi
  {}

  lemma Digits32(lo: u32, hi: nat)
    ensures (lo as nat + 0x1_0000_0000 * hi) % 0x1_0000_0000 == lo
    ensures (lo as nat + 0x1_0000_0000 * hi) / 0x1_0000_0000 == hi
  {}

  /** Writing a 16-bit field and reading it back, either way round, loses nothing. */
  lemma U16RoundTrip(n: u16, s: seq<byte>)
    requires |s| == 2
    ensures ReadU16(WriteU16(n)) == n
    ensures WriteU16(ReadU16(s)) == s
  {}

  lemma U32RoundTrip(n: u32, s: seq<byte>)
    requires |s| == 4
    ensures ReadU32(WriteU32(n)) == n
    ensures WriteU32(ReadU32(s)) == s
  {
    var w := WriteU32(n);
    assert w[..2] == WriteU16(n % 0x1_0000) && w[2..] == WriteU16(n / 0x1_0000);
    U16RoundTrip(n % 0x1_0000, s[..2]);
    U16RoundTrip(n / 0x1_0000, s[2..]);
    Digits16(ReadU16(s[..2]), ReadU16(s[2..]));
  }

  lemma U64RoundTrip(n: u64, s: seq<byte>)
    requires |s| == 8
    ensures ReadU64(WriteU64(n)) == n
    ensures WriteU64(ReadU64(s)) == s
  {
    hide ReadU32, WriteU32;
    var w := WriteU64(n);
    assert w[..4] == WriteU32(n % 0x1_0000_0000) && w[4..] == WriteU32(n / 0x1_0000_0000);
    U32RoundTrip(n % 0x1_0000_0000, s[..4]);
    U32RoundTrip(n / 0x1_0000_0000, s[4..]);
    Digits32(ReadU32(s[..4]), ReadU32(s[4..]));
  }

  /** The least significant byte comes first, and a field holds each number in one way only. */
  lemma LittleEndian16(s: seq<byte>, n: u16)
    requires |s| == 2
    ensures ReadU16(s) as nat == s[0] as nat + 0x100 * s[1] as nat
    ensures WriteU16(n) == s <==> n as nat == s[0] as nat + 0x100 * s[1] as nat
  {
    U16RoundTrip(n, s);
  }

  lemma LittleEndian32(s: seq<byte>, n: u32)
    requires |s| == 4
    ensures ReadU32(s) as nat == s[0] as nat + 0x100 * s[1] as nat + 0x1_0000 * s[2] as nat + 0x100_0000 * s[3] as nat
    ensures WriteU32(n) == s <==> n == ReadU32(s)
  {
    LittleEndian16(s[..2], 0);
    LittleEndian16(s[2..], 0);
    U32RoundTrip(n, s);
    hide ReadU16, WriteU16, WriteU32;
  }

  lemma LittleEndian64(s: seq<byte>, n: u64)
    requires |s| == 8
    ensures ReadU64(s) as nat ==
      s[0] as nat + 0x100 * s[1] as nat + 0x1_0000 * s[2] as nat + 0x100_0000 * s[3] as nat
      + 0x1_0000_0000 * s[4] as nat + 0x100_0000_0000 * s[5] as nat
      + 0x1_0000_0000_0000 * s[6] as nat + 0x100_0000_0000_0000 * s[7] as nat
    ensures WriteU64(n) == s <==> n == ReadU64(s)
  {
    LittleEndian32(s[..4], 0);
    LittleEndian32(s[4..], 0);
    U64RoundTrip(n, s);
    hide ReadU32, WriteU32, WriteU64;
  }
}
