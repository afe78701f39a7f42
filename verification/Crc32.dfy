/**
 The chunk checksum. The reference is the table-driven CRC of section 8 of RFC 1952; the code
 shifts one bit at a time without a branch. Both are the same function, and a pair of messages of
 one length that differ only inside a window of four bytes never share a checksum.
 */
module Crc32 {
  import opened Bytes

  const POLYNOMIAL: bv32 := 0xedb8_8320
  const ONES: bv32 := 0xffff_ffff

  function Xor(a: bv32, b: bv32): bv32 { a ^ b }

  /** A byte in the low lane of a register, and the same byte moved up. */
  function Word(b: byte): bv32 { Bits(b) as bv32 }

  function Lane(b: byte, lane: nat): bv32
    requires lane < 4
  {
    if lane == 0 then Word(b) else if lane == 1 then Word(b) << 8
    else if lane == 2 then Word(b) << 16 else Word(b) << 24
  }

  function Low8(x: bv32): bv32 { x & 0xff }
  function High24(x: bv32): bv32 { x & 0xffff_ff00 }

  // ---- RFC 1952, section 8 --------------------------------------------------

  function RfcBit(c: bv32): bv32 {
    if c & 1 != 0 then POLYNOMIAL ^ (c >> 1) else c >> 1
  }

  function RfcBits(c: bv32, n: nat): bv32 {
    if n == 0 then c else RfcBit(RfcBits(c, n - 1))
  }

  /** Entry n of the 256-entry table. */
  function RfcTable(n: bv32): bv32 { RfcBits(n, 8) }

  function RfcByte(c: bv32, b: byte): bv32 {
    Xor(RfcTable(Low8(Xor(c, Word(b)))), c >> 8)
  }

  /** The register after a run of bytes. */
  function RfcUpdate(c: bv32, data: seq<byte>): bv32 {
    if data == [] then c else RfcByte(RfcUpdate(c, data[..|data| - 1]), data[|data| - 1])
  }

  /** The checksum of a whole message. */
  function RfcCrc(data: seq<byte>): bv32 { Xor(RfcUpdate(ONES, data), ONES) }

  // ---- The code -------------------------------------------------------------

  /** All of the polynomial or nothing, by two's complement. */
  function Mask(bit: bv32): bv32 { POLYNOMIAL & (0 - bit) }

  function CodeBit(crc: bv32): bv32 { Xor(crc >> 1, Mask(crc & 1)) }

  /** The branch-free step is the reflected-polynomial step. */
  lemma BranchFreeBit(crc: bv32)
    ensures CodeBit(crc) == RfcBit(crc)
  {
    Masks();
    LowBit(crc);
    RfcBitMeaning(crc);
    hide RfcBit, Mask, Xor;
    XorZero(crc >> 1);
    XorCommutes(crc >> 1, POLYNOMIAL);
  }

  lemma Masks()
    ensures Mask(0) == 0 && Mask(1) == POLYNOMIAL
  {}

  lemma LowBit(x: bv32)
    ensures x & 1 == 0 || x & 1 == 1
  {}

  lemma RfcBitMeaning(x: bv32)
    ensures RfcBit(x) == if x & 1 != 0 then Xor(POLYNOMIAL, x >> 1) else x >> 1
  {}

  lemma XorZero(x: bv32)
    ensures Xor(x, 0) == x
  {}

  lemma XorCommutes(x: bv32, y: bv32)
    ensures Xor(x, y) == Xor(y, x)
  {}

  method UpdateRegister(crc0: bv32, data: seq<byte>) returns (crc: bv32)
    ensures crc == RfcUpdate(crc0, data)
  {
    hide Xor, Mask, RfcBit;
    crc := crc0;
    for index := 0 to |data|
      invariant crc == RfcUpdate(crc0, data[..index])
    {
      ghost var before := crc;
      crc := Xor(crc, Word(data[index]));
      ghost var mixed := crc;
      for bit := 0 to 8
        invariant crc == RfcBits(mixed, bit)
      {
        BranchFreeBit(crc);
        crc := Xor(crc >> 1, Mask(crc & 1));
      }
      BitwiseByte(before, data[index]);
      assert data[..index + 1][..index] == data[..index];
    }
    assert data[..|data|] == data;
  }

  method Checksum(data: seq<byte>) returns (crc: bv32)
    ensures crc == RfcCrc(data)
  {
    crc := UpdateRegister(ONES, data);
    crc := crc ^ ONES;
  }

  // ---- Bit steps are linear and can be undone --------------------------------

  lemma XorLaws(a: bv32, b: bv32, c: bv32)
    ensures Xor(Xor(a, b), c) == Xor(a, Xor(b, c))
    ensures Xor(a, b) == Xor(b, a)
    ensures Xor(Xor(a, b), b) == a
  {}

  lemma XorCancel(x: bv32, y: bv32, w: bv32)
    requires Xor(x, w) == Xor(y, w)
    ensures x == y
  {
    XorLaws(x, w, w);
    XorLaws(y, w, w);
  }

  lemma ParityXor(x: bv32, y: bv32)
    ensures Xor(x, y) & 1 == Xor(x & 1, y & 1)
  {}

  function Half(x: bv32): bv32 { x >> 1 }

  lemma ShiftRaw(x: bv32, y: bv32)
    ensures (x ^ y) >> 1 == (x >> 1) ^ (y >> 1)
  {}

  lemma ShiftXor(x: bv32, y: bv32)
    ensures Half(Xor(x, y)) == Xor(Half(x), Half(y))
  {
    ShiftRaw(x, y);
  }

  lemma OneBitXor()
    ensures Xor(0, 0) == 0 && Xor(0, 1) == 1 && Xor(1, 0) == 1 && Xor(1, 1) == 0
  {}

  lemma BitLinear(x: bv32, y: bv32)
    ensures RfcBit(Xor(x, y)) == Xor(RfcBit(x), RfcBit(y))
  {
    ParityXor(x, y);
    ShiftXor(x, y);
    OneBitXor();
    LowBit(x);
    LowBit(y);
    RfcBitMeaning(x);
    RfcBitMeaning(y);
    RfcBitMeaning(Xor(x, y));
    hide RfcBit, Xor;
    var p, a, b := POLYNOMIAL, x >> 1, y >> 1;
    XorLaws(p, a, b);
    XorLaws(a, p, b);
    XorPair(p, a, b);
  }

  lemma XorPair(p: bv32, a: bv32, b: bv32)
    ensures Xor(Xor(p, a), Xor(p, b)) == Xor(a, b)
  {
    XorLaws(a, p, b);
    XorLaws(Xor(a, p), p, b);
    hide Xor;
    XorLaws(p, a, Xor(p, b));
    XorLaws(a, p, Xor(p, b));
    XorUndo(p, b);
  }

  lemma XorUndo(p: bv32, b: bv32)
    ensures Xor(p, Xor(p, b)) == b
  {}

  lemma {:induction false} BitsLinear(x: bv32, y: bv32, n: nat)
    ensures RfcBits(Xor(x, y), n) == Xor(RfcBits(x, n), RfcBits(y, n))
  {
    hide Xor, RfcBit;
    if n > 0 {
      BitsLinear(x, y, n - 1);
      BitLinear(RfcBits(x, n - 1), RfcBits(y, n - 1));
    }
  }

  lemma BitInjective(x: bv32, y: bv32)
    requires RfcBit(x) == RfcBit(y)
    ensures x == y
  {}

  lemma {:induction false} BitsInjectiveN(x: bv32, y: bv32, n: nat)
    requires RfcBits(x, n) == RfcBits(y, n)
    ensures x == y
  {
    hide RfcBit;
    if n > 0 {
      BitInjective(RfcBits(x, n - 1), RfcBits(y, n - 1));
      BitsInjectiveN(x, y, n - 1);
    }
  }

  lemma {:induction false} BitsCompose(x: bv32, m: nat, n: nat)
    ensures RfcBits(RfcBits(x, m), n) == RfcBits(x, m + n)
  {
    hide RfcBit;
    if n > 0 { BitsCompose(x, m, n - 1); }
  }

  /** Eight zero bits at the low end leave by plain shifting. */
  lemma {:induction false} LowZerosShiftOut(y: bv32)
    requires y & 0xff == 0
    ensures RfcBits(y, 8) == y >> 8
  {
    assert RfcBits(y, 1) == y >> 1;
    assert RfcBits(y, 2) == y >> 2;
    assert RfcBits(y, 3) == y >> 3;
    assert RfcBits(y, 4) == y >> 4;
    assert RfcBits(y, 5) == y >> 5;
    assert RfcBits(y, 6) == y >> 6;
    assert RfcBits(y, 7) == y >> 7;
  }

  lemma WordIsLow(b: byte)
    ensures Word(b) & 0xff == Word(b)
  {}

  lemma SplitLowByte(y: bv32)
    ensures y == Xor(Low8(y), High24(y))
    ensures High24(y) & 0xff == 0
    ensures High24(y) >> 8 == y >> 8
  {}

  lemma HighBytesOnly(c: bv32, b: byte)
    ensures Xor(c, Word(b)) >> 8 == c >> 8
  {}

  lemma {:induction false} RegisterByte(y: bv32)
    ensures RfcBits(y, 8) == Xor(RfcTable(Low8(y)), y >> 8)
  {
    hide RfcBits, Xor, Low8, High24;
    SplitLowByte(y);
    BitsLinear(Low8(y), High24(y), 8);
    LowZerosShiftOut(High24(y));
  }

  /** Eight bit steps on the register mixed with a byte are one table lookup. */
  lemma BitwiseByte(c: bv32, b: byte)
    ensures RfcBits(Xor(c, Word(b)), 8) == RfcByte(c, b)
  {
    hide RfcBits, Word, Xor;
    RegisterByte(Xor(c, Word(b)));
    HighBytesOnly(c, b);
  }

  // ---- Composition ------------------------------------------------------------

  lemma {:induction false} UpdateNothing(c: bv32)
    ensures RfcUpdate(c, []) == c
  {}

  /** Feeding two pieces one after the other is feeding their concatenation. */
  lemma {:induction false} UpdateConcat(c: bv32, a: seq<byte>, b: seq<byte>)
    ensures RfcUpdate(RfcUpdate(c, a), b) == RfcUpdate(c, a + b)
  {
    hide RfcByte;
    if b == [] {
      assert a + b == a;
    } else {
      UpdateConcat(c, a, b[..|b| - 1]);
      assert (a + b)[..|a + b| - 1] == a + b[..|b| - 1];
    }
  }

  /** The register can be run backwards through any message. */
  lemma {:induction false} UpdateInjective(c: bv32, d: bv32, data: seq<byte>)
    requires RfcUpdate(c, data) == RfcUpdate(d, data)
    ensures c == d
  {
    hide RfcByte, RfcBits, Xor;
    if data != [] {
      var init, last := data[..|data| - 1], data[|data| - 1];
      var x, y := RfcUpdate(c, init), RfcUpdate(d, init);
      BitwiseByte(x, last);
      BitwiseByte(y, last);
      BitsInjectiveN(Xor(x, Word(last)), Xor(y, Word(last)), 8);
      XorCancel(x, y, Word(last));
      UpdateInjective(c, d, init);
    }
  }

  // ---- Burst errors -----------------------------------------------------------

  /** The register mixed with the first n of four bytes, one lane each. */
  function Mix(c: bv32, s: seq<byte>, n: nat): bv32
    requires |s| == 4 && n <= 4
  {
    if n == 0 then c else Xor(Mix(c, s, n - 1), Lane(s[n - 1], n - 1))
  }

  lemma ShiftLane(w: bv32)
    requires w & 0xff == w
    ensures (w << 8) & 0xff == 0 && (w << 8) >> 8 == w
    ensures (w << 16) & 0xff == 0 && (w << 16) >> 8 == w << 8
    ensures (w << 24) & 0xff == 0 && (w << 24) >> 8 == w << 16
  {}

  /** A byte placed k lanes up reaches the low lane after k bytes have gone by. */
  lemma {:induction false} LaneArrives(b: byte, lane: nat)
    requires lane < 4
    ensures RfcBits(Lane(b, lane), 8 * lane) == Word(b)
  {
    hide RfcBits, Word;
    var w := Word(b);
    WordIsLow(b);
    ShiftLane(w);
    if lane == 0 {
      RfcBitsZero(w);
    } else {
      LowZerosShiftOut(w << 8);
      LowZerosShiftOut(w << 16);
      LowZerosShiftOut(w << 24);
      BitsCompose(w << 16, 8, 8);
      BitsCompose(w << 24, 8, 16);
    }
  }

  lemma {:induction false} RfcBitsZero(c: bv32)
    ensures RfcBits(c, 0) == c
  {}

  /** The first n of four bytes act as 8n bit steps of the register mixed with them in lanes. */
  lemma {:induction false} FirstBytes(c: bv32, s: seq<byte>, n: nat)
    requires |s| == 4 && n <= 4
    ensures RfcUpdate(c, s[..n]) == RfcBits(Mix(c, s, n), 8 * n)
  {
    hide RfcBits, RfcByte, Lane, Word, Xor;
    RfcBitsZero(c);
    if n > 0 {
      var b, y := s[n - 1], Mix(c, s, n - 1);
      FirstBytes(c, s, n - 1);
      assert s[..n][..n - 1] == s[..n - 1];
      BitwiseByte(RfcBits(y, 8 * (n - 1)), b);
      LaneArrives(b, n - 1);
      BitsLinear(y, Lane(b, n - 1), 8 * (n - 1));
      BitsCompose(Mix(c, s, n), 8 * (n - 1), 8);
    }
  }

  /** The four lanes do not overlap, so the mixed register determines the bytes. */
  lemma {:induction false} MixInjective(c: bv32, s: seq<byte>, t: seq<byte>, n: nat)
    requires |s| == |t| == 4 && n <= 4
    requires Mix(c, s, n) == Mix(c, t, n)
    ensures s[..n] == t[..n]
  {
    hide Lane, Xor;
    if n > 0 {
      MixLow(c, s, n - 1);
      MixLow(c, t, n - 1);
      LaneInjective(Mix(c, s, n - 1), Mix(c, t, n - 1), c, s[n - 1], t[n - 1], n - 1);
      MixInjective(c, s, t, n - 1);
    }
  }

  /** No bit is set at or above the given lane. */
  predicate Below(x: bv32, lane: nat)
    requires lane <= 4
  {
    x == if lane == 0 then 0 else if lane == 1 then x & 0xff
         else if lane == 2 then x & 0xffff else if lane == 3 then x & 0xff_ffff else x
  }

  /** What has been mixed in so far stays below the given lane. */
  lemma {:induction false} MixLow(c: bv32, s: seq<byte>, n: nat)
    requires |s| == 4 && n <= 4
    ensures Below(Xor(Mix(c, s, n), c), n)
  {
    hide Lane, Xor, Below;
    if n == 0 {
      BelowZero(c);
    } else {
      var x, w := Mix(c, s, n - 1), Lane(s[n - 1], n - 1);
      MixLow(c, s, n - 1);
      BelowStep(Xor(x, c), s[n - 1], n - 1);
      XorSwap(x, w, c);
    }
  }

  lemma BelowZero(c: bv32)
    ensures Below(Xor(c, c), 0)
  {}

  lemma BelowStep(d: bv32, b: byte, lane: nat)
    requires lane < 4
    requires Below(d, lane)
    ensures Below(Xor(d, Lane(b, lane)), lane + 1)
  {
    hide Word;
    WordIsLow(b);
    var w := Word(b);
    if lane == 0 {
      assert (d ^ w) & 0xff == d ^ w;
    } else if lane == 1 {
      assert (d ^ (w << 8)) & 0xffff == d ^ (w << 8);
    } else if lane == 2 {
      assert (d ^ (w << 16)) & 0xff_ffff == d ^ (w << 16);
    }
  }

  lemma LaneBits(d: bv32, e: bv32, v: bv32, w: bv32)
    requires v & 0xff == v && w & 0xff == w
    ensures d == 0 && e == 0 && d ^ v == e ^ w ==> v == w
    ensures d & 0xff == d && e & 0xff == e && d ^ (v << 8) == e ^ (w << 8) ==> v == w
    ensures d & 0xffff == d && e & 0xffff == e && d ^ (v << 16) == e ^ (w << 16) ==> v == w
    ensures d & 0xff_ffff == d && e & 0xff_ffff == e && d ^ (v << 24) == e ^ (w << 24) ==> v == w
  {}

  lemma BelowInjective(d: bv32, e: bv32, a: byte, b: byte, lane: nat)
    requires lane < 4
    requires Below(d, lane) && Below(e, lane)
    requires Xor(d, Lane(a, lane)) == Xor(e, Lane(b, lane))
    ensures a == b
  {
    hide Word;
    WordIsLow(a);
    WordIsLow(b);
    LaneBits(d, e, Word(a), Word(b));
    WordInjective(a, b);
  }

  lemma LaneInjective(x: bv32, y: bv32, c: bv32, a: byte, b: byte, lane: nat)
    requires lane < 4
    requires Below(Xor(x, c), lane) && Below(Xor(y, c), lane)
    requires Xor(x, Lane(a, lane)) == Xor(y, Lane(b, lane))
    ensures x == y && a == b
  {
    hide Lane, Xor, Below;
    XorSwap(x, Lane(a, lane), c);
    XorSwap(y, Lane(b, lane), c);
    BelowInjective(Xor(x, c), Xor(y, c), a, b, lane);
    XorCancel(x, y, Lane(a, lane));
  }

  lemma XorSwap(x: bv32, w: bv32, c: bv32)
    ensures Xor(Xor(x, w), c) == Xor(Xor(x, c), w)
  {
    hide Xor;
    XorLaws(x, w, c);
    XorLaws(x, c, w);
    XorLaws(w, c, c);
  }

  lemma WordInjective(a: byte, b: byte)
    requires Word(a) == Word(b)
    ensures a == b
  {
    SameWord(Bits(a), Bits(b));
    BitsInjective(a, b);
  }

  lemma SameWord(a: bv8, b: bv8)
    requires a as bv32 == b as bv32
    ensures a == b
  {}

  lemma {:induction false} WindowInjective(c: bv32, x: seq<byte>, y: seq<byte>)
    requires |x| == |y| <= 4
    requires RfcUpdate(c, x) == RfcUpdate(c, y)
    ensures x == y
  {
    hide RfcUpdate, RfcBits, Mix;
    var pad := Zeros(4 - |x|);
    var s, t := x + pad, y + pad;
    UpdateConcat(c, x, pad);
    UpdateConcat(c, y, pad);
    assert s[..4] == s && t[..4] == t;
    FirstBytes(c, s, 4);
    FirstBytes(c, t, 4);
    BitsInjectiveN(Mix(c, s, 4), Mix(c, t, 4), 32);
    MixInjective(c, s, t, 4);
    assert x == s[..|x|] && y == t[..|x|];
  }

  /**
   Two messages of one length that agree outside a window of at most four bytes, and differ inside
   it, have different checksums. One changed byte is the special case of a window of one.
   */
  lemma BurstDetected(prefix: seq<byte>, x: seq<byte>, y: seq<byte>, suffix: seq<byte>)
    requires |x| == |y| <= 4
    requires x != y
    ensures RfcCrc(prefix + x + suffix) != RfcCrc(prefix + y + suffix)
  {
    hide RfcUpdate, Xor;
    if RfcCrc(prefix + x + suffix) == RfcCrc(prefix + y + suffix) {
      XorCancel(RfcUpdate(ONES, prefix + x + suffix), RfcUpdate(ONES, prefix + y + suffix), ONES);
      var c := RfcUpdate(ONES, prefix);
      UpdateConcat(ONES, prefix, x);
      UpdateConcat(ONES, prefix, y);
      UpdateConcat(ONES, prefix + x, suffix);
      UpdateConcat(ONES, prefix + y, suffix);
      UpdateInjective(RfcUpdate(c, x), RfcUpdate(c, y), suffix);
      WindowInjective(c, x, y);
    }
  }
}
