/** SHA-256 as FIPS 180-4 defines it, written section by section. */
module Fips180 {
  import opened Bytes

  // ---- 3.2 Operations on 32-bit words -------------------------------------------

  function Xor(x: bv32, y: bv32): bv32 { x ^ y }
  function And(x: bv32, y: bv32): bv32 { x & y }
  function Not(x: bv32): bv32 { !x }
  /** Addition modulo 2^32. */
  function Sum(x: bv32, y: bv32): bv32 { x + y }
  function Shr(x: bv32, n: bv5): bv32 { x >> n }

  function Rotr(x: bv32, n: bv5): bv32
    requires n > 0
  {
    (x >> n) | (x << (32 - n as bv6))
  }

  // ---- 4.1.2 Functions --------------------------------------------------------

  function Xor3(x: bv32, y: bv32, z: bv32): bv32 { Xor(Xor(x, y), z) }
  function Ch(x: bv32, y: bv32, z: bv32): bv32 { Xor(And(x, y), And(Not(x), z)) }
  function Maj(x: bv32, y: bv32, z: bv32): bv32 { Xor3(And(x, y), And(x, z), And(y, z)) }
  function BigSigma0(x: bv32): bv32 { Xor3(Rotr(x, 2), Rotr(x, 13), Rotr(x, 22)) }
  function BigSigma1(x: bv32): bv32 { Xor3(Rotr(x, 6), Rotr(x, 11), Rotr(x, 25)) }
  function SmallSigma0(x: bv32): bv32 { Xor3(Rotr(x, 7), Rotr(x, 18), Shr(x, 3)) }
  function SmallSigma1(x: bv32): bv32 { Xor3(Rotr(x, 17), Rotr(x, 19), Shr(x, 10)) }

  // ---- 4.2.2 Constants --------------------------------------------------------

  /** The first thirty-two bits of the fractional parts of the cube roots of the first 64 primes. */
  const FRACTIONS: seq<u32> := [
    0x428a_2f98, 0x7137_4491, 0xb5c0_fbcf, 0xe9b5_dba5,
    0x3956_c25b, 0x59f1_11f1, 0x923f_82a4, 0xab1c_5ed5,
    0xd807_aa98, 0x1283_5b01, 0x2431_85be, 0x550c_7dc3,
    0x72be_5d74, 0x80de_b1fe, 0x9bdc_06a7, 0xc19b_f174
  ] + [
    0xe49b_69c1, 0xefbe_4786, 0x0fc1_9dc6, 0x240c_a1cc,
    0x2de9_2c6f, 0x4a74_84aa, 0x5cb0_a9dc, 0x76f9_88da,
    0x983e_5152, 0xa831_c66d, 0xb003_27c8, 0xbf59_7fc7,
    0xc6e0_0bf3, 0xd5a7_9147, 0x06ca_6351, 0x1429_2967
  ] + [
    0x27b7_0a85, 0x2e1b_2138, 0x4d2c_6dfc, 0x5338_0d13,
    0x650a_7354, 0x766a_0abb, 0x81c2_c92e, 0x9272_2c85,
    0xa2bf_e8a1, 0xa81a_664b, 0xc24b_8b70, 0xc76c_51a3,
    0xd192_e819, 0xd699_0624, 0xf40e_3585, 0x106a_a070
  ] + [
    0x19a4_c116, 0x1e37_6c08, 0x2748_774c, 0x34b0_bcb5,
    0x391c_0cb3, 0x4ed8_aa4a, 0x5b9c_ca4f, 0x682e_6ff3,
    0x748f_82ee, 0x78a5_636f, 0x84c8_7814, 0x8cc7_0208,
    0x90be_fffa, 0xa450_6ceb, 0xbef9_a3f7, 0xc671_78f2
  ]

  function Wide(n: u32): bv32 { n as bv32 }

  function K(t: nat): bv32
    requires t < 64
  {
    Wide(FRACTIONS[t])
  }

  // ---- 5.1.1 Padding ----------------------------------------------------------

  /** The number of zero bytes between the 0x80 byte and the length. */
  function PadZeros(length: nat): (k: nat)
    ensures k < 64 && (length + 1 + k) % 64 == 56
  {
    if length % 64 < 56 then 55 - length % 64 else 119 - length % 64
  }

  lemma PadFits(length: nat)
    ensures (length + 1 + PadZeros(length) + 8) % 64 == 0
  {}

  function BigEndian64(n: u64): (s: seq<byte>)
    ensures |s| == 8
  {
    seq(8, i requires 0 <= i < 8 => BigEndianByte(n, i))
  }

  /** Byte i of the eight, the most significant first. */
  function BigEndianByte(n: u64, i: nat): byte
    requires i < 8
  {
    n / Power256(7 - i) % 0x100
  }

  function Power256(k: nat): (p: nat)
    ensures p > 0
  {
    if k == 0 then 1 else 0x100 * Power256(k - 1)
  }

  function Pad(m: seq<byte>): (p: seq<byte>)
    ensures |p| == |m| + 1 + PadZeros(|m|) + 8 && |p| % 64 == 0
  {
    PadFits(|m|);
    m + [0x80] + Zeros(PadZeros(|m|)) + BigEndian64(8 * |m| % 0x1_0000_0000_0000_0000)
  }

  // ---- 5.2.1 Parsing ----------------------------------------------------------

  function Word(b: byte): bv32 { Bits(b) as bv32 }

  /** Word j of a block, big-endian. */
  function BlockWord(block: seq<byte>, j: nat): bv32
    requires |block| == 64 && j < 16
  {
    (Word(block[4 * j]) << 24) | (Word(block[4 * j + 1]) << 16) | (Word(block[4 * j + 2]) << 8) | Word(block[4 * j + 3])
  }

  function Block(m: seq<byte>, i: nat): (b: seq<byte>)
    requires 64 * (i + 1) <= |m|
    ensures |b| == 64
  {
    m[64 * i..64 * i + 64]
  }

  // ---- 5.3.3 and 6.2.2 Hash computation ---------------------------------------

  datatype Hash = Hash(a: bv32, b: bv32, c: bv32, d: bv32, e: bv32, f: bv32, g: bv32, h: bv32)

  /** The first thirty-two bits of the fractional parts of the square roots of the first eight primes. */
  const INITIAL_WORDS: seq<u32> := [
    0x6a09_e667, 0xbb67_ae85, 0x3c6e_f372, 0xa54f_f53a, 0x510e_527f, 0x9b05_688c, 0x1f83_d9ab, 0x5be0_cd19
  ]

  const INITIAL := Hash(Wide(INITIAL_WORDS[0]), Wide(INITIAL_WORDS[1]), Wide(INITIAL_WORDS[2]), Wide(INITIAL_WORDS[3]),
                        Wide(INITIAL_WORDS[4]), Wide(INITIAL_WORDS[5]), Wide(INITIAL_WORDS[6]), Wide(INITIAL_WORDS[7]))

  /** The message schedule. */
  function W(block: seq<byte>, t: nat): bv32
    requires |block| == 64
  {
    if t < 16 then BlockWord(block, t)
    else Sum4(SmallSigma1(W(block, t - 2)), W(block, t - 7), SmallSigma0(W(block, t - 15)), W(block, t - 16))
  }

  function Sum4(p: bv32, q: bv32, r: bv32, s: bv32): bv32 { Sum(Sum(Sum(p, q), r), s) }

  function T1(s: Hash, k: bv32, w: bv32): bv32 {
    Sum(Sum4(s.h, BigSigma1(s.e), Ch(s.e, s.f, s.g), k), w)
  }

  function T2(s: Hash): bv32 { Sum(BigSigma0(s.a), Maj(s.a, s.b, s.c)) }

  function Round(s: Hash, k: bv32, w: bv32): Hash {
    Hash(Sum(T1(s, k, w), T2(s)), s.a, s.b, s.c, Sum(s.d, T1(s, k, w)), s.e, s.f, s.g)
  }

  /** The working variables after t rounds. */
  function Rounds(s: Hash, block: seq<byte>, t: nat): Hash
    requires |block| == 64 && t <= 64
  {
    if t == 0 then s else Round(Rounds(s, block, t - 1), K(t - 1), W(block, t - 1))
  }

  function Add(s: Hash, t: Hash): Hash {
    Hash(Sum(s.a, t.a), Sum(s.b, t.b), Sum(s.c, t.c), Sum(s.d, t.d),
         Sum(s.e, t.e), Sum(s.f, t.f), Sum(s.g, t.g), Sum(s.h, t.h))
  }

  function Compress(s: Hash, block: seq<byte>): Hash
    requires |block| == 64
  {
    Add(s, Rounds(s, block, 64))
  }

  /** The intermediate hash value after the first n blocks. */
  function HashBlocks(m: seq<byte>, n: nat): Hash
    requires 64 * n <= |m|
  {
    if n == 0 then INITIAL else Compress(HashBlocks(m, n - 1), Block(m, n - 1))
  }

  function WordByte(x: bv32, shift: bv5): byte { Val(((x >> shift) & 0xff) as bv8) }

  function WordBytes(x: bv32): (s: seq<byte>)
    ensures |s| == 4
  {
    [WordByte(x, 24), WordByte(x, 16), WordByte(x, 8), WordByte(x, 0)]
  }

  function JoinWords(words: seq<bv32>): (s: seq<byte>)
    ensures |s| == 4 * |words|
  {
    if words == [] then [] else JoinWords(words[..|words| - 1]) + WordBytes(words[|words| - 1])
  }

  function HashWords(s: Hash): (words: seq<bv32>)
    ensures |words| == 8
  {
    [s.a, s.b, s.c, s.d, s.e, s.f, s.g, s.h]
  }

  function Digest(s: Hash): (d: seq<byte>)
    ensures |d| == 32
  {
    JoinWords(HashWords(s))
  }

  function Sha256(m: seq<byte>): (d: seq<byte>)
    ensures |d| == 32
  {
    Digest(HashBlocks(Pad(m), |Pad(m)| / 64))
  }

  // ---- Facts used by the streaming form ---------------------------------------

  /** The first n blocks decide the intermediate value, whatever follows them. */
  lemma {:induction false} HashBlocksPrefix(m: seq<byte>, p: seq<byte>, n: nat)
    requires 64 * n <= |m| && 64 * n <= |p|
    requires m[..64 * n] == p[..64 * n]
    ensures HashBlocks(m, n) == HashBlocks(p, n)
  {
    hide Compress;
    if n > 0 {
      assert m[..64 * (n - 1)] == m[..64 * n][..64 * (n - 1)];
      assert p[..64 * (n - 1)] == p[..64 * n][..64 * (n - 1)];
      HashBlocksPrefix(m, p, n - 1);
      assert Block(m, n - 1) == m[..64 * n][64 * (n - 1)..];
      assert Block(p, n - 1) == p[..64 * n][64 * (n - 1)..];
    }
  }

  /** Where the padding falls: after the last whole block, in one block or in two. */
  lemma PadTail(m: seq<byte>, n: nat, tail: seq<byte>, length: seq<byte>)
    requires n == |m| / 64 && tail == m[64 * n..] + [0x80]
    requires length == BigEndian64(8 * |m| % 0x1_0000_0000_0000_0000)
    ensures |tail| <= 64
    ensures |Pad(m)| >= 64 * n && Pad(m)[..64 * n] == m[..64 * n]
    ensures |tail| <= 56 ==> |Pad(m)| == 64 * n + 64 && Pad(m)[64 * n..] == tail + Zeros(56 - |tail|) + length
    ensures |tail| > 56 ==> |Pad(m)| == 64 * n + 128 && Pad(m)[64 * n..] == tail + Zeros(120 - |tail|) + length
  {
    hide BigEndian64;
    var p := Pad(m);
    var z := PadZeros(|m|);
    assert z == if |tail| <= 56 then 56 - |tail| else 120 - |tail|;
    assert p == m[..64 * n] + (tail + Zeros(z) + length);
  }

  lemma {:induction false} PadOneBlock(m: seq<byte>, n: nat, tail: seq<byte>, length: seq<byte>)
    requires n == |m| / 64 && tail == m[64 * n..] + [0x80] && |tail| <= 56
    requires length == BigEndian64(8 * |m| % 0x1_0000_0000_0000_0000)
    ensures Sha256(m) == Digest(Compress(HashBlocks(m, n), tail + Zeros(56 - |tail|) + length))
  {
    hide BigEndian64, Compress, Pad, Digest, PadZeros;
    PadTail(m, n, tail, length);
    HashBlocksPrefix(m, Pad(m), n);
    assert Block(Pad(m), n) == Pad(m)[64 * n..];
  }

  lemma {:induction false} PadTwoBlocks(m: seq<byte>, n: nat, tail: seq<byte>, length: seq<byte>)
    requires n == |m| / 64 && tail == m[64 * n..] + [0x80] && 56 < |tail| <= 64
    requires length == BigEndian64(8 * |m| % 0x1_0000_0000_0000_0000)
    ensures Sha256(m) == Digest(Compress(Compress(HashBlocks(m, n), tail + Zeros(64 - |tail|)), Zeros(56) + length))
  {
    hide BigEndian64, Compress, Pad, Digest, PadZeros, HashBlocks;
    var p := Pad(m);
    PadTail(m, n, tail, length);
    HashBlocksPrefix(m, p, n);
    var x, y := tail + Zeros(64 - |tail|), Zeros(56) + length;
    assert Zeros(120 - |tail|) == Zeros(64 - |tail|) + Zeros(56);
    assert p[64 * n..] == x + y;
    TwoBlocks(p, n, x, y);
  }

  lemma TwoBlocks(p: seq<byte>, n: nat, x: seq<byte>, y: seq<byte>)
    requires |p| == 64 * n + 128 && p[64 * n..] == x + y && |x| == |y| == 64
    ensures HashBlocks(p, n + 2) == Compress(Compress(HashBlocks(p, n), x), y)
  {
    hide Compress, HashBlocks;
    assert Block(p, n) == p[64 * n..][..64] == x;
    assert Block(p, n + 1) == p[64 * n..][64..] == y;
    HashBlocksStep(p, n);
    HashBlocksStep(p, n + 1);
  }

  lemma HashBlocksStep(m: seq<byte>, n: nat)
    requires 64 * (n + 1) <= |m|
    ensures HashBlocks(m, n + 1) == Compress(HashBlocks(m, n), Block(m, n))
  {}

  lemma {:induction false} HashBlocksNone(m: seq<byte>)
    ensures HashBlocks(m, 0) == INITIAL
  {}
}
