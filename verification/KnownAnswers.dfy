/**
 Answers that are known from elsewhere: the field tables of schedule protocol V1, offset by offset, and
 the generator and the check value of the CRC-32 that RFC 1952 uses. They fix what the codec and the
 checksum have in common with their references.
 */
module KnownAnswers {
  import opened Bytes
  import opened Schedule
  import Crc32
  import ChunkMap
  import Upload

  // ---- Schedule protocol V1, field by field -------------------------------------------------------

  /** The little-endian number of some bytes from an offset on. */
  function Number(b: seq<byte>, offset: nat, size: nat): nat
    requires offset + size <= |b|
    decreases size
  {
    if size == 0 then 0 else b[offset] as nat + 0x100 * Number(b, offset + 1, size - 1)
  }

  function Ascii(text: string): seq<byte>
    requires forall i :: 0 <= i < |text| ==> text[i] as nat < 0x80
  {
    seq(|text|, i requires 0 <= i < |text| => text[i] as nat)
  }

  lemma {:induction false} Fields(b: seq<byte>, offset: nat)
    ensures offset + 2 <= |b| ==> ReadU16(b[offset..offset + 2]) as nat == Number(b, offset, 2)
    ensures offset + 4 <= |b| ==> ReadU32(b[offset..offset + 4]) as nat == Number(b, offset, 4)
  {
    if offset + 2 <= |b| { LittleEndian16(b[offset..offset + 2], 0); }
    hide ReadU16, ReadU32, WriteU16, WriteU32;
    if offset + 4 <= |b| {
      LittleEndian32(b[offset..offset + 4], 0);
      assert Number(b, offset, 4) == b[offset] as nat + 0x100 * Number(b, offset + 1, 3);
      assert Number(b, offset + 1, 3) == b[offset + 1] as nat + 0x100 * Number(b, offset + 2, 2);
    }
  }

  lemma {:induction false} LongField(b: seq<byte>, offset: nat)
    requires offset + 8 <= |b|
    ensures ReadU64(b[offset..offset + 8]) as nat == Number(b, offset, 8)
  {
    var s := b[offset..offset + 8];
    assert s[..4] == b[offset..offset + 4] && s[4..] == b[offset + 4..offset + 8];
    Fields(b, offset);
    Fields(b, offset + 4);
    hide ReadU32;
    FourFirst(b, offset, 4);
  }

  lemma {:induction false} FourFirst(b: seq<byte>, offset: nat, more: nat)
    requires offset + 4 + more <= |b|
    ensures Number(b, offset, 4 + more) == Number(b, offset, 4) + 0x1_0000_0000 * Number(b, offset + 4, more)
  {
    Following(b, offset, more + 3, 3);
    Following(b, offset + 1, more + 2, 2);
    Following(b, offset + 2, more + 1, 1);
    Following(b, offset + 3, more, 0);
    hide Number;
  }

  lemma {:induction false} Following(b: seq<byte>, offset: nat, size: nat, few: nat)
    requires offset + size + 1 <= |b| && few <= size
    ensures Number(b, offset, size + 1) == b[offset] as nat + 0x100 * Number(b, offset + 1, size)
    ensures Number(b, offset, few + 1) == b[offset] as nat + 0x100 * Number(b, offset + 1, few)
    ensures Number(b, offset, 0) == 0 == Number(b, offset + 1, 0)
  {}

  /** The form checks accept a header if and only if its fixed fields hold what the protocol's table says. */
  lemma {:induction false} HeaderTable(b: seq<byte>)
    requires |b| == 96
    ensures HeaderFormError(b) == OK <==>
      && b[0..8] == Ascii("TYPXHID1") && b[8] == 1 && b[10] == 1 && b[11] == 1
      && Number(b, 12, 2) == 96 && Number(b, 14, 2) == 32 && Number(b, 16, 4) == 3
      && forall k :: 88 <= k < 96 ==> b[k] == 0
  {
    MagicText();
    Fields(b, 12);
    Fields(b, 14);
    Fields(b, 16);
    ZeroBytes(b, 88, 96);
    hide ReadU16, ReadU32, ReadU64, Number, Ascii, AllZero, MAGIC;
  }

  lemma MagicText()
    ensures MAGIC == Ascii("TYPXHID1")
  {}

  lemma ZeroBytes(b: seq<byte>, from: nat, to: nat)
    requires from <= to <= |b|
    ensures AllZero(b[from..to]) <==> forall k :: from <= k < to ==> b[k] == 0
  {
    if AllZero(b[from..to]) {
      forall k | from <= k < to ensures b[k] == 0 { assert b[from..to][k - from] == 0; }
    }
  }

  lemma {:induction false} HeaderFieldTable(b: seq<byte>)
    requires |b| == 96
    ensures var h := HeaderFields(b);
      && h.major == b[8] && h.minor == b[9] && h.format == b[10]
      && h.actionCount as nat == Number(b, 20, 4) && h.payloadBytes as nat == Number(b, 24, 4)
      && h.sourceCharacters as nat == Number(b, 28, 4) && h.durationUs as nat == Number(b, 32, 8)
      && h.jobId == b[40..56] && h.payloadSha256 == b[56..88]
  {
    Fields(b, 20);
    Fields(b, 24);
    Fields(b, 28);
    LongField(b, 32);
    hide ReadU16, ReadU32, ReadU64, Number;
  }

  /** A record is taken if and only if its bytes hold what the protocol's table says, within the wait limit. */
  lemma {:induction false} RecordTable(b: seq<byte>, maxDelayUs: u32)
    requires |b| == 32 && maxDelayUs >= 8000
    ensures RecordFormError(b, maxDelayUs) == OK <==>
      && Number(b, 0, 4) <= maxDelayUs as nat && Number(b, 4, 4) == 8000 && Number(b, 8, 4) <= maxDelayUs as nat
      && b[16] <= 3 && Usage(b[17]) && Number(b, 18, 2) in {0x9, 0xa, 0xe}
      && b[20] == 1 && b[21] == 1 && forall k :: 22 <= k < 32 ==> b[k] == 0
  {
    RecordFormMeaning(b, maxDelayUs);
    RecordFieldTable(b);
    ZeroBytes(b, 22, 32);
    FlagValues(RecordFields(b));
    Usages(b[17]);
    hide RecordFields, RecordFormError, Number, AllZero, IsSource, IsTechnical, IsCleanup, IsReleaseAll, Usage,
      SupportedKeycode;
  }

  lemma {:induction false} RecordFieldTable(b: seq<byte>)
    requires |b| == 32
    ensures var r := RecordFields(b);
      && r.waitBefore as nat == Number(b, 0, 4) && r.hold as nat == Number(b, 4, 4)
      && r.waitAfter as nat == Number(b, 8, 4) && r.sourceIndex as nat == Number(b, 12, 4)
      && r.modifier == b[16] && r.keycode == b[17] && r.flags as nat == Number(b, 18, 2)
  {
    Fields(b, 0);
    Fields(b, 4);
    Fields(b, 8);
    Fields(b, 12);
    Fields(b, 18);
    hide ReadU16, ReadU32, ReadU64, Number;
  }

  /** Source, technical, or technical and cleanup; always with the release. */
  lemma FlagValues(r: Record)
    ensures (r.flags < 0x10 && IsReleaseAll(r) && (IsSource(r) <==> !IsTechnical(r))
      && (IsCleanup(r) ==> IsTechnical(r)))
      <==> r.flags in {0x9, 0xa, 0xe}
    ensures IsCleanup(r) && r.flags in {0x9, 0xa, 0xe} <==> r.flags == 0xe
    ensures IsSource(r) && r.flags in {0x9, 0xa, 0xe} <==> r.flags == 0x9
  {}

  /** What may be pressed, by what is on the keys. */
  predicate Usage(k: byte) {
    || 0x04 <= k < 0x04 + 26                        // letters
    || 0x1e <= k < 0x1e + 10                        // digits
    || k in {0x28, 0x29, 0x2a, 0x2b, 0x2c}          // Enter, Escape, Backspace, Tab, Space
    || k in {0x2d, 0x2e, 0x2f, 0x30, 0x31}          // hyphen, equals, the brackets, backslash
    || k in {0x33, 0x34, 0x35, 0x36, 0x37, 0x38}    // semicolon, quote, grave, comma, dot, slash
    || k in {0x4a, 0x4c, 0x4d, 0x4f}                // Home, Delete, End, Right
  }

  lemma Usages(k: byte)
    ensures SupportedKeycode(k) <==> Usage(k)
  {}

  /** Escape, then Control+Shift+End, then Delete. */
  lemma CleanupKeys(r: Record, k: nat)
    requires k < 3
    ensures CleanupKey(r, k) <==> (r.modifier, r.keycode) == [(0, 0x29), (3, 0x4d), (0, 0x4c)][k]
  {}

  /** The largest file the board takes is 512 KiB, which is full of records and full of chunks. */
  lemma LargestFile()
    ensures CAM_LIMITS.maxEncodedBytes as nat == 512 * 1024 == Upload.MAX_BYTES ==
      ChunkMap.CHUNK_BYTES * Upload.MAX_CHUNKS
    ensures 96 + 32 * CAM_LIMITS.maxRecordCount as nat == 512 * 1024
    ensures CAM_LIMITS.maxDelayUs as nat == 1000 * 600_000
  {}

  // ---- The chunk checksum -----------------------------------------------------------------------

  /** The coefficient of a power below 32, in the reflected order: the highest power in the lowest bit. */
  function Term(exponent: bv5): bv32 { 0x8000_0000 >> exponent }

  /** The generator of CRC-32, whose term of power 32 is left out. */
  lemma Generator()
    ensures Crc32.POLYNOMIAL ==
      Term(26) | Term(23) | Term(22) | Term(16) | Term(12) | Term(11) | Term(10) | Term(8) | Term(7)
      | Term(5) | Term(4) | Term(2) | Term(1) | Term(0)
  {}

  function FourBits(c: bv32): bv32 { Crc32.RfcBit(Crc32.RfcBit(Crc32.RfcBit(Crc32.RfcBit(c)))) }

  lemma EightBits(c: bv32)
    ensures Crc32.RfcTable(c) == FourBits(FourBits(c))
  {
    hide Crc32.RfcBit;
    FourMore(c, 0);
    FourMore(c, 4);
  }

  lemma {:induction false} FourMore(c: bv32, n: nat)
    ensures Crc32.RfcBits(c, n + 4) == FourBits(Crc32.RfcBits(c, n))
  {
    hide Crc32.RfcBit;
    assert Crc32.RfcBits(c, n + 1) == Crc32.RfcBit(Crc32.RfcBits(c, n));
    assert Crc32.RfcBits(c, n + 2) == Crc32.RfcBit(Crc32.RfcBits(c, n + 1));
    assert Crc32.RfcBits(c, n + 3) == Crc32.RfcBit(Crc32.RfcBits(c, n + 2));
  }

  /** The ASCII digits from 1 to n. */
  function Digits(n: nat): (s: seq<byte>)
    requires n < 10
    ensures |s| == n
  {
    if n == 0 then [] else Digits(n - 1) + [0x30 + n]
  }

  lemma {:induction false} NextDigit(n: nat, c: bv32, next: bv32)
    requires 0 < n < 10 && Crc32.RfcUpdate(Crc32.ONES, Digits(n - 1)) == c
    requires next == Crc32.Xor(FourBits(FourBits(Crc32.Low8(Crc32.Xor(c, Crc32.Word(0x30 + n))))), c >> 8)
    ensures Crc32.RfcUpdate(Crc32.ONES, Digits(n)) == next
  {
    EightBits(Crc32.Low8(Crc32.Xor(c, Crc32.Word(0x30 + n))));
    hide Crc32.Xor, Crc32.Word, Crc32.Low8, FourBits, Crc32.RfcTable;
    assert Digits(n)[..n - 1] == Digits(n - 1);
  }

  lemma {:induction false} ThreeDigits()
    ensures Crc32.RfcUpdate(Crc32.ONES, Digits(3)) == 0x77b7_9c2d
  {
    assert Crc32.RfcUpdate(Crc32.ONES, Digits(0)) == Crc32.ONES;
    hide Digits, Crc32.RfcUpdate;
    NextDigit(1, 0xffff_ffff, 0x7c23_1048);
    NextDigit(2, 0x7c23_1048, 0xb0ac_bb32);
    NextDigit(3, 0xb0ac_bb32, 0x77b7_9c2d);
  }

  lemma {:induction false} SixDigits()
    ensures Crc32.RfcUpdate(Crc32.ONES, Digits(6)) == 0xf68d_2c9e
  {
    ThreeDigits();
    hide Digits, Crc32.RfcUpdate;
    NextDigit(4, 0x77b7_9c2d, 0x641c_1f5c);
    NextDigit(5, 0x641c_1f5c, 0x340a_c5e3);
    NextDigit(6, 0x340a_c5e3, 0xf68d_2c9e);
  }

  /** The check value of CRC-32: the checksum of the nine bytes "123456789". */
  lemma {:induction false} CheckValue()
    ensures Crc32.RfcCrc(Digits(9)) == 0xcbf4_3926
  {
    SixDigits();
    hide Digits, Crc32.RfcUpdate;
    NextDigit(7, 0xf68d_2c9e, 0xaffc_9660);
    NextDigit(8, 0xaffc_9660, 0x651f_2550);
    NextDigit(9, 0x651f_2550, 0x340b_c6d9);
  }
}
