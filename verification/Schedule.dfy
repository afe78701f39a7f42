/**
 Schedule protocol V1: the documented layout as an encoder, the rules a schedule must satisfy, and
 the decision the decoder takes on a byte string. The decision accepts exactly the encodings of
 valid schedules, and each accepted string encodes one schedule only.
 */
module Schedule {
  import opened Bytes
  import Fips180

  const HEADER_BYTES: nat := 96
  const RECORD_BYTES: nat := 32
  const HOLD_US: u32 := 8000
  const MAGIC: seq<byte> := [0x54, 0x59, 0x50, 0x58, 0x48, 0x49, 0x44, 0x31]

  datatype Limits = Limits(maxEncodedBytes: u64, maxRecordCount: u32, maxDelayUs: u32)

  const CAM_LIMITS := Limits(512 * 1024, 16_381, 600_000_000)

  datatype Header = Header(
    major: byte, minor: byte, format: byte,
    actionCount: u32, payloadBytes: u32, sourceCharacters: u32, durationUs: u64,
    jobId: seq<byte>, payloadSha256: seq<byte>)

  datatype Record = Record(
    waitBefore: u32, hold: u32, waitAfter: u32, sourceIndex: u32,
    modifier: byte, keycode: byte, flags: u16)

  datatype Error =
    | OK | READER_ERROR | HEADER_INVALID | VERSION_INCOMPATIBLE | PAYLOAD_SIZE_INVALID
    | ACTION_COUNT_MISMATCH | SCHEDULE_LIMIT_EXCEEDED | CHECKSUM_MISMATCH | FLAGS_INVALID
    | RESERVED_FIELD_NONZERO | JOB_ID_INVALID | DELAY_INVALID | MODIFIER_INVALID
    | KEYCODE_UNSUPPORTED | SOURCE_INDEX_INVALID | TOTAL_DURATION_INVALID
    | FINAL_CLEANUP_INVALID | NOT_VERIFIED | INTEGER_OVERFLOW

  // ---- The documented layout ---------------------------------------------------

  function EncodeRecord(r: Record): (s: seq<byte>)
    ensures |s| == RECORD_BYTES
  {
    WriteU32(r.waitBefore) + WriteU32(r.hold) + WriteU32(r.waitAfter) + WriteU32(r.sourceIndex)
    + ([r.modifier, r.keycode] + WriteU16(r.flags) + [1, 1] + Zeros(10))
  }

  predicate Sized(h: Header) { |h.jobId| == 16 && |h.payloadSha256| == 32 }

  /** Bytes 0 to 39: everything of fixed width before the job identifier. */
  function EncodePreamble(h: Header): (s: seq<byte>)
    ensures |s| == 40
  {
    MAGIC + ([h.major, h.minor, h.format, 1] + WriteU16(96) + WriteU16(32)) + WriteU32(3)
    + WriteU32(h.actionCount) + WriteU32(h.payloadBytes) + WriteU32(h.sourceCharacters) + WriteU64(h.durationUs)
  }

  function EncodeHeader(h: Header): (s: seq<byte>)
    requires Sized(h)
    ensures |s| == HEADER_BYTES
  {
    EncodePreamble(h) + h.jobId + h.payloadSha256 + Zeros(8)
  }

  function EncodePayload(rs: seq<Record>): (s: seq<byte>)
    ensures |s| == RECORD_BYTES * |rs|
  {
    if rs == [] then [] else EncodePayload(rs[..|rs| - 1]) + EncodeRecord(rs[|rs| - 1])
  }

  function Encode(h: Header, rs: seq<Record>): (s: seq<byte>)
    requires Sized(h)
    ensures |s| == HEADER_BYTES + RECORD_BYTES * |rs|
  {
    EncodeHeader(h) + EncodePayload(rs)
  }

  // ---- The rules ---------------------------------------------------------------

  predicate HasFlag(flags: u16, weight: nat)
    requires weight > 0
  {
    flags as nat / weight % 2 == 1
  }

  predicate IsSource(r: Record) { HasFlag(r.flags, 0x1) }
  predicate IsTechnical(r: Record) { HasFlag(r.flags, 0x2) }
  predicate IsCleanup(r: Record) { HasFlag(r.flags, 0x4) }
  predicate IsReleaseAll(r: Record) { HasFlag(r.flags, 0x8) }

  predicate SupportedKeycode(k: byte) {
    0x04 <= k <= 0x31 || 0x33 <= k <= 0x38 || k == 0x4a || k == 0x4c || k == 0x4d || k == 0x4f
  }

  predicate ValidRecord(r: Record, maxDelayUs: u32) {
    && r.waitBefore <= maxDelayUs && r.waitAfter <= maxDelayUs
    && r.hold == HOLD_US <= maxDelayUs
    && r.modifier <= 3
    && SupportedKeycode(r.keycode)
    && r.flags < 0x10 && IsReleaseAll(r)
    && (IsSource(r) <==> !IsTechnical(r))
    && (IsCleanup(r) ==> IsTechnical(r))
  }

  /** Time one record asks for. */
  function RecordUs(r: Record): nat { r.waitBefore as nat + r.hold as nat + r.waitAfter as nat }

  function TotalUs(rs: seq<Record>): nat {
    if rs == [] then 0 else TotalUs(rs[..|rs| - 1]) + RecordUs(rs[|rs| - 1])
  }

  /** Escape; Control+Shift+End; Delete. */
  predicate EndsWithCleanup(rs: seq<Record>) {
    && |rs| >= 3
    && (forall i :: 0 <= i < |rs| ==> (IsCleanup(rs[i]) <==> i >= |rs| - 3))
    && rs[|rs| - 3].modifier == 0x00 && rs[|rs| - 3].keycode == 0x29
    && rs[|rs| - 2].modifier == 0x03 && rs[|rs| - 2].keycode == 0x4d
    && rs[|rs| - 1].modifier == 0x00 && rs[|rs| - 1].keycode == 0x4c
  }

  predicate SourceIndexesInOrder(rs: seq<Record>, sourceCharacters: u32) {
    && (forall i, j :: 0 <= i < j < |rs| ==> rs[i].sourceIndex <= rs[j].sourceIndex)
    && (forall i :: 0 <= i < |rs| ==> rs[i].sourceIndex <= sourceCharacters)
    && (forall i :: 0 <= i < |rs| ==> IsSource(rs[i]) ==> rs[i].sourceIndex > 0)
  }

  predicate ValidHeader(h: Header) {
    && Sized(h)
    && h.major == 1 && h.format == 1
    && h.sourceCharacters > 0
    && !AllZero(h.jobId)
  }

  predicate FitsLimits(h: Header, limits: Limits) {
    && 0 < h.actionCount <= limits.maxRecordCount
    && h.payloadBytes as nat == RECORD_BYTES * h.actionCount as nat
    && HEADER_BYTES + RECORD_BYTES * h.actionCount as nat <= limits.maxEncodedBytes as nat
  }

  predicate ValidRecords(rs: seq<Record>, h: Header, limits: Limits) {
    && (forall i :: 0 <= i < |rs| ==> ValidRecord(rs[i], limits.maxDelayUs))
    && SourceIndexesInOrder(rs, h.sourceCharacters)
    && EndsWithCleanup(rs)
    && TotalUs(rs) == h.durationUs as nat
  }

  predicate ValidSchedule(h: Header, rs: seq<Record>, limits: Limits) {
    && ValidHeader(h)
    && FitsLimits(h, limits)
    && |rs| == h.actionCount as nat
    && h.payloadSha256 == Fips180.Sha256(EncodePayload(rs))
    && ValidRecords(rs, h, limits)
  }

  predicate UsableLimits(limits: Limits) {
    limits.maxEncodedBytes as nat >= HEADER_BYTES && limits.maxRecordCount > 0 && limits.maxDelayUs > 0
  }

  // ---- The decoder: fields at their offsets --------------------------------------

  function RecordFields(b: seq<byte>): Record
    requires |b| == RECORD_BYTES
  {
    Record(ReadU32(b[0..4]), ReadU32(b[4..8]), ReadU32(b[8..12]), ReadU32(b[12..16]), b[16], b[17], ReadU16(b[18..20]))
  }

  function HeaderFields(b: seq<byte>): (h: Header)
    requires |b| == HEADER_BYTES
    ensures Sized(h)
  {
    Header(b[8], b[9], b[10], ReadU32(b[20..24]), ReadU32(b[24..28]), ReadU32(b[28..32]), ReadU64(b[32..40]),
           b[40..56], b[56..88])
  }

  /** The decision on one record's bytes, checks in the order the code makes them. */
  function RecordFormError(b: seq<byte>, maxDelayUs: u32): Error
    requires |b| == RECORD_BYTES
  {
    var r := RecordFields(b);
    if !AllZero(b[22..32]) then RESERVED_FIELD_NONZERO
    else if b[20] != 1 || b[21] != 1 then FLAGS_INVALID
    else if r.waitBefore > maxDelayUs || r.hold > maxDelayUs || r.waitAfter > maxDelayUs || r.hold != HOLD_US
    then DELAY_INVALID
    else if Bits(r.modifier) & !0x03 != 0 then MODIFIER_INVALID
    else if !SupportedKeycode(r.keycode) then KEYCODE_UNSUPPORTED
    else if RecordFlagsBad(r) then FLAGS_INVALID
    else OK
  }

  predicate RecordFlagsBad(r: Record) {
    var classification := r.flags % 4;
    || r.flags as nat / 0x10 != 0
    || !IsReleaseAll(r)
    || (classification != 1 && classification != 2)
    || (IsCleanup(r) && classification != 2)
  }

  /** The fixed fields of the header. */
  function HeaderFormError(b: seq<byte>): Error
    requires |b| == HEADER_BYTES
  {
    if b[0..8] != MAGIC then HEADER_INVALID
    else if b[8] != 1 || b[10] != 1 then VERSION_INCOMPATIBLE
    else if b[11] != 1 || ReadU16(b[12..14]) != 96 || ReadU16(b[14..16]) != 32 then HEADER_INVALID
    else if ReadU32(b[16..20]) != 3 then FLAGS_INVALID
    else if !AllZero(b[88..96]) then RESERVED_FIELD_NONZERO
    else OK
  }

  /** The counts and sizes the header states, against the file and the limits. */
  function HeaderSizeError(h: Header, size: nat, limits: Limits): Error {
    if h.actionCount == 0 || h.actionCount > limits.maxRecordCount then SCHEDULE_LIMIT_EXCEEDED
    else if h.actionCount as nat * RECORD_BYTES > U32_MAX then INTEGER_OVERFLOW
    else if h.payloadBytes as nat != h.actionCount as nat * RECORD_BYTES then ACTION_COUNT_MISMATCH
    else if HEADER_BYTES + h.actionCount as nat * RECORD_BYTES != size then PAYLOAD_SIZE_INVALID
    else if h.sourceCharacters == 0 then SOURCE_INDEX_INVALID
    else if AllZero(h.jobId) then JOB_ID_INVALID
    else OK
  }

  function RecordBytesAt(file: seq<byte>, i: nat): (b: seq<byte>)
    requires HEADER_BYTES + RECORD_BYTES * (i + 1) <= |file|
    ensures |b| == RECORD_BYTES
  {
    file[HEADER_BYTES + RECORD_BYTES * i..HEADER_BYTES + RECORD_BYTES * i + RECORD_BYTES]
  }

  function RecordAt(file: seq<byte>, i: nat): Record
    requires HEADER_BYTES + RECORD_BYTES * (i + 1) <= |file|
  {
    RecordFields(RecordBytesAt(file, i))
  }

  /** The first n records of a file. */
  function RecordsOf(file: seq<byte>, n: nat): (rs: seq<Record>)
    requires HEADER_BYTES + RECORD_BYTES * n <= |file|
    ensures |rs| == n
  {
    if n == 0 then [] else RecordsOf(file, n - 1) + [RecordAt(file, n - 1)]
  }

  /** The decision on record i of n, its neighbours before it being in order already. */
  function RecordError(file: seq<byte>, i: nat, n: nat, sourceCharacters: u32, maxDelayUs: u32): Error
    requires i < n && n >= 3
    requires HEADER_BYTES + RECORD_BYTES * n <= |file|
  {
    var formError := RecordFormError(RecordBytesAt(file, i), maxDelayUs);
    var previous := if i == 0 then 0 else RecordAt(file, i - 1).sourceIndex;
    if formError != OK then formError else PlaceError(RecordAt(file, i), previous, i, n, sourceCharacters)
  }

  /** A well-formed record at place i of n, after one with the given source index. */
  function PlaceError(r: Record, previous: u32, i: nat, n: nat, sourceCharacters: u32): Error
    requires i < n && n >= 3
  {
    if r.sourceIndex < previous || r.sourceIndex > sourceCharacters || (IsSource(r) && r.sourceIndex == 0)
    then SOURCE_INDEX_INVALID
    else if IsCleanup(r) != (i >= n - 3) then FINAL_CLEANUP_INVALID
    else if i >= n - 3 && !CleanupKey(r, i - (n - 3)) then FINAL_CLEANUP_INVALID
    else OK
  }

  predicate CleanupKey(r: Record, k: nat) {
    r.modifier == (if k == 1 then 0x03 else 0x00)
      && r.keycode == (if k == 0 then 0x29 else if k == 1 then 0x4d else 0x4c)
  }

  /** The first error among records i to n - 1, or the verdict on the total. */
  function RecordsError(file: seq<byte>, i: nat, n: nat, h: Header, maxDelayUs: u32): Error
    requires i <= n && n >= 3
    requires HEADER_BYTES + RECORD_BYTES * n <= |file|
    decreases n - i
  {
    if i == n then
      if TotalUs(RecordsOf(file, n)) == h.durationUs as nat then OK else TOTAL_DURATION_INVALID
    else
      var error := RecordError(file, i, n, h.sourceCharacters, maxDelayUs);
      if error != OK then error else RecordsError(file, i + 1, n, h, maxDelayUs)
  }

  function PayloadOf(file: seq<byte>): seq<byte>
    requires |file| >= HEADER_BYTES
  {
    file[HEADER_BYTES..]
  }

  /** The decision on a whole file when every read and every digest call succeeds. */
  function Decide(file: seq<byte>, limits: Limits): Error {
    if !UsableLimits(limits) || |file| < HEADER_BYTES then HEADER_INVALID
    else if |file| > limits.maxEncodedBytes as nat then SCHEDULE_LIMIT_EXCEEDED
    else
      var formError := HeaderFormError(file[..HEADER_BYTES]);
      var h := HeaderFields(file[..HEADER_BYTES]);
      if formError != OK then formError
      else if HeaderSizeError(h, |file|, limits) != OK then HeaderSizeError(h, |file|, limits)
      else if Fips180.Sha256(PayloadOf(file)) != h.payloadSha256 then CHECKSUM_MISMATCH
      else if h.actionCount < 3 then FINAL_CLEANUP_INVALID
      else RecordsError(file, 0, h.actionCount as nat, h, limits.maxDelayUs)
  }

  // ---- Records: fields and bytes are two forms of one thing ------------------------

  predicate RecordFramed(b: seq<byte>)
    requires |b| == RECORD_BYTES
  {
    b[20] == 1 && b[21] == 1 && AllZero(b[22..32])
  }

  lemma EncodedRecordSlices(r: Record)
    ensures var b := EncodeRecord(r);
      && b[0..4] == WriteU32(r.waitBefore) && b[4..8] == WriteU32(r.hold)
      && b[8..12] == WriteU32(r.waitAfter) && b[12..16] == WriteU32(r.sourceIndex)
      && b[16] == r.modifier && b[17] == r.keycode && b[18..20] == WriteU16(r.flags)
      && b[20] == 1 && b[21] == 1 && b[22..32] == Zeros(10)
  {
    hide WriteU32, WriteU16, Zeros;
  }

  lemma DecodeEncodedRecord(r: Record)
    ensures RecordFields(EncodeRecord(r)) == r && RecordFramed(EncodeRecord(r))
  {
    hide WriteU32, WriteU16, ReadU32, ReadU16, EncodeRecord;
    EncodedRecordSlices(r);
    U32RoundTrip(r.waitBefore, Zeros(4));
    U32RoundTrip(r.hold, Zeros(4));
    U32RoundTrip(r.waitAfter, Zeros(4));
    U32RoundTrip(r.sourceIndex, Zeros(4));
    U16RoundTrip(r.flags, Zeros(2));
  }

  lemma EncodeDecodedRecord(b: seq<byte>)
    requires |b| == RECORD_BYTES && RecordFramed(b)
    ensures EncodeRecord(RecordFields(b)) == b
  {
    hide WriteU32, WriteU16, ReadU32, ReadU16;
    U32RoundTrip(0, b[0..4]);
    U32RoundTrip(0, b[4..8]);
    U32RoundTrip(0, b[8..12]);
    U32RoundTrip(0, b[12..16]);
    U16RoundTrip(0, b[18..20]);
    ZerosUnique(b[22..32]);
    RecordPieces(b);
  }

  lemma RecordPieces(b: seq<byte>)
    requires |b| == RECORD_BYTES
    ensures b == b[0..4] + b[4..8] + b[8..12] + b[12..16] + ([b[16], b[17]] + b[18..20] + [b[20], b[21]] + b[22..32])
  {}

  lemma ModifierBits(m: byte)
    ensures (Bits(m) & !0x03 != 0) <==> m > 3
  {
    BitsSmall(Bits(m));
  }

  lemma BitsSmall(b: bv8)
    ensures (b & !0x03 != 0) <==> b > 3
  {}

  lemma FlagRule(r: Record)
    ensures !RecordFlagsBad(r) <==>
      r.flags < 0x10 && IsReleaseAll(r) && (IsSource(r) <==> !IsTechnical(r)) && (IsCleanup(r) ==> IsTechnical(r))
  {}

  lemma RecordFormMeaning(b: seq<byte>, maxDelayUs: u32)
    requires |b| == RECORD_BYTES
    ensures RecordFormError(b, maxDelayUs) == OK <==> RecordFramed(b) && ValidRecord(RecordFields(b), maxDelayUs)
  {
    var r := RecordFields(b);
    ModifierBits(r.modifier);
    FlagRule(r);
    hide ReadU32, ReadU16, RecordFlagsBad, Bits, RecordFields, SupportedKeycode, AllZero;
  }
}
