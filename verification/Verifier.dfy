/** The streaming schedule verifier: it takes the decision of `Schedule.Decide` whenever no call fails. */
module Verifier {
  import opened Bytes
  import opened Schedule
  import opened ScheduleCodec
  import opened Storage
  import Fips180

  /** A random-access file of known size. */
  datatype Reader = Reader(storage: Flash, sizeBytes: u64)

  const TOKEN: u32 := 0x5459_5058

  datatype VerifiedSchedule = VerifiedSchedule(token: u32, reader: Reader, limits: Limits, header: Header)

  predicate IsVerified(schedule: VerifiedSchedule) { schedule.token == TOKEN }

  /** The backing store really holds the file. */
  ghost predicate Backed(reader: Reader) { reader.sizeBytes as nat <= reader.storage.cells.Length }

  ghost function File(reader: Reader): (file: seq<byte>)
    requires Backed(reader)
    reads reader.storage.cells
    ensures |file| == reader.sizeBytes as nat
  {
    reader.storage.cells[..reader.sizeBytes]
  }

  lemma FileSlice(reader: Reader, offset: nat, length: nat)
    requires Backed(reader) && offset + length <= reader.sizeBytes as nat
    ensures reader.storage.cells[offset..offset + length] == File(reader)[offset..offset + length]
  {
    var cells := reader.storage.cells[..];
    Subslice(cells, 0, reader.sizeBytes as nat, offset, offset + length);
    assert cells[0..reader.sizeBytes] == File(reader);
    assert cells[offset..offset + length] == reader.storage.cells[offset..offset + length];
  }

  /** The digests are fed through a buffer of this size. */
  const BUFFER_BYTES: nat := 256

  method ReadExact(reader: Reader, offset: nat, length: nat, room: nat) returns (ok: bool, data: seq<byte>)
    requires Backed(reader) && length <= room
    modifies reader.storage`faults
    ensures reader.storage.faults >= old(reader.storage.faults)
    ensures ok <==> offset + length <= reader.sizeBytes as nat && reader.storage.faults == old(reader.storage.faults)
    ensures ok ==> data == File(reader)[offset..offset + length]
  {
    data := [];
    if offset > reader.sizeBytes as nat || length > reader.sizeBytes as nat - offset { return false, data; }
    ok, data := reader.storage.Read(offset, length, room);
    if ok { FileSlice(reader, offset, length); }
  }

  function DecodeRecord(b: seq<byte>, maxDelayUs: u32): (Error, Record)
    requires |b| == RECORD_BYTES
  {
    (RecordFormError(b, maxDelayUs), RecordFields(b))
  }

  method ReadRecordUnverified(reader: Reader, index: nat, maxDelayUs: u32) returns (error: Error, record: Record)
    requires Backed(reader)
    requires HEADER_BYTES + RECORD_BYTES * (index + 1) <= reader.sizeBytes as nat
    modifies reader.storage`faults
    ensures reader.storage.faults >= old(reader.storage.faults)
    ensures reader.storage.faults == old(reader.storage.faults) ==>
      error == RecordFormError(RecordBytesAt(File(reader), index), maxDelayUs)
    ensures reader.storage.faults > old(reader.storage.faults) ==> error == READER_ERROR
    ensures error == OK ==> record == RecordAt(File(reader), index)
  {
    hide RecordFormError, RecordFields;
    record := Record(0, 0, 0, 0, 0, 0, 0);
    var ok, bytes := ReadExact(reader, HEADER_BYTES + index * RECORD_BYTES, RECORD_BYTES, RECORD_BYTES);
    if !ok { return READER_ERROR, record; }
    var decoded := DecodeRecord(bytes, maxDelayUs);
    error, record := decoded.0, decoded.1;
  }

  /** Hashes the payload through a 256-byte buffer. */
  method VerifyPayloadSha256(reader: Reader, header: Header, sha: DigestProvider) returns (error: Error)
    requires Backed(reader) && sha.Ready()
    requires reader.sizeBytes as nat == HEADER_BYTES + header.payloadBytes as nat
    modifies reader.storage`faults, sha, sha.context, sha.context.state, sha.context.block
    ensures reader.storage.faults >= old(reader.storage.faults) && sha.faults >= old(sha.faults)
    ensures reader.storage.faults == old(reader.storage.faults) && sha.faults == old(sha.faults) ==>
      error == if Fips180.Sha256(PayloadOf(File(reader))) == header.payloadSha256 then OK else CHECKSUM_MISMATCH
    ensures !(reader.storage.faults == old(reader.storage.faults) && sha.faults == old(sha.faults)) ==>
      error == READER_ERROR
  {
    hide Fips180.Sha256, DigestProvider.Absorbed;
    ghost var file := File(reader);
    var offset, remaining := HEADER_BYTES, header.payloadBytes as nat;
    var ok := sha.Begin();
    if !ok { return READER_ERROR; }
    ghost var hashed: seq<byte> := [];
    while remaining > 0
      invariant offset + remaining == reader.sizeBytes as nat
      invariant HEADER_BYTES <= offset && hashed == file[HEADER_BYTES..offset]
      invariant sha.Absorbed(hashed)
      invariant reader.storage.faults == old(reader.storage.faults) && sha.faults == old(sha.faults)
    {
      var chunk := if remaining < 256 then remaining else 256;
      var readOk, buffer := ReadExact(reader, offset, chunk, BUFFER_BYTES);
      if !readOk { return READER_ERROR; }
      var updateOk := sha.Update(hashed, buffer);
      if !updateOk { return READER_ERROR; }
      assert file[HEADER_BYTES..offset] + buffer == file[HEADER_BYTES..offset + chunk];
      hashed := hashed + buffer;
      offset, remaining := offset + chunk, remaining - chunk;
    }
    assert hashed == PayloadOf(file);
    var finishOk, digest := sha.Finish(hashed);
    if !finishOk { return READER_ERROR; }
    return if digest == header.payloadSha256 then OK else CHECKSUM_MISMATCH;
  }

  /** Any count whose payload length fits 32 bits keeps the duration sum below 2^61. */
  lemma {:induction false} DurationBound(rs: seq<Record>)
    ensures TotalUs(rs) <= |rs| * (3 * U32_MAX)
    ensures |rs| * RECORD_BYTES <= U32_MAX ==> |rs| < 0x800_0000 && TotalUs(rs) < 0x2000_0000_0000_0000
  {
    if rs != [] { DurationBound(rs[..|rs| - 1]); }
  }

  /** Three records or more, each held 8000 us, never sum to nothing. */
  lemma {:induction false} DurationPositive(rs: seq<Record>)
    requires rs != [] && rs[|rs| - 1].hold > 0
    ensures TotalUs(rs) > 0
  {}

  method ValidateRecords(reader: Reader, limits: Limits, header: Header) returns (error: Error)
    requires Backed(reader)
    requires header.actionCount as nat * RECORD_BYTES <= U32_MAX
    requires reader.sizeBytes as nat == HEADER_BYTES + RECORD_BYTES * header.actionCount as nat
    modifies reader.storage`faults
    ensures reader.storage.faults >= old(reader.storage.faults)
    ensures reader.storage.faults == old(reader.storage.faults) ==>
      error == if header.actionCount < 3 then FINAL_CLEANUP_INVALID
               else RecordsError(File(reader), 0, header.actionCount as nat, header, limits.maxDelayUs)
    ensures reader.storage.faults > old(reader.storage.faults) ==> error == READER_ERROR
  {
    hide RecordFormError, RecordFields, RecordBytesAt, HasFlag;
    if header.actionCount < 3 { return FINAL_CLEANUP_INVALID; }
    ghost var file := File(reader);
    ghost var n := header.actionCount as nat;
    var previousSourceIndex: u32, totalDuration: u64 := 0, 0;
    var index := 0;
    while index < header.actionCount as nat
      invariant index <= n
      invariant reader.storage.faults == old(reader.storage.faults)
      invariant previousSourceIndex == if index == 0 then 0 else RecordAt(file, index - 1).sourceIndex
      invariant totalDuration as nat == TotalUs(RecordsOf(file, index))
      invariant RecordsError(file, 0, n, header, limits.maxDelayUs) ==
        RecordsError(file, index, n, header, limits.maxDelayUs)
      invariant index > 0 ==> RecordAt(file, index - 1).hold == HOLD_US
    {
      var formError, record := ReadRecordUnverified(reader, index, limits.maxDelayUs);
      if formError != OK { return formError; }
      AcceptedHold(file, index, limits.maxDelayUs);
      error := JudgeRecord(header, index, record, previousSourceIndex);
      if error != OK { return error; }
      previousSourceIndex := record.sourceIndex;
      var recordDuration := record.waitBefore as nat + record.hold as nat + record.waitAfter as nat;
      AppendedRecord(file, index);
      DurationBound(RecordsOf(file, index + 1));
      if U64_MAX - totalDuration < recordDuration { return INTEGER_OVERFLOW; }
      totalDuration := totalDuration + recordDuration;
      index := index + 1;
    }
    LastOfRecords(file, n);
    DurationPositive(RecordsOf(file, n));
    return if totalDuration == header.durationUs && totalDuration > 0 then OK else TOTAL_DURATION_INVALID;
  }

  lemma AcceptedHold(file: seq<byte>, index: nat, maxDelayUs: u32)
    requires HEADER_BYTES + RECORD_BYTES * (index + 1) <= |file|
    requires RecordFormError(RecordBytesAt(file, index), maxDelayUs) == OK
    ensures RecordAt(file, index).hold == HOLD_US
  {
    hide RecordFields, RecordBytesAt;
  }

  lemma AppendedRecord(file: seq<byte>, index: nat)
    requires HEADER_BYTES + RECORD_BYTES * (index + 1) <= |file|
    ensures TotalUs(RecordsOf(file, index + 1)) == TotalUs(RecordsOf(file, index)) + RecordUs(RecordAt(file, index))
  {
    hide RecordAt;
    var rs := RecordsOf(file, index + 1);
    assert rs[..|rs| - 1] == RecordsOf(file, index);
  }

  lemma {:induction false} LastOfRecords(file: seq<byte>, n: nat)
    requires n > 0 && HEADER_BYTES + RECORD_BYTES * n <= |file|
    ensures RecordsOf(file, n) != [] && RecordsOf(file, n)[n - 1] == RecordAt(file, n - 1)
  {
    hide RecordAt;
  }

  const CLEANUP_MODIFIERS: seq<byte> := [0x00, 0x03, 0x00]
  const CLEANUP_KEYCODES: seq<byte> := [0x29, 0x4d, 0x4c]

  /** The checks that need the record's neighbours and its place in the schedule. */
  method JudgeRecord(header: Header, index: nat, record: Record, previousSourceIndex: u32) returns (error: Error)
    requires 3 <= header.actionCount && index < header.actionCount as nat
    ensures error == PlaceError(record, previousSourceIndex, index, header.actionCount as nat, header.sourceCharacters)
  {
    hide HasFlag;
    var shouldBeCleanup := index >= header.actionCount as nat - 3;
    if record.sourceIndex < previousSourceIndex || record.sourceIndex > header.sourceCharacters
      || (IsSource(record) && record.sourceIndex == 0) {
      return SOURCE_INDEX_INVALID;
    }
    if IsCleanup(record) != shouldBeCleanup { return FINAL_CLEANUP_INVALID; }
    if shouldBeCleanup {
      var cleanupIndex := index - (header.actionCount as nat - 3);
      if record.modifier != CLEANUP_MODIFIERS[cleanupIndex] || record.keycode != CLEANUP_KEYCODES[cleanupIndex] {
        return FINAL_CLEANUP_INVALID;
      }
    }
    return OK;
  }

  method Verify(reader: Reader, limits: Limits, sha: DigestProvider) returns (error: Error, schedule: VerifiedSchedule)
    requires Backed(reader) && sha.Ready()
    modifies reader.storage`faults, sha, sha.context, sha.context.state, sha.context.block
    ensures reader.storage.faults >= old(reader.storage.faults) && sha.faults >= old(sha.faults)
    ensures reader.storage.faults == old(reader.storage.faults) && sha.faults == old(sha.faults) ==>
      error == Decide(File(reader), limits)
    ensures !(reader.storage.faults == old(reader.storage.faults) && sha.faults == old(sha.faults)) ==>
      error == READER_ERROR
    ensures error == OK <==>
      reader.storage.faults == old(reader.storage.faults) && sha.faults == old(sha.faults)
        && Conforms(File(reader), limits)
    ensures error == OK <==> IsVerified(schedule)
    ensures error == OK ==>
      schedule == VerifiedSchedule(TOKEN, reader, limits, HeaderFields(File(reader)[..HEADER_BYTES]))
  {
    hide Fips180.Sha256, RecordsError, HeaderFormError, HeaderFields, ReadU64, ReadU32, ReadU16, AllZero, Conforms;
    DecisionIsConformance(File(reader), limits);
    schedule := VerifiedSchedule(0, reader, limits, EMPTY_HEADER);
    if limits.maxEncodedBytes as nat < HEADER_BYTES || limits.maxRecordCount == 0 || limits.maxDelayUs == 0 {
      return HEADER_INVALID, schedule;
    }
    if reader.sizeBytes as nat < HEADER_BYTES { return HEADER_INVALID, schedule; }
    if reader.sizeBytes > limits.maxEncodedBytes { return SCHEDULE_LIMIT_EXCEEDED, schedule; }
    var ok, bytes := ReadExact(reader, 0, HEADER_BYTES, HEADER_BYTES);
    if !ok { return READER_ERROR, schedule; }
    assert bytes == File(reader)[..HEADER_BYTES];
    error := CheckHeaderForm(bytes);
    if error != OK { return error, schedule; }
    var header := HeaderFields(bytes);
    error := CheckHeaderSizes(header, reader.sizeBytes, limits);
    if error != OK { return error, schedule; }
    error := VerifyPayloadSha256(reader, header, sha);
    if error != OK { return error, schedule; }
    error := ValidateRecords(reader, limits, header);
    if error != OK { return error, schedule; }
    schedule := VerifiedSchedule(TOKEN, reader, limits, header);
  }

  const EMPTY_HEADER := Header(0, 0, 0, 0, 0, 0, 0, Zeros(16), Zeros(32))

  /** Accepts exactly the bytes that the encoder would write for the header they decode to. */
  method CheckHeaderForm(bytes: seq<byte>) returns (error: Error)
    requires |bytes| == HEADER_BYTES
    ensures error == OK <==> bytes[8] == 1 && bytes[10] == 1 && EncodeHeader(HeaderFields(bytes)) == bytes
    ensures error == HeaderFormError(bytes)
  {
    hide ReadU32, ReadU16, AllZero, EncodeHeader, HeaderFields;
    HeaderFormMeaning(bytes);
    if bytes[0..8] != MAGIC { return HEADER_INVALID; }
    if bytes[8] != 1 || bytes[10] != 1 { return VERSION_INCOMPATIBLE; }
    if bytes[11] != 1 || ReadU16(bytes[12..14]) != 96 || ReadU16(bytes[14..16]) != 32 { return HEADER_INVALID; }
    if ReadU32(bytes[16..20]) != 0x0000_0003 { return FLAGS_INVALID; }
    if !AllZero(bytes[88..96]) { return RESERVED_FIELD_NONZERO; }
    return OK;
  }

  /** The size arithmetic, with the two branches no input can take. */
  method CheckHeaderSizes(header: Header, sizeBytes: u64, limits: Limits) returns (error: Error)
    requires sizeBytes <= limits.maxEncodedBytes
    ensures error == HeaderSizeError(header, sizeBytes as nat, limits)
    ensures error == OK ==> header.actionCount as nat * RECORD_BYTES <= U32_MAX
    ensures error == OK ==> sizeBytes as nat == HEADER_BYTES + RECORD_BYTES * header.actionCount as nat
    ensures error == OK ==> header.payloadBytes as nat == RECORD_BYTES * header.actionCount as nat
  {
    hide AllZero;
    if header.actionCount == 0 || header.actionCount > limits.maxRecordCount { return SCHEDULE_LIMIT_EXCEEDED; }
    var expectedPayload: u64 := header.actionCount as nat * RECORD_BYTES;
    if expectedPayload as nat > U32_MAX { return INTEGER_OVERFLOW; }
    if header.payloadBytes as nat != expectedPayload as nat { return ACTION_COUNT_MISMATCH; }
    if U64_MAX - HEADER_BYTES < expectedPayload as nat { return INTEGER_OVERFLOW; }
    var expectedSize: u64 := HEADER_BYTES + expectedPayload as nat;
    if expectedSize != sizeBytes { return PAYLOAD_SIZE_INVALID; }
    if expectedSize > limits.maxEncodedBytes { return SCHEDULE_LIMIT_EXCEEDED; }
    if header.sourceCharacters == 0 || AllZero(header.jobId) {
      return if header.sourceCharacters == 0 then SOURCE_INDEX_INVALID else JOB_ID_INVALID;
    }
    return OK;
  }

  method ReadRecord(schedule: VerifiedSchedule, index: nat) returns (error: Error, record: Record)
    requires Backed(schedule.reader)
    requires IsVerified(schedule) ==>
      schedule.reader.sizeBytes as nat == HEADER_BYTES + RECORD_BYTES * schedule.header.actionCount as nat
    modifies schedule.reader.storage`faults
    ensures schedule.reader.storage.faults >= old(schedule.reader.storage.faults)
    ensures !IsVerified(schedule) ==> error == NOT_VERIFIED
    ensures IsVerified(schedule) && index >= schedule.header.actionCount as nat ==> error == ACTION_COUNT_MISMATCH
    ensures IsVerified(schedule) && index < schedule.header.actionCount as nat ==>
      error == if schedule.reader.storage.faults == old(schedule.reader.storage.faults)
               then RecordFormError(RecordBytesAt(File(schedule.reader), index), schedule.limits.maxDelayUs)
               else READER_ERROR
    ensures error == OK ==> record == RecordAt(File(schedule.reader), index)
  {
    hide RecordFormError, RecordFields, RecordBytesAt;
    record := Record(0, 0, 0, 0, 0, 0, 0);
    if !IsVerified(schedule) { return NOT_VERIFIED, record; }
    if index >= schedule.header.actionCount as nat { return ACTION_COUNT_MISMATCH, record; }
    error, record := ReadRecordUnverified(schedule.reader, index, schedule.limits.maxDelayUs);
  }
}
