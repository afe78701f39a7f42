/** Encoder and decoder undo each other, and the decoder's decision is the documented validity. */
module ScheduleCodec {
  import opened Bytes
  import opened Schedule
  import Fips180

  // ---- Header ------------------------------------------------------------------

  lemma EncodedPreambleSlices(h: Header)
    ensures var b := EncodePreamble(h);
      && b[0..8] == MAGIC && b[8] == h.major && b[9] == h.minor && b[10] == h.format && b[11] == 1
      && b[12..14] == WriteU16(96) && b[14..16] == WriteU16(32) && b[16..20] == WriteU32(3)
      && b[20..24] == WriteU32(h.actionCount) && b[24..28] == WriteU32(h.payloadBytes)
      && b[28..32] == WriteU32(h.sourceCharacters) && b[32..40] == WriteU64(h.durationUs)
  {
    hide WriteU64, WriteU32, WriteU16;
  }

  lemma EncodedHeaderSlices(h: Header)
    requires Sized(h)
    ensures EncodeHeader(h)[..40] == EncodePreamble(h)
    ensures EncodeHeader(h)[40..56] == h.jobId && EncodeHeader(h)[56..88] == h.payloadSha256
    ensures EncodeHeader(h)[88..96] == Zeros(8)
  {
    hide EncodePreamble, Zeros;
  }

  lemma PreambleSlices(b: seq<byte>)
    requires |b| == HEADER_BYTES
    ensures var p := b[..40];
      && p[0..8] == b[0..8] && p[12..14] == b[12..14] && p[14..16] == b[14..16] && p[16..20] == b[16..20]
      && p[20..24] == b[20..24] && p[24..28] == b[24..28] && p[28..32] == b[28..32] && p[32..40] == b[32..40]
  {}

  lemma DecodeEncodedHeader(h: Header)
    requires Sized(h)
    ensures HeaderFields(EncodeHeader(h)) == h
    ensures h.major == 1 && h.format == 1 ==> HeaderFormError(EncodeHeader(h)) == OK
  {
    hide WriteU64, WriteU32, WriteU16, ReadU64, ReadU32, ReadU16, EncodePreamble, EncodeHeader, Zeros;
    EncodedPreambleSlices(h);
    EncodedHeaderSlices(h);
    PreambleSlices(EncodeHeader(h));
    PreambleBytes(EncodeHeader(h));
    U16RoundTrip(96, Zeros(2));
    U16RoundTrip(32, Zeros(2));
    U32RoundTrip(3, Zeros(4));
    U32RoundTrip(h.actionCount, Zeros(4));
    U32RoundTrip(h.payloadBytes, Zeros(4));
    U32RoundTrip(h.sourceCharacters, Zeros(4));
    U64RoundTrip(h.durationUs, Zeros(8));
  }

  lemma PreambleBytes(b: seq<byte>)
    requires |b| == HEADER_BYTES
    ensures forall k :: 0 <= k < 40 ==> b[..40][k] == b[k]
  {}

  lemma HeaderPieces(b: seq<byte>)
    requires |b| == HEADER_BYTES
    ensures b == b[..40] + b[40..56] + b[56..88] + b[88..96]
  {}

  lemma PreamblePieces(p: seq<byte>)
    requires |p| == 40
    ensures p == p[0..8] + ([p[8], p[9], p[10], p[11]] + p[12..14] + p[14..16]) + p[16..20]
      + p[20..24] + p[24..28] + p[28..32] + p[32..40]
  {}

  lemma EncodeDecodedHeader(b: seq<byte>)
    requires |b| == HEADER_BYTES && HeaderFormError(b) == OK
    ensures EncodeHeader(HeaderFields(b)) == b
    ensures HeaderFields(b).major == 1 && HeaderFields(b).format == 1
  {
    hide WriteU64, WriteU32, WriteU16, ReadU64, ReadU32, ReadU16;
    HeaderPieces(b);
    ZerosUnique(b[88..96]);
    PreamblePieces(b[..40]);
    PreambleSlices(b);
    PreambleBytes(b);
    U16RoundTrip(0, b[12..14]);
    U16RoundTrip(0, b[14..16]);
    U32RoundTrip(0, b[16..20]);
    U32RoundTrip(0, b[20..24]);
    U32RoundTrip(0, b[24..28]);
    U32RoundTrip(0, b[28..32]);
    U64RoundTrip(0, b[32..40]);
  }

  /** The form checks accept exactly the bytes the encoder writes for some header of version 1, format 1. */
  lemma HeaderFormMeaning(b: seq<byte>)
    requires |b| == HEADER_BYTES
    ensures HeaderFormError(b) == OK <==> b[8] == 1 && b[10] == 1 && EncodeHeader(HeaderFields(b)) == b
  {
    if HeaderFormError(b) == OK { EncodeDecodedHeader(b); }
    if b[8] == 1 && b[10] == 1 && EncodeHeader(HeaderFields(b)) == b { DecodeEncodedHeader(HeaderFields(b)); }
    hide HeaderFormError, EncodeHeader;
  }

  // ---- Payload -----------------------------------------------------------------

  lemma {:induction false} EncodedPayloadAt(rs: seq<Record>, i: nat)
    requires i < |rs|
    ensures EncodePayload(rs)[RECORD_BYTES * i..RECORD_BYTES * i + RECORD_BYTES] == EncodeRecord(rs[i])
  {
    hide EncodeRecord;
    var init := rs[..|rs| - 1];
    if i < |rs| - 1 {
      EncodedPayloadAt(init, i);
      assert EncodePayload(rs)[RECORD_BYTES * i..RECORD_BYTES * i + RECORD_BYTES]
          == EncodePayload(init)[RECORD_BYTES * i..RECORD_BYTES * i + RECORD_BYTES];
    }
  }

  lemma EncodedRecordAt(h: Header, rs: seq<Record>, i: nat)
    requires Sized(h) && i < |rs|
    ensures RecordBytesAt(Encode(h, rs), i) == EncodeRecord(rs[i])
    ensures RecordAt(Encode(h, rs), i) == rs[i]
  {
    hide EncodeHeader, EncodePayload, EncodeRecord, RecordFields;
    EncodedPayloadAt(rs, i);
    DecodeEncodedRecord(rs[i]);
    var p := EncodePayload(rs);
    assert RecordBytesAt(Encode(h, rs), i) == p[RECORD_BYTES * i..RECORD_BYTES * i + RECORD_BYTES];
  }

  lemma {:induction false} DecodeEncodedRecords(h: Header, rs: seq<Record>, n: nat)
    requires Sized(h) && n <= |rs|
    ensures RecordsOf(Encode(h, rs), n) == rs[..n]
  {
    hide Encode, RecordAt;
    if n > 0 {
      DecodeEncodedRecords(h, rs, n - 1);
      EncodedRecordAt(h, rs, n - 1);
    }
  }

  lemma {:induction false} RecordsOfAt(file: seq<byte>, n: nat, i: nat)
    requires HEADER_BYTES + RECORD_BYTES * n <= |file| && i < n
    ensures RecordsOf(file, n)[i] == RecordAt(file, i)
  {
    hide RecordAt;
    if i < n - 1 { RecordsOfAt(file, n - 1, i); }
  }

  lemma {:induction false} EncodeDecodedRecords(file: seq<byte>, n: nat)
    requires HEADER_BYTES + RECORD_BYTES * n <= |file|
    requires forall i :: 0 <= i < n ==> RecordFramed(RecordBytesAt(file, i))
    ensures EncodePayload(RecordsOf(file, n)) == file[HEADER_BYTES..HEADER_BYTES + RECORD_BYTES * n]
  {
    hide RecordFields, EncodeRecord, RecordFramed;
    if n > 0 {
      EncodeDecodedRecords(file, n - 1);
      EncodeDecodedRecord(RecordBytesAt(file, n - 1));
      var rs := RecordsOf(file, n);
      assert rs[..n - 1] == RecordsOf(file, n - 1);
      SliceStep(file, n);
    }
  }

  lemma SliceStep(file: seq<byte>, n: nat)
    requires n > 0 && HEADER_BYTES + RECORD_BYTES * n <= |file|
    ensures file[HEADER_BYTES..HEADER_BYTES + RECORD_BYTES * n]
         == file[HEADER_BYTES..HEADER_BYTES + RECORD_BYTES * (n - 1)] + RecordBytesAt(file, n - 1)
  {}

  // ---- The record loop -----------------------------------------------------------

  predicate RecordsFree(file: seq<byte>, n: nat, sourceCharacters: u32, maxDelayUs: u32)
    requires n >= 3 && HEADER_BYTES + RECORD_BYTES * n <= |file|
  {
    forall i :: 0 <= i < n ==> RecordError(file, i, n, sourceCharacters, maxDelayUs) == OK
  }

  lemma {:induction false} RecordsErrorMeaning(file: seq<byte>, i: nat, n: nat, h: Header, maxDelayUs: u32)
    requires i <= n && n >= 3
    requires HEADER_BYTES + RECORD_BYTES * n <= |file|
    ensures RecordsError(file, i, n, h, maxDelayUs) == OK <==>
      (forall k :: i <= k < n ==> RecordError(file, k, n, h.sourceCharacters, maxDelayUs) == OK)
      && TotalUs(RecordsOf(file, n)) == h.durationUs as nat
    decreases n - i
  {
    hide RecordError, TotalUs, RecordsOf;
    if i < n { RecordsErrorMeaning(file, i + 1, n, h, maxDelayUs); }
  }

  /** One record's verdict, in terms of the decoded records. */
  lemma {:induction false} RecordErrorMeaning(file: seq<byte>, rs: seq<Record>, i: nat, n: nat, sourceCharacters: u32,
    maxDelayUs: u32)
    requires i < n && n >= 3 && HEADER_BYTES + RECORD_BYTES * n <= |file|
    requires rs == RecordsOf(file, n)
    ensures RecordError(file, i, n, sourceCharacters, maxDelayUs) == OK <==>
      && RecordFramed(RecordBytesAt(file, i))
      && ValidRecord(rs[i], maxDelayUs)
      && (i > 0 ==> rs[i - 1].sourceIndex <= rs[i].sourceIndex)
      && rs[i].sourceIndex <= sourceCharacters
      && (IsSource(rs[i]) ==> rs[i].sourceIndex > 0)
      && (IsCleanup(rs[i]) <==> i >= n - 3)
      && (i >= n - 3 ==> CleanupKey(rs[i], i - (n - 3)))
  {
    hide RecordFormError, RecordFields, RecordFramed, ValidRecord, HasFlag, CleanupKey, RecordBytesAt, RecordsOf;
    RecordFormMeaning(RecordBytesAt(file, i), maxDelayUs);
    RecordsOfAt(file, n, i);
    if i > 0 { RecordsOfAt(file, n, i - 1); }
  }

  lemma {:induction false} AdjacentOrderIsOrder(rs: seq<Record>, i: nat, j: nat)
    requires i < j < |rs|
    requires forall k :: 0 < k < |rs| ==> rs[k - 1].sourceIndex <= rs[k].sourceIndex
    ensures rs[i].sourceIndex <= rs[j].sourceIndex
    decreases j - i
  {
    assert rs[(i + 1) - 1].sourceIndex <= rs[i + 1].sourceIndex;
    if i + 1 < j { AdjacentOrderIsOrder(rs, i + 1, j); }
  }

  predicate AllFramed(file: seq<byte>, n: nat)
    requires HEADER_BYTES + RECORD_BYTES * n <= |file|
  {
    forall i :: 0 <= i < n ==> RecordFramed(RecordBytesAt(file, i))
  }

  lemma {:induction false} RecordsFreeIsSound(file: seq<byte>, rs: seq<Record>, n: nat, sourceCharacters: u32,
    maxDelayUs: u32)
    requires n >= 3 && HEADER_BYTES + RECORD_BYTES * n <= |file|
    requires rs == RecordsOf(file, n)
    requires RecordsFree(file, n, sourceCharacters, maxDelayUs)
    ensures AllFramed(file, n)
    ensures forall i :: 0 <= i < |rs| ==> ValidRecord(rs[i], maxDelayUs)
    ensures SourceIndexesInOrder(rs, sourceCharacters)
    ensures EndsWithCleanup(rs)
  {
    hide RecordFramed, ValidRecord, HasFlag, RecordsOf, RecordError;
    forall i | 0 <= i < n
      ensures RecordFramed(RecordBytesAt(file, i)) && ValidRecord(rs[i], maxDelayUs)
      ensures (i > 0 ==> rs[i - 1].sourceIndex <= rs[i].sourceIndex) && rs[i].sourceIndex <= sourceCharacters
      ensures (IsSource(rs[i]) ==> rs[i].sourceIndex > 0) && (IsCleanup(rs[i]) <==> i >= n - 3)
      ensures i >= n - 3 ==> CleanupKey(rs[i], i - (n - 3))
    {
      RecordErrorMeaning(file, rs, i, n, sourceCharacters, maxDelayUs);
    }
    forall i, j | 0 <= i < j < n ensures rs[i].sourceIndex <= rs[j].sourceIndex {
      AdjacentOrderIsOrder(rs, i, j);
    }
    assert CleanupKey(rs[n - 3], 0) && CleanupKey(rs[n - 2], 1) && CleanupKey(rs[n - 1], 2);
  }

  lemma {:induction false} RecordsFreeIsComplete(file: seq<byte>, rs: seq<Record>, n: nat, sourceCharacters: u32,
    maxDelayUs: u32)
    requires n >= 3 && HEADER_BYTES + RECORD_BYTES * n <= |file|
    requires rs == RecordsOf(file, n) && AllFramed(file, n)
    requires forall i :: 0 <= i < |rs| ==> ValidRecord(rs[i], maxDelayUs)
    requires SourceIndexesInOrder(rs, sourceCharacters)
    requires EndsWithCleanup(rs)
    ensures RecordsFree(file, n, sourceCharacters, maxDelayUs)
  {
    hide RecordFramed, ValidRecord, HasFlag, RecordsOf, RecordError;
    forall i | 0 <= i < n ensures RecordError(file, i, n, sourceCharacters, maxDelayUs) == OK {
      RecordErrorMeaning(file, rs, i, n, sourceCharacters, maxDelayUs);
    }
  }

  // ---- The decision ----------------------------------------------------------------

  /** What the file decodes to, once its header is known to fit. */
  function ScheduleOf(file: seq<byte>): (s: (Header, seq<Record>))
    requires |file| >= HEADER_BYTES
    requires |file| == HEADER_BYTES + RECORD_BYTES * HeaderFields(file[..HEADER_BYTES]).actionCount as nat
  {
    var h := HeaderFields(file[..HEADER_BYTES]);
    (h, RecordsOf(file, h.actionCount as nat))
  }

  /** The file is the encoding of a valid schedule. */
  ghost predicate Conforms(file: seq<byte>, limits: Limits) {
    UsableLimits(limits) && exists h, rs :: ValidSchedule(h, rs, limits) && file == Encode(h, rs)
  }

  lemma HeaderSizeMeaning(h: Header, size: nat, limits: Limits)
    requires Sized(h) && size <= limits.maxEncodedBytes as nat
    ensures HeaderSizeError(h, size, limits) == OK <==>
      FitsLimits(h, limits) && size == HEADER_BYTES + RECORD_BYTES * h.actionCount as nat
      && h.sourceCharacters > 0 && !AllZero(h.jobId)
  {}

  /** An accepted file re-encodes to itself from its decoded schedule, which is valid. */
  lemma AcceptedIsEncoding(file: seq<byte>, limits: Limits)
    requires Decide(file, limits) == OK
    ensures UsableLimits(limits) && |file| >= HEADER_BYTES
    ensures |file| == HEADER_BYTES + RECORD_BYTES * HeaderFields(file[..HEADER_BYTES]).actionCount as nat
    ensures ValidSchedule(ScheduleOf(file).0, ScheduleOf(file).1, limits)
    ensures file == Encode(ScheduleOf(file).0, ScheduleOf(file).1)
  {
    hide Fips180.Sha256, HeaderFields, HeaderFormError, HeaderSizeError, RecordError, RecordsOf, EncodeHeader,
      EncodePayload, TotalUs, FitsLimits, AllZero, RecordsError, ValidRecord, RecordFramed;
    var head := file[..HEADER_BYTES];
    var h := HeaderFields(head);
    var n := h.actionCount as nat;
    HeaderSizeMeaning(h, |file|, limits);
    EncodeDecodedHeader(head);
    RecordsErrorMeaning(file, 0, n, h, limits.maxDelayUs);
    var rs := RecordsOf(file, n);
    RecordsFreeIsSound(file, rs, n, h.sourceCharacters, limits.maxDelayUs);
    EncodeDecodedRecords(file, n);
    assert PayloadOf(file) == file[HEADER_BYTES..HEADER_BYTES + RECORD_BYTES * n];
  }

  /** Decoding an encoded valid schedule accepts it and gives it back. */
  lemma EncodingIsAccepted(h: Header, rs: seq<Record>, limits: Limits)
    requires UsableLimits(limits) && ValidSchedule(h, rs, limits)
    ensures Decide(Encode(h, rs), limits) == OK
    ensures HeaderFields(Encode(h, rs)[..HEADER_BYTES]) == h
    ensures ScheduleOf(Encode(h, rs)) == (h, rs)
  {
    hide Fips180.Sha256, HeaderFields, HeaderFormError, HeaderSizeError, RecordError, RecordsOf, EncodeHeader,
      EncodePayload, TotalUs, AllZero, RecordsError, ValidRecord, RecordFramed, EncodeRecord, RecordBytesAt,
      RecordAt, SourceIndexesInOrder, EndsWithCleanup;
    var file, n := Encode(h, rs), |rs|;
    assert file[..HEADER_BYTES] == EncodeHeader(h);
    assert PayloadOf(file) == EncodePayload(rs);
    DecodeEncodedHeader(h);
    HeaderSizeMeaning(h, |file|, limits);
    DecodeEncodedRecords(h, rs, n);
    assert rs[..n] == rs;
    EncodingIsFramed(h, rs);
    CleanupNeedsThree(rs);
    RecordsFreeIsComplete(file, rs, n, h.sourceCharacters, limits.maxDelayUs);
    RecordsErrorMeaning(file, 0, n, h, limits.maxDelayUs);
  }

  lemma CleanupNeedsThree(rs: seq<Record>)
    requires EndsWithCleanup(rs)
    ensures |rs| >= 3
  {}

  lemma EncodingIsFramed(h: Header, rs: seq<Record>)
    requires Sized(h)
    ensures AllFramed(Encode(h, rs), |rs|)
  {
    hide Encode, RecordFramed, EncodeRecord, RecordBytesAt;
    forall i | 0 <= i < |rs| ensures RecordFramed(RecordBytesAt(Encode(h, rs), i)) {
      EncodedRecordAt(h, rs, i);
      DecodeEncodedRecord(rs[i]);
    }
  }

  /** The decision accepts exactly the encodings of valid schedules. */
  lemma DecisionIsConformance(file: seq<byte>, limits: Limits)
    ensures Decide(file, limits) == OK <==> Conforms(file, limits)
  {
    hide Decide, Encode, UsableLimits, ValidRecords, FitsLimits, Fips180.Sha256;
    if Decide(file, limits) == OK {
      AcceptedIsEncoding(file, limits);
    }
    if Conforms(file, limits) {
      var h, rs :| ValidSchedule(h, rs, limits) && file == Encode(h, rs);
      EncodingIsAccepted(h, rs, limits);
    }
  }

  /** No two valid schedules share an encoding. */
  lemma EncodingIsInjective(h: Header, rs: seq<Record>, g: Header, qs: seq<Record>, limits: Limits)
    requires UsableLimits(limits) && ValidSchedule(h, rs, limits) && ValidSchedule(g, qs, limits)
    requires Encode(h, rs) == Encode(g, qs)
    ensures h == g && rs == qs
  {
    hide Decide, Encode, ScheduleOf, UsableLimits;
    EncodingIsAccepted(h, rs, limits);
    EncodingIsAccepted(g, qs, limits);
  }

  /** In an accepted file every record reads back well-formed. */
  lemma AcceptedRecord(file: seq<byte>, limits: Limits, i: nat)
    requires Decide(file, limits) == OK
    requires |file| >= HEADER_BYTES && i < HeaderFields(file[..HEADER_BYTES]).actionCount as nat
    ensures |file| == HEADER_BYTES + RECORD_BYTES * HeaderFields(file[..HEADER_BYTES]).actionCount as nat
    ensures RecordFormError(RecordBytesAt(file, i), limits.maxDelayUs) == OK
  {
    hide Fips180.Sha256, HeaderFields, HeaderFormError, HeaderSizeError, PlaceError, RecordFormError, RecordsOf,
      TotalUs, RecordsError;
    var h := HeaderFields(file[..HEADER_BYTES]);
    var n := h.actionCount as nat;
    HeaderSizeMeaning(h, |file|, limits);
    RecordsErrorMeaning(file, 0, n, h, limits.maxDelayUs);
    assert RecordError(file, i, n, h.sourceCharacters, limits.maxDelayUs) == OK;
  }

  /** The records of an accepted file. */
  ghost function RecordsIn(file: seq<byte>): (rs: seq<Record>)
    requires |file| >= HEADER_BYTES
    requires |file| == HEADER_BYTES + RECORD_BYTES * HeaderFields(file[..HEADER_BYTES]).actionCount as nat
    ensures |rs| == HeaderFields(file[..HEADER_BYTES]).actionCount as nat
  {
    RecordsOf(file, HeaderFields(file[..HEADER_BYTES]).actionCount as nat)
  }
}
