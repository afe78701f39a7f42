/** The staged upload: chunks, their checksums, finalization, and the life of a job. */
module Upload {
  import opened Bytes
  import opened Storage
  import opened Verifier
  import opened ChunkMap
  import opened ExecutionTrace
  import Schedule
  import ScheduleCodec
  import Fips180
  import Crc32

  const MAX_BYTES: nat := 512 * 1024
  const MAX_CHUNKS: nat := 128

  datatype Status =
    | IDLE | RECEIVING | VERIFYING | READY | COUNTDOWN | EXECUTING | STOPPING | STOPPED | COMPLETED
    | ERROR | INTERRUPTED_RESET

  datatype HidReadiness = HID_DISCONNECTED | HID_PENDING | HID_FAILED | HID_READY

  class WifiUpload {
    const storage: Flash
    const chunkLengths: array<u16>
    const chunkCrc32: array<bv32>
    var status: Status
    var lastError: UploadError
    var protocolError: Schedule.Error
    var executorError: ExecutorError
    var jobId: seq<byte>
    var expectedSha256: seq<byte>
    var expectedSize: u32
    var receivedBytes: u32
    var stopRequested: bool
    var completedRecords: u32
    var currentSourceIndex: u32
    var totalRecords: u32
    var verifiedSchedule: VerifiedSchedule

    ghost function Repr(): set<object> { {this, storage, storage.cells, chunkLengths, chunkCrc32} }

    ghost predicate Shaped() {
      && storage.cells.Length == MAX_BYTES && chunkLengths.Length == MAX_CHUNKS && chunkCrc32.Length == MAX_CHUNKS
      && chunkLengths as object != chunkCrc32 && storage.cells as object != chunkLengths
        && storage.cells as object != chunkCrc32
    }

    /** The staged bytes of the job. */
    ghost function StagedFile(): (file: seq<byte>)
      requires Shaped() && expectedSize as nat <= MAX_BYTES
      reads this`expectedSize, storage.cells
      ensures |file| == expectedSize as nat
    {
      storage.cells[..expectedSize]
    }

    /** The staged bytes of one chunk slot. */
    ghost function SlotBytes(i: nat, length: nat): (slot: seq<byte>)
      requires Shaped() && i < MAX_CHUNKS && length <= CHUNK_BYTES
      reads storage.cells
      ensures |slot| == length
    {
      storage.cells[CHUNK_BYTES * i..CHUNK_BYTES * i + length]
    }

    lemma SlotSlice(i: nat, length: nat, from: nat, n: nat)
      requires Shaped() && i < MAX_CHUNKS && length <= CHUNK_BYTES && from + n <= length
      ensures storage.cells[CHUNK_BYTES * i + from..CHUNK_BYTES * i + from + n] == SlotBytes(i, length)[from..from + n]
    {
      Subslice(storage.cells[..], CHUNK_BYTES * i, CHUNK_BYTES * i + length, from, from + n);
      assert storage.cells[..][CHUNK_BYTES * i..CHUNK_BYTES * i + length] == SlotBytes(i, length);
      assert storage.cells[..][CHUNK_BYTES * i + from..CHUNK_BYTES * i + from + n]
          == storage.cells[CHUNK_BYTES * i + from..CHUNK_BYTES * i + from + n];
    }

    ghost predicate SlotOk(i: nat)
      requires Shaped() && i < MAX_CHUNKS
      reads this`expectedSize, storage.cells, chunkLengths, chunkCrc32
    {
      chunkLengths[i] != 0 ==>
        && CHUNK_BYTES * i < expectedSize as nat
        && chunkLengths[i] as nat == SlotLength(expectedSize as nat, i)
        && chunkCrc32[i] == Crc32.RfcCrc(SlotBytes(i, chunkLengths[i] as nat))
    }

    ghost predicate SlotsOk()
      requires Shaped()
      reads this`expectedSize, storage.cells, chunkLengths, chunkCrc32
    {
      forall i :: 0 <= i < MAX_CHUNKS ==> SlotOk(i)
    }

    /** The chunks accepted so far. */
    ghost function Chunks(): map<nat, seq<byte>>
      requires Shaped() && SlotsOk()
      reads this`expectedSize, storage.cells, chunkLengths, chunkCrc32
    {
      map i: nat | 0 <= i < MAX_CHUNKS && chunkLengths[i] != 0 ::
        (assert SlotOk(i); SlotBytes(i, chunkLengths[i] as nat))
    }

    /** The staged bytes were hashed and verified as they now are. */
    ghost predicate Certified()
      requires Shaped() && expectedSize as nat <= MAX_BYTES
      reads this`expectedSize, this`expectedSha256, this`verifiedSchedule, this`totalRecords, storage.cells
    {
      && Schedule.Decide(StagedFile(), Schedule.CAM_LIMITS) == Schedule.OK
      && expectedSize as nat >= Schedule.HEADER_BYTES
      && Fips180.Sha256(StagedFile()) == expectedSha256
      && verifiedSchedule == VerifiedSchedule(TOKEN, Reader(storage, expectedSize), Schedule.CAM_LIMITS,
                                              Schedule.HeaderFields(StagedFile()[..Schedule.HEADER_BYTES]))
      && totalRecords == verifiedSchedule.header.actionCount
    }

    predicate JobLocked()
      reads this`status
    {
      status == READY || status == COUNTDOWN || status == EXECUTING || status == STOPPING
    }

    /** A start was accepted and its run has not ended. */
    predicate Busy()
      reads this`status
    {
      status == COUNTDOWN || status == EXECUTING || status == STOPPING
    }

    ghost predicate Accounted()
      requires Shaped()
      reads this`expectedSize, this`receivedBytes, storage.cells, chunkLengths, chunkCrc32
    {
      && expectedSize as nat <= MAX_BYTES
      && SlotsOk()
      && receivedBytes as nat == SumLengths(chunkLengths[..])
    }

    ghost predicate Valid()
      reads this, storage.cells, chunkLengths, chunkCrc32
      ensures Valid() ==> Shaped() && SlotsOk() && expectedSize as nat <= MAX_BYTES
      ensures Valid() ==> |jobId| == 16 && |expectedSha256| == 32
    {
      && Shaped()
      && |jobId| == 16 && |expectedSha256| == 32
      && Accounted()
      && (JobLocked() ==> Certified())
    }
  
    constructor (storage: Flash)
      requires storage.cells.Length == MAX_BYTES
      ensures Valid() && status == IDLE && this.storage == storage && Chunks() == map[] && lastError == UPLOAD_OK
      ensures Blank() && jobId == Zeros(16) && expectedSha256 == Zeros(32) && expectedSize == 0 == receivedBytes
      ensures verifiedSchedule.token == 0 && forall i :: 0 <= i < MAX_CHUNKS ==>
        chunkLengths[i] == 0 && chunkCrc32[i] == 0
      ensures fresh(chunkLengths) && fresh(chunkCrc32)
    {
      this.storage := storage;
      chunkLengths := new u16[MAX_CHUNKS](_ => 0);
      chunkCrc32 := new bv32[MAX_CHUNKS](_ => 0);
      status, lastError, protocolError, executorError := IDLE, UPLOAD_OK, Schedule.OK, EXECUTOR_OK;
      jobId, expectedSha256, expectedSize, receivedBytes := Zeros(16), Zeros(32), 0, 0;
      stopRequested, completedRecords, currentSourceIndex, totalRecords := false, 0, 0, 0;
      verifiedSchedule := VerifiedSchedule(0, Reader(storage, 0), Schedule.CAM_LIMITS, EMPTY_HEADER);
      new;
      NoSlots();
    }

    /** Everything but the storage handle back to zero. */
    method Reset(next: Status)
      requires Shaped() && (next == IDLE || next == RECEIVING)
      modifies this, chunkLengths, chunkCrc32
      ensures Valid() && Chunks() == map[] && receivedBytes == 0
      ensures forall i :: 0 <= i < MAX_CHUNKS ==> chunkLengths[i] == 0
      ensures status == next && !stopRequested && lastError == UPLOAD_OK && expectedSize == 0
      ensures verifiedSchedule.token == 0 && Blank() && jobId == Zeros(16) && expectedSha256 == Zeros(32)
    {
      hide *;
      ClearFields(next);
      ClearTables();
      NoSlots();
      Unlocked();
      ValidParts();
    }

    method ClearFields(next: Status)
      modifies this
      ensures status == next && !stopRequested && lastError == UPLOAD_OK && expectedSize == 0 && receivedBytes == 0
      ensures jobId == Zeros(16) && expectedSha256 == Zeros(32) && verifiedSchedule.token == 0 && Blank()
    {
      status, lastError, protocolError, executorError := next, UPLOAD_OK, Schedule.OK, EXECUTOR_OK;
      jobId, expectedSha256, expectedSize, receivedBytes := Zeros(16), Zeros(32), 0, 0;
      stopRequested, completedRecords, currentSourceIndex, totalRecords := false, 0, 0, 0;
      verifiedSchedule := VerifiedSchedule(0, Reader(storage, 0), Schedule.CAM_LIMITS, EMPTY_HEADER);
    }

    /** No trace of an earlier job. */
    predicate Blank()
      reads this`stopRequested, this`completedRecords, this`currentSourceIndex, this`totalRecords, this`protocolError,
        this`executorError
    {
      && !stopRequested && completedRecords == 0 && currentSourceIndex == 0 && totalRecords == 0
      && protocolError == Schedule.OK && executorError == EXECUTOR_OK
    }

    lemma Unlocked()
      requires status == IDLE || status == RECEIVING || status == ERROR
      ensures !JobLocked()
    {}

    method ClearTables()
      requires Shaped()
      modifies chunkLengths, chunkCrc32
      ensures forall i :: 0 <= i < MAX_CHUNKS ==> chunkLengths[i] == 0
    {
      forall i | 0 <= i < MAX_CHUNKS { chunkCrc32[i] := 0; }
      forall i | 0 <= i < MAX_CHUNKS { chunkLengths[i] := 0; }
    }

    lemma NoSlots()
      requires Shaped() && expectedSize as nat <= MAX_BYTES && receivedBytes == 0
      requires forall i :: 0 <= i < MAX_CHUNKS ==> chunkLengths[i] == 0
      ensures Accounted() && Chunks() == map[]
    {
      hide Crc32.RfcCrc;
      SumOfZeros(chunkLengths[..]);
    }

    method Begin(job: seq<byte>, encodedSize: u32, sha256: seq<byte>) returns (error: UploadError)
      requires Valid() && |job| == 16 && |sha256| == 32
      modifies Repr()
      ensures Valid() && storage.faults >= old(storage.faults)
      ensures error == if AllZero(job) || AllZero(sha256) then INVALID_ARGUMENT
                       else if encodedSize == 0 || encodedSize as nat > MAX_BYTES then OVERSIZED
                       else if old(JobLocked()) then INVALID_STATE
                       else if storage.faults == old(storage.faults) then UPLOAD_OK else STORAGE_FAILURE
      ensures error == UPLOAD_OK ==>
        status == RECEIVING && jobId == job && expectedSha256 == sha256 && expectedSize == encodedSize
        && receivedBytes == 0 && Chunks() == map[] && lastError == UPLOAD_OK && Blank()
      ensures error == STORAGE_FAILURE ==>
        status == ERROR && jobId == job && expectedSha256 == sha256 && expectedSize == encodedSize
        && receivedBytes == 0 && Chunks() == map[] && lastError == STORAGE_FAILURE && Blank()
      ensures error in {INVALID_ARGUMENT, OVERSIZED, INVALID_STATE} ==>
        Kept() && SameProgress() && status == old(status) && storage.faults == old(storage.faults)
        && lastError == if error == OVERSIZED then OVERSIZED else old(lastError)
    {
      hide Valid, Chunks, AllZero;
      if AllZero(job) || AllZero(sha256) { return INVALID_ARGUMENT; }
      if encodedSize == 0 || encodedSize as nat > MAX_BYTES {
        SetError(OVERSIZED);
        return OVERSIZED;
      }
      if JobLocked() { return INVALID_STATE; }
      error := Announce(job, encodedSize, sha256);
    }

    /** Everything reset, the new job's data noted, and the flash erased. */
    method Announce(job: seq<byte>, encodedSize: u32, sha256: seq<byte>) returns (error: UploadError)
      requires Valid() && |job| == 16 && |sha256| == 32 && encodedSize as nat <= MAX_BYTES
      modifies Repr()
      ensures Valid() && storage.faults >= old(storage.faults) && Chunks() == map[] && receivedBytes == 0
      ensures jobId == job && expectedSha256 == sha256 && expectedSize == encodedSize
      ensures error == if storage.faults == old(storage.faults) then UPLOAD_OK else STORAGE_FAILURE
      ensures status == (if error == UPLOAD_OK then RECEIVING else ERROR) && lastError == error && Blank()
    {
      hide Valid, Shaped, Accounted, SlotsOk, Chunks, Certified, Blank, JobLocked;
      Reset(RECEIVING);
      ResetIsShaped();
      expectedSize, jobId, expectedSha256 := encodedSize, job, sha256;
      var erased := storage.Erase();
      error := UPLOAD_OK;
      if !erased {
        error := STORAGE_FAILURE;
        status, lastError := ERROR, STORAGE_FAILURE;
      }
      NoSlots();
      Unlocked();
      ValidParts();
    }

    lemma ResetIsShaped()
      requires Valid()
      ensures Shaped()
    {
      hide Accounted, Certified;
    }

    method SetError(error: UploadError)
      requires Valid()
      modifies this`lastError
      ensures Valid() && lastError == error && Chunks() == old(Chunks())
    {
      hide Certified, SlotsOk;
      lastError := error;
    }

    /** The first complete arrival of a chunk with the right checksum is recorded. */
    method AcceptChunk(sequence: u32, length: u32, crc: bv32, ghost data: seq<byte>)
      requires Valid() && status == RECEIVING
      requires sequence as nat < MAX_CHUNKS && chunkLengths[sequence] == 0
      requires CHUNK_BYTES * sequence as nat < expectedSize as nat
      requires 0 < length as nat == SlotLength(expectedSize as nat, sequence as nat) == |data|
      requires data == SlotBytes(sequence as nat, |data|) && crc == Crc32.RfcCrc(data)
      modifies this`receivedBytes, chunkLengths, chunkCrc32
      ensures Valid() && Chunks() == old(Chunks())[sequence as nat := data]
    {
      hide Certified, Crc32.RfcCrc;
      ghost var before := chunkLengths[..];
      SlotLengthsBounded();
      SumBound(before, CHUNK_BYTES);
      var length16: u16 := length as nat % 0x1_0000;
      assert length16 as nat == length as nat;
      chunkLengths[sequence] := length16;
      chunkCrc32[sequence] := crc;
      SumUpdate(before, sequence as nat, length16);
      assert chunkLengths[..] == before[sequence := length16];
      var total: u32 := receivedBytes as nat + length as nat;
      receivedBytes := total;
      forall i: nat | i < MAX_CHUNKS ensures SlotOk(i) {
        assert old(SlotOk(i));
      }
    }

    lemma SlotLengthsBounded()
      requires Shaped() && SlotsOk()
      ensures forall i :: 0 <= i < MAX_CHUNKS ==> chunkLengths[..][i] as nat <= CHUNK_BYTES
    {
      hide Crc32.RfcCrc;
      forall i: nat | i < MAX_CHUNKS ensures chunkLengths[..][i] as nat <= CHUNK_BYTES {
        assert SlotOk(i);
      }
    }

    /** A chunk that is there already and matches changes nothing. */
    lemma ChunkThere(slot: nat, data: seq<byte>)
      requires Valid() && slot < MAX_CHUNKS && chunkLengths[slot] as nat == |data| > 0
      requires |data| <= CHUNK_BYTES && data <= SlotBytes(slot, |data|)
      ensures Chunks() == Chunks()[slot := data]
    {
      hide Crc32.RfcCrc, Certified;
      assert data == SlotBytes(slot, |data|);
      assert slot in Chunks() && Chunks()[slot] == SlotBytes(slot, |data|);
    }

    predicate SameJob(job: seq<byte>)
      reads this`jobId
    {
      job == jobId
    }

    method ChunkBegin(session: ChunkSession, job: seq<byte>, sequence: u32, offset: u32, length: u32, crc: bv32)
      returns (error: UploadError)
      requires Valid() && session.upload == this && session !in Repr()
      modifies session, storage`faults, storage.cells
      ensures Valid() && storage.faults >= old(storage.faults)
      ensures status != RECEIVING ==> error == INVALID_STATE && unchanged(storage.cells)
      ensures status == RECEIVING && !SameJob(job) ==> error == JOB_MISMATCH
      ensures status == RECEIVING && SameJob(job) ==>
        error == if BadSlot(sequence as nat, offset as nat, length as nat) then INVALID_ARGUMENT
                 else if chunkLengths[sequence] != 0 && chunkCrc32[sequence] != crc then CHUNK_CONFLICT
                 else if storage.faults == old(storage.faults) then UPLOAD_OK else STORAGE_FAILURE
      ensures error != UPLOAD_OK ==> storage.faults == old(storage.faults) || error == STORAGE_FAILURE
      ensures Chunks() == old(Chunks())
      ensures error == UPLOAD_OK ==>
        status == RECEIVING && session.Open([]) && session.sequence == sequence && session.length == length
          && session.expectedCrc32 == crc
    {
      hide Crc32.RfcUpdate, Crc32.RfcCrc, Certified, Chunks, SlotsOk;
      if status != RECEIVING { return INVALID_STATE; }
      if !SameJob(job) { return JOB_MISMATCH; }
      if sequence as nat >= MAX_CHUNKS || offset as nat != sequence as nat * CHUNK_BYTES || offset >= expectedSize {
        return INVALID_ARGUMENT;
      }
      var expectedLength := expectedSize as nat - offset as nat;
      if expectedLength > CHUNK_BYTES { expectedLength := CHUNK_BYTES; }
      if length == 0 || length as nat != expectedLength { return INVALID_ARGUMENT; }
      error := OpenSlot(session, sequence, offset, length, crc);
    }

    /** The arguments fit: fill in the session, and erase the slot unless its chunk is there already. */
    method OpenSlot(session: ChunkSession, sequence: u32, offset: u32, length: u32, crc: bv32)
      returns (error: UploadError)
      requires Valid() && session.upload == this && session !in Repr() && status == RECEIVING
      requires !BadSlot(sequence as nat, offset as nat, length as nat)
      modifies session, storage`faults, storage.cells
      ensures Valid() && storage.faults >= old(storage.faults)
      ensures error == if chunkLengths[sequence] != 0 && chunkCrc32[sequence] != crc then CHUNK_CONFLICT
                       else if storage.faults == old(storage.faults) then UPLOAD_OK else STORAGE_FAILURE
      ensures error == CHUNK_CONFLICT ==> storage.faults == old(storage.faults)
      ensures Chunks() == old(Chunks())
      ensures session.conflict <==> error == CHUNK_CONFLICT
      ensures error == UPLOAD_OK ==> session.Open([])
      ensures session.sequence == sequence && session.length == length && session.expectedCrc32 == crc
    {
      hide Crc32.RfcUpdate, Crc32.RfcCrc, Valid, Chunks;
      Crc32.UpdateNothing(Crc32.ONES);
      session.Start(sequence, offset, length, crc, chunkLengths[sequence] != 0);
      assert SlotOk(sequence as nat);
      if session.repeated && (chunkLengths[sequence] as nat != length as nat || chunkCrc32[sequence] != crc) {
        session.conflict := true;
        return CHUNK_CONFLICT;
      }
      if !session.repeated {
        var erased := EraseSlot(sequence as nat, offset as nat);
        if !erased { return STORAGE_FAILURE; }
      }
      return UPLOAD_OK;
    }

    method EraseSlot(slot: nat, offset: nat) returns (ok: bool)
      requires Valid() && status == RECEIVING && slot < MAX_CHUNKS && offset == CHUNK_BYTES * slot
      requires chunkLengths[slot] == 0
      modifies storage`faults, storage.cells
      ensures Valid() && storage.faults >= old(storage.faults) && (ok <==> storage.faults == old(storage.faults))
      ensures Chunks() == old(Chunks())
      ensures ok ==> forall k :: offset <= k < offset + CHUNK_BYTES ==> storage.cells[k] == 0xff
    {
      hide Valid, Chunks;
      ok := storage.EraseRange(offset, CHUNK_BYTES);
      OnlySlotTouched(slot);
    }

    ghost predicate BadSlot(sequence: nat, offset: nat, length: nat)
      reads this`expectedSize
    {
      sequence >= MAX_CHUNKS || offset != sequence * CHUNK_BYTES || offset >= expectedSize as nat
      || length == 0 || length != SlotLength(expectedSize as nat, sequence)
    }

    /** Changing the bytes of an empty slot leaves every accepted chunk as it was. */
    twostate lemma OnlySlotTouched(slot: nat)
      requires old(Valid()) && slot < MAX_CHUNKS && chunkLengths[slot] == 0 && !JobLocked()
      requires unchanged(this) && unchanged(chunkLengths) && unchanged(chunkCrc32)
      requires forall i :: 0 <= i < MAX_BYTES && !(CHUNK_BYTES * slot <= i < CHUNK_BYTES * slot + CHUNK_BYTES) ==>
        storage.cells[i] == old(storage.cells[i])
      ensures Valid() && Chunks() == old(Chunks())
    {
      hide Crc32.RfcCrc, Certified;
      assert chunkLengths[..] == old(chunkLengths[..]);
      forall i: nat | i < MAX_CHUNKS ensures SlotOk(i) && (chunkLengths[i] != 0 ==>
          SlotBytes(i, chunkLengths[i] as nat) == old(SlotBytes(i, chunkLengths[i] as nat)))
      {
        assert old(SlotOk(i));
        if i != slot && chunkLengths[i] != 0 {
          assert i < slot || slot < i;
          assert SlotBytes(i, chunkLengths[i] as nat) == old(SlotBytes(i, chunkLengths[i] as nat));
        }
      }
    }

    /** What the tables say about one slot of the accepted chunks. */
    lemma ChunkAt(i: nat)
      requires Valid() && i < MAX_CHUNKS
      ensures i in Chunks() <==> chunkLengths[i] != 0
      ensures i in Chunks() ==>
        && chunkLengths[i] as nat == SlotLength(expectedSize as nat, i)
        && Chunks()[i] == SlotBytes(i, SlotLength(expectedSize as nat, i))
        && chunkCrc32[i] == Crc32.RfcCrc(Chunks()[i])
    {
      hide Crc32.RfcCrc, Certified;
      assert SlotOk(i);
    }

    /**
     One chunk request under the service's mutex: open, write the pieces as they are received, finish;
     the session is dropped at its first error, and running out of pieces early is an error too.
     */
    method PutChunk(job: seq<byte>, sequence: u32, offset: u32, length: u32, crc: bv32, pieces: seq<seq<byte>>)
      returns (error: UploadError)
      requires Valid()
      requires (forall p :: p in pieces ==> p != []) && |Joined(pieces)| <= length as nat
      modifies this`receivedBytes, this`lastError, chunkLengths, chunkCrc32, storage`faults, storage.cells
      ensures Valid() && storage.faults >= old(storage.faults)
      ensures status != RECEIVING ==> error == INVALID_STATE && Kept() && Chunks() == old(Chunks())
      ensures status == RECEIVING && !SameJob(job) ==> error == JOB_MISMATCH && Chunks() == old(Chunks())
      ensures status == RECEIVING && SameJob(job) && storage.faults == old(storage.faults) ==>
        (error, Chunks()) == ChunkOutcome(old(Chunks()), expectedSize as nat, MAX_CHUNKS, sequence as nat,
                                          offset as nat, length as nat, crc, Joined(pieces))
      ensures storage.faults > old(storage.faults) ==> error == STORAGE_FAILURE && Chunks() == old(Chunks())
      ensures lastError == if error == CHUNK_CRC_MISMATCH then error else old(lastError)
    {
      hide Crc32.RfcCrc, Crc32.RfcUpdate, Valid, SlotsOk, Chunks, SlotBytes, ChunkOutcome;
      var session := new ChunkSession(this);
      error := ChunkBegin(session, job, sequence, offset, length, crc);
      if error != UPLOAD_OK {
        if sequence as nat < MAX_CHUNKS { ChunkAt(sequence as nat); }
        if error in {INVALID_ARGUMENT, CHUNK_CONFLICT} {
          OutcomeOfRefusal(Chunks(), expectedSize as nat, MAX_CHUNKS, sequence as nat, offset as nat, length as nat,
            crc,
            Joined(pieces), BadSlot(sequence as nat, offset as nat, length as nat), error);
        }
        return error;
      }
      error := ReceiveAll(session, pieces);
    }

    /** The rest of a request whose session was opened. */
    method ReceiveAll(session: ChunkSession, pieces: seq<seq<byte>>) returns (error: UploadError)
      requires Valid() && status == RECEIVING && session.upload == this && session !in Repr() && session.Open([])
      requires (forall p :: p in pieces ==> p != []) && |Joined(pieces)| <= session.length as nat
      modifies session, this`receivedBytes, this`lastError, chunkLengths, chunkCrc32, storage`faults, storage.cells
      ensures Valid() && storage.faults >= old(storage.faults)
      ensures storage.faults == old(storage.faults) ==>
        (error, Chunks()) == ChunkOutcome(old(Chunks()), expectedSize as nat, MAX_CHUNKS, old(session.sequence) as nat,
                                          old(session.offset) as nat, old(session.length) as nat,
                                          old(session.expectedCrc32), Joined(pieces))
      ensures storage.faults > old(storage.faults) ==> error == STORAGE_FAILURE && Chunks() == old(Chunks())
      ensures lastError == if error == CHUNK_CRC_MISMATCH then error else old(lastError)
    {
      hide Crc32.RfcCrc, Crc32.RfcUpdate, Valid, SlotsOk, Chunks, SlotBytes, ChunkOutcome;
      var sequence, length, crc := session.sequence, session.length, session.expectedCrc32;
      ChunkAt(sequence as nat);
      ghost var before := Chunks();
      assert session.repeated == (sequence as nat in before);
      error := Receive(session, pieces);
      if storage.faults == old(storage.faults) {
        OutcomeOfSession(before, expectedSize as nat, MAX_CHUNKS, sequence as nat, length as nat, crc, Joined(pieces),
          error, Chunks());
      }
    }

    /** The receive loop of an opened session, and its end. */
    method Receive(session: ChunkSession, pieces: seq<seq<byte>>) returns (error: UploadError)
      requires Valid() && status == RECEIVING && session.upload == this && session !in Repr() && session.Open([])
      requires (forall p :: p in pieces ==> p != []) && |Joined(pieces)| <= session.length as nat
      modifies session, this`receivedBytes, this`lastError, chunkLengths, chunkCrc32, storage`faults, storage.cells
      ensures unchanged(session`sequence) && unchanged(session`length) && unchanged(session`expectedCrc32)
      ensures unchanged(session`repeated)
      ensures Valid() && storage.faults >= old(storage.faults)
      ensures storage.faults == old(storage.faults) ==>
        error == if old(session.repeated)
                    && !(Joined(pieces) <= old(SlotBytes(session.sequence as nat, session.length as nat)))
                 then CHUNK_CONFLICT
                 else if |Joined(pieces)| < session.length as nat then INCOMPLETE
                 else if Crc32.RfcCrc(Joined(pieces)) != session.expectedCrc32 then CHUNK_CRC_MISMATCH
                 else UPLOAD_OK
      ensures storage.faults > old(storage.faults) ==> error == STORAGE_FAILURE
      ensures lastError == if error == CHUNK_CRC_MISMATCH then error else old(lastError)
      ensures Chunks() == if error == UPLOAD_OK then old(Chunks())[session.sequence as nat := Joined(pieces)]
        else old(Chunks())
    {
      hide Crc32.RfcCrc, Crc32.RfcUpdate, Valid, Chunks, SlotBytes;
      var received, next := 0, 0;
      ghost var data: seq<byte> := [];
      ghost var slot := SlotBytes(session.sequence as nat, session.length as nat);
      ghost var full := Joined(pieces);
      error := UPLOAD_OK;
      while error == UPLOAD_OK && received < session.length as nat
        invariant next <= |pieces| && data == Joined(pieces[..next]) && |data| == received
        invariant unchanged(session`sequence) && unchanged(session`length) && unchanged(session`expectedCrc32)
        invariant unchanged(session`repeated)
        invariant Valid() && Chunks() == old(Chunks()) && storage.faults >= old(storage.faults)
        invariant session.repeated ==> unchanged(storage.cells)
        invariant unchanged(`lastError)
        invariant error == UPLOAD_OK ==> storage.faults == old(storage.faults) && session.Open(data)
        invariant storage.faults > old(storage.faults) ==> error == STORAGE_FAILURE
        invariant storage.faults == old(storage.faults) && error != UPLOAD_OK ==>
          error == CHUNK_CONFLICT && session.repeated && !(data <= slot)
        decreases |pieces| - next
      {
        if next == |pieces| {
          error := INCOMPLETE;
          break;
        }
        JoinedNext(pieces, next);
        error := session.Write(data, pieces[next]);
        received := received + |pieces[next]|;
        data := data + pieces[next];
        next := next + 1;
      }
      JoinedPrefix(pieces, next);
      if next == |pieces| { assert pieces[..next] == pieces; }
      PrefixOfPrefix(data, full, slot);
      if error == INCOMPLETE || error == UPLOAD_OK { session.OpenFits(data, slot); }
      if error == UPLOAD_OK {
        assert data == full;
        error := session.Finish(data);
      }
    }

    /** Once the received bytes reach the announced size, no slot of the file is missing. */
    lemma AllSlotsPresent()
      requires Valid() && receivedBytes == expectedSize
      ensures forall i :: 0 <= i < MAX_CHUNKS && CHUNK_BYTES * i < expectedSize as nat ==> chunkLengths[i] != 0
      ensures AllHeld(Chunks(), expectedSize as nat)
    {
      hide Crc32.RfcCrc, Certified;
      var lengths := chunkLengths[..];
      forall i: nat | i < MAX_CHUNKS
        ensures lengths[i] == 0 || lengths[i] as nat == SlotLength(expectedSize as nat, i) {
        assert SlotOk(i);
      }
      SumCovered(lengths, expectedSize as nat);
      forall i: nat | CHUNK_BYTES * i < expectedSize as nat
        ensures i in Chunks() && |Chunks()[i]| == SlotLength(expectedSize as nat, i)
      {
        assert i < MAX_CHUNKS && lengths[i] != 0;
        ChunkAt(i);
      }
    }

    /** And the received bytes reach it as soon as no slot is missing: a full upload is never called incomplete. */
    lemma FullIsCounted()
      requires Valid()
      ensures receivedBytes == expectedSize <==> AllHeld(Chunks(), expectedSize as nat)
    {
      hide Crc32.RfcCrc, Certified;
      if receivedBytes == expectedSize { AllSlotsPresent(); }
      var lengths := chunkLengths[..];
      forall i: nat | i < MAX_CHUNKS
        ensures lengths[i] == 0 || lengths[i] as nat == SlotLength(expectedSize as nat, i)
        ensures lengths[i] != 0 <==> i in Chunks()
      {
        assert SlotOk(i);
        ChunkAt(i);
      }
      SumCovered(lengths, expectedSize as nat);
    }

    /** The staged file is what the accepted chunks make up. */
    lemma StagedIsAssembled()
      requires Valid() && receivedBytes == expectedSize
      ensures AllHeld(Chunks(), expectedSize as nat)
      ensures StagedFile() == Assemble(Chunks(), expectedSize as nat)
    {
      hide Crc32.RfcCrc, Valid, Chunks;
      AllSlotsPresent();
      var file, whole := StagedFile(), Assemble(Chunks(), expectedSize as nat);
      forall k | 0 <= k < expectedSize as nat ensures file[k] == whole[k] {
        var i := k / CHUNK_BYTES;
        assert CHUNK_BYTES * i < expectedSize as nat;
        ChunkAt(i);
        assert whole[k] == Chunks()[i][k % CHUNK_BYTES];
        assert Chunks()[i][k % CHUNK_BYTES] == storage.cells[CHUNK_BYTES * i + k % CHUNK_BYTES];
      }
    }

    method UploadReadAt(offset: nat, length: nat, room: nat) returns (ok: bool, data: seq<byte>)
      requires Shaped() && expectedSize as nat <= MAX_BYTES && length <= room
      modifies storage`faults
      ensures storage.faults >= old(storage.faults)
      ensures ok <==> offset + length <= expectedSize as nat && storage.faults == old(storage.faults)
      ensures ok ==> data == StagedFile()[offset..offset + length]
    {
      ok, data := ReadExact(Reader(storage, expectedSize), offset, length, room);
    }

    method VerifyEncodedSha(sha: DigestProvider) returns (error: UploadError)
      requires Shaped() && expectedSize as nat <= MAX_BYTES && sha.Ready()
      modifies storage`faults, sha, sha.context, sha.context.state, sha.context.block
      ensures storage.faults >= old(storage.faults) && sha.faults >= old(sha.faults)
      ensures storage.faults == old(storage.faults) && sha.faults == old(sha.faults) ==>
        error == if Fips180.Sha256(StagedFile()) == expectedSha256 then UPLOAD_OK else SHA256_MISMATCH
      ensures !(storage.faults == old(storage.faults) && sha.faults == old(sha.faults)) ==> error == STORAGE_FAILURE
    {
      hide Fips180.Sha256, sha.Absorbed;
      ghost var file := StagedFile();
      var offset := 0;
      var ok := sha.Begin();
      if !ok { return STORAGE_FAILURE; }
      while offset < expectedSize as nat
        invariant offset <= expectedSize as nat
        invariant sha.Absorbed(file[..offset])
        invariant storage.faults == old(storage.faults) && sha.faults == old(sha.faults)
      {
        var chunk := expectedSize as nat - offset;
        if chunk > 256 { chunk := 256; }
        var readOk, buffer := UploadReadAt(offset, chunk, BUFFER_BYTES);
        if !readOk { return STORAGE_FAILURE; }
        var updateOk := sha.Update(file[..offset], buffer);
        if !updateOk { return STORAGE_FAILURE; }
        assert file[..offset] + buffer == file[..offset + chunk];
        offset := offset + chunk;
      }
      assert file[..offset] == file;
      var finishOk, digest := sha.Finish(file);
      if !finishOk { return STORAGE_FAILURE; }
      return if digest == expectedSha256 then UPLOAD_OK else SHA256_MISMATCH;
    }

    /** The staged file has the announced digest and is a schedule this board accepts. */
    ghost predicate Acceptable()
      requires Shaped() && expectedSize as nat <= MAX_BYTES
      reads this`expectedSize, this`expectedSha256, storage.cells
    {
      Fips180.Sha256(StagedFile()) == expectedSha256 && ScheduleCodec.Conforms(StagedFile(), Schedule.CAM_LIMITS)
    }

    method Finalize(job: seq<byte>, encodedSize: u32, sha256: seq<byte>, sha: DigestProvider)
      returns (error: UploadError)
      requires Valid() && sha.Ready() && |sha256| == 32
      modifies this`status, this`lastError, this`protocolError, this`verifiedSchedule, this`totalRecords,
        this`completedRecords, this`currentSourceIndex,
        storage`faults, sha, sha.context, sha.context.state, sha.context.block
      ensures Valid() && storage.faults >= old(storage.faults) && sha.faults >= old(sha.faults)
      ensures unchanged(storage.cells) && unchanged(chunkLengths) && unchanged(chunkCrc32)
      ensures old(status) != RECEIVING ==> error == INVALID_STATE && Refused(error)
      ensures old(status) == RECEIVING && !SameJob(job) ==> error == JOB_MISMATCH && Refused(error)
      ensures old(status) == RECEIVING && SameJob(job) && !(encodedSize == expectedSize && sha256 == expectedSha256) ==>
        error == SHA256_MISMATCH && Refused(error)
      ensures old(status) == RECEIVING && SameJob(job) && encodedSize == expectedSize && sha256 == expectedSha256 ==>
        if receivedBytes != expectedSize then error == INCOMPLETE && Refused(error)
        else FinalizedAs(error, storage.faults == old(storage.faults) && sha.faults == old(sha.faults))
      ensures error == UPLOAD_OK ==> status == READY && Certified() && completedRecords == 0
    {
      hide Certified, Acceptable, SlotsOk, Accounted, FinalizedAs, VerdictOn;
      if status != RECEIVING { return INVALID_STATE; }
      if !SameJob(job) { return JOB_MISMATCH; }
      if encodedSize != expectedSize || sha256 != expectedSha256 {
        lastError := SHA256_MISMATCH;
        return SHA256_MISMATCH;
      }
      if receivedBytes != expectedSize { return INCOMPLETE; }
      error := FinalizeWhole(sha);
    }

    /** Every byte was received: no slot is missing, and both checks decide. */
    method FinalizeWhole(sha: DigestProvider) returns (error: UploadError)
      requires Valid() && sha.Ready() && status == RECEIVING && receivedBytes == expectedSize
      modifies this`status, this`lastError, this`protocolError, this`verifiedSchedule, this`totalRecords,
        this`completedRecords, this`currentSourceIndex,
        storage`faults, sha, sha.context, sha.context.state, sha.context.block
      ensures Valid() && storage.faults >= old(storage.faults) && sha.faults >= old(sha.faults)
      ensures unchanged(storage.cells) && unchanged(chunkLengths) && unchanged(chunkCrc32)
      ensures FinalizedAs(error, storage.faults == old(storage.faults) && sha.faults == old(sha.faults))
      ensures error == UPLOAD_OK ==> status == READY && Certified() && completedRecords == 0
    {
      hide Certified, Acceptable, SlotsOk, Accounted, FinalizedAs, VerdictOn, Chunks, AllHeld;
      FullIsCounted();
      var missing := SomeSlotMissing();
      if missing { return INCOMPLETE; }
      error := VerifyStaged(sha);
      FinalizedParts(error, storage.faults == old(storage.faults) && sha.faults == old(sha.faults));
    }

    /** A finalization refused before the bytes are looked at. */
    twostate predicate Refused(error: UploadError)
      reads this, storage, storage.cells, chunkLengths, chunkCrc32
    {
      && Kept() && SameProgress() && unchanged(`status) && unchanged(`protocolError) && unchanged(storage`faults)
      && lastError == if error == SHA256_MISMATCH then error else old(lastError)
    }

    /** What both checks say about the staged bytes; a failed call shows as a storage or a reader error. */
    ghost predicate VerdictOn(error: UploadError, quiet: bool)
      requires Shaped() && expectedSize as nat <= MAX_BYTES
      reads this`expectedSize, this`expectedSha256, this`protocolError, storage.cells
    {
      var right := Fips180.Sha256(StagedFile()) == expectedSha256;
      var decision := Schedule.Decide(StagedFile(), Schedule.CAM_LIMITS);
      if quiet then
        && error == (if !right then SHA256_MISMATCH
                     else if decision == Schedule.OK then UPLOAD_OK
                     else PROTOCOL_REJECTED)
        && (right ==> protocolError == decision)
      else
        error == STORAGE_FAILURE || (error == PROTOCOL_REJECTED && right && protocolError == Schedule.READER_ERROR)
    }

    /** How a finalization that got as far as the staged bytes ends; `quiet` says that no call failed. */
    ghost predicate FinalizedAs(error: UploadError, quiet: bool)
      requires Shaped() && expectedSize as nat <= MAX_BYTES
      reads this, storage.cells
    {
      && (error == UPLOAD_OK <==> quiet && Acceptable())
      && (error == SHA256_MISMATCH <==> quiet && Fips180.Sha256(StagedFile()) != expectedSha256)
      && error in {UPLOAD_OK, STORAGE_FAILURE, SHA256_MISMATCH, PROTOCOL_REJECTED}
      && VerdictOn(error, quiet)
      && lastError == error
      && status == (if error == UPLOAD_OK then READY else ERROR)
    }

    method VerifyStaged(sha: DigestProvider) returns (error: UploadError)
      requires Valid() && sha.Ready() && status == RECEIVING
      modifies this`status, this`lastError, this`protocolError, this`verifiedSchedule, this`totalRecords,
        this`completedRecords, this`currentSourceIndex,
        storage`faults, sha, sha.context, sha.context.state, sha.context.block
      ensures Valid() && storage.faults >= old(storage.faults) && sha.faults >= old(sha.faults)
      ensures unchanged(storage.cells) && unchanged(chunkLengths) && unchanged(chunkCrc32)
      ensures error in {UPLOAD_OK, STORAGE_FAILURE, SHA256_MISMATCH, PROTOCOL_REJECTED} && lastError == error
      ensures status == (if error == UPLOAD_OK then READY else ERROR)
      ensures error == UPLOAD_OK <==>
        storage.faults == old(storage.faults) && sha.faults == old(sha.faults) && Acceptable()
      ensures error == SHA256_MISMATCH <==>
        storage.faults == old(storage.faults) && sha.faults == old(sha.faults)
          && Fips180.Sha256(StagedFile()) != expectedSha256
      ensures VerdictOn(error, storage.faults == old(storage.faults) && sha.faults == old(sha.faults))
      ensures error == UPLOAD_OK ==> Certified() && completedRecords == 0
    {
      hide *;
      Apart(sha);
      status := VERIFYING;
      ValidParts();
      error := VerifyBytes(sha);
      Settle(error);
      if error == UPLOAD_OK { Certify(); }
      LockedIsReady();
      StillValid();
    }

    /** Record the verdict on the staged bytes. */
    method Settle(error: UploadError)
      modifies this`status, this`lastError, this`totalRecords, this`completedRecords, this`currentSourceIndex
      ensures lastError == error && status == (if error == UPLOAD_OK then READY else ERROR)
      ensures error == UPLOAD_OK ==>
        totalRecords == verifiedSchedule.header.actionCount && completedRecords == 0 && currentSourceIndex == 0
    {
      lastError := error;
      status := ERROR;
      if error == UPLOAD_OK {
        totalRecords, completedRecords, currentSourceIndex := verifiedSchedule.header.actionCount, 0, 0;
        status := READY;
      }
    }

    lemma ValidParts()
      ensures Valid() <==>
        && Shaped() && |jobId| == 16 && |expectedSha256| == 32 && Accounted() && (JobLocked() ==> Certified())
    {
      hide Accounted, Certified, JobLocked;
    }

    lemma Apart(sha: DigestProvider)
      requires Shaped() && sha.Ready()
      ensures sha.context.block != storage.cells && sha.context.block as object != chunkLengths
      ensures sha.context.block as object != chunkCrc32
      ensures sha.context.state != chunkCrc32 && sha.context.state as object != storage.cells
      ensures sha.context.state as object != chunkLengths
    {}

    lemma LockedIsReady()
      requires status == READY || status == ERROR
      ensures JobLocked() <==> status == READY
    {}

    lemma FinalizedParts(error: UploadError, quiet: bool)
      requires Shaped() && expectedSize as nat <= MAX_BYTES
      requires error == UPLOAD_OK <==> quiet && Acceptable()
      requires error == SHA256_MISMATCH <==> quiet && Fips180.Sha256(StagedFile()) != expectedSha256
      requires error in {UPLOAD_OK, STORAGE_FAILURE, SHA256_MISMATCH, PROTOCOL_REJECTED} && VerdictOn(error, quiet)
      requires lastError == error && status == (if error == UPLOAD_OK then READY else ERROR)
      ensures FinalizedAs(error, quiet)
    {
      hide Fips180.Sha256, Acceptable, VerdictOn;
    }

    /** Only the status and what finalization fills in have changed. */
    twostate lemma StillValid()
      requires old(Valid())
      requires unchanged(storage.cells) && unchanged(chunkLengths) && unchanged(chunkCrc32)
      requires unchanged(`jobId) && unchanged(`expectedSha256) && unchanged(`expectedSize) && unchanged(`receivedBytes)
      requires JobLocked() ==> expectedSize as nat <= MAX_BYTES && Certified()
      ensures Valid()
    {
      hide Certified, Accounted, JobLocked;
    }

    /** Both checks on the staged bytes: the digest given at begin, then the schedule verifier. */
    method VerifyBytes(sha: DigestProvider) returns (error: UploadError)
      requires Shaped() && expectedSize as nat <= MAX_BYTES && sha.Ready()
      modifies this`protocolError, this`verifiedSchedule, storage`faults, sha, sha.context, sha.context.state,
        sha.context.block
      ensures storage.faults >= old(storage.faults) && sha.faults >= old(sha.faults)
      ensures error in {UPLOAD_OK, STORAGE_FAILURE, SHA256_MISMATCH, PROTOCOL_REJECTED}
      ensures error == UPLOAD_OK <==>
        storage.faults == old(storage.faults) && sha.faults == old(sha.faults) && Acceptable()
      ensures error == SHA256_MISMATCH <==>
        storage.faults == old(storage.faults) && sha.faults == old(sha.faults)
          && Fips180.Sha256(StagedFile()) != expectedSha256
      ensures VerdictOn(error, storage.faults == old(storage.faults) && sha.faults == old(sha.faults))
      ensures error == UPLOAD_OK ==> expectedSize as nat >= Schedule.HEADER_BYTES
      ensures error == UPLOAD_OK ==>
        verifiedSchedule == VerifiedSchedule(TOKEN, Reader(storage, expectedSize), Schedule.CAM_LIMITS,
                                             Schedule.HeaderFields(StagedFile()[..Schedule.HEADER_BYTES]))
    {
      hide Fips180.Sha256, Schedule.Decide, ScheduleCodec.Conforms, Schedule.HeaderFields;
      error := VerifyEncodedSha(sha);
      if error != UPLOAD_OK { return error; }
      protocolError, verifiedSchedule := Verify(Reader(storage, expectedSize), Schedule.CAM_LIMITS, sha);
      if protocolError != Schedule.OK { return PROTOCOL_REJECTED; }
      ConformingIsCertified();
    }

    lemma Certify()
      requires Shaped() && expectedSize as nat <= MAX_BYTES && Acceptable()
      requires expectedSize as nat >= Schedule.HEADER_BYTES
      requires verifiedSchedule == VerifiedSchedule(TOKEN, Reader(storage, expectedSize), Schedule.CAM_LIMITS,
                                                    Schedule.HeaderFields(StagedFile()[..Schedule.HEADER_BYTES]))
      requires totalRecords == verifiedSchedule.header.actionCount
      ensures Certified()
    {
      hide Fips180.Sha256, Schedule.Decide, ScheduleCodec.Conforms, Schedule.HeaderFields;
      ConformingIsCertified();
    }

    lemma ConformingIsCertified()
      requires Shaped() && expectedSize as nat <= MAX_BYTES && ScheduleCodec.Conforms(StagedFile(), Schedule.CAM_LIMITS)
      ensures Schedule.Decide(StagedFile(), Schedule.CAM_LIMITS) == Schedule.OK
      ensures expectedSize as nat >= Schedule.HEADER_BYTES
    {
      hide Fips180.Sha256, Schedule.HeaderFields, Schedule.HeaderFormError, ScheduleCodec.Conforms;
      ScheduleCodec.DecisionIsConformance(StagedFile(), Schedule.CAM_LIMITS);
    }

    /** The loop over the chunk table: it finds a gap if and only if some chunk of the file is not held. */
    method SomeSlotMissing() returns (missing: bool)
      requires Valid()
      ensures missing <==> !AllHeld(Chunks(), expectedSize as nat)
    {
      hide Valid, Chunks, Crc32.RfcCrc;
      var chunkCount := (expectedSize as nat + CHUNK_BYTES - 1) / CHUNK_BYTES;
      for index := 0 to chunkCount
        invariant forall i: nat :: i < index ==> i in Chunks() && |Chunks()[i]| == SlotLength(expectedSize as nat, i)
      {
        ChunkAt(index);
        if chunkLengths[index] == 0 {
          assert CHUNK_BYTES * index < expectedSize as nat;
          return true;
        }
      }
      forall i: nat | CHUNK_BYTES * i < expectedSize as nat
        ensures i in Chunks() && |Chunks()[i]| == SlotLength(expectedSize as nat, i)
      {
        assert i < chunkCount;
      }
      return false;
    }

    // ---- The life of a job ----------------------------------------------------------

    method PrepareStart(job: seq<byte>, readiness: HidReadiness) returns (error: UploadError)
      requires Valid()
      modifies this`status, this`stopRequested
      ensures Valid()
      ensures error == if old(status) != READY then INVALID_STATE else if !SameJob(job) then JOB_MISMATCH
                       else if readiness == HID_DISCONNECTED then HID_NOT_CONNECTED
                       else if readiness == HID_PENDING then HID_SAFETY_PENDING
                       else if readiness == HID_FAILED then HID_SAFETY_FAILED else UPLOAD_OK
      ensures status == if error == UPLOAD_OK then COUNTDOWN else old(status)
      ensures stopRequested == if error == UPLOAD_OK then false else old(stopRequested)
    {
      hide Accounted, Certified;
      if status != READY { return INVALID_STATE; }
      if !SameJob(job) { return JOB_MISMATCH; }
      if readiness == HID_DISCONNECTED { return HID_NOT_CONNECTED; }
      if readiness == HID_PENDING { return HID_SAFETY_PENDING; }
      if readiness == HID_FAILED { return HID_SAFETY_FAILED; }
      CertifiedIsVerified();
      if !IsVerified(verifiedSchedule) { return PROTOCOL_REJECTED; }
      status, stopRequested := COUNTDOWN, false;
      return UPLOAD_OK;
    }

    lemma CertifiedIsVerified()
      requires Valid() && JobLocked()
      ensures IsVerified(verifiedSchedule)
    {
      hide Accounted, Schedule.Decide, Fips180.Sha256, Schedule.HeaderFields;
    }

    method StartFailed() returns (error: UploadError)
      requires Valid()
      modifies this`status, this`stopRequested
      ensures Valid()
      ensures error == if old(status) == COUNTDOWN then UPLOAD_OK else INVALID_STATE
      ensures error == UPLOAD_OK ==> status == READY && !stopRequested
      ensures error != UPLOAD_OK ==> unchanged(this)
    {
      hide Accounted, Certified;
      if status != COUNTDOWN { return INVALID_STATE; }
      status, stopRequested := READY, false;
      return UPLOAD_OK;
    }

    method MarkExecuting() returns (error: UploadError)
      requires Valid()
      modifies this`status
      ensures Valid()
      ensures error == if old(status) == COUNTDOWN then UPLOAD_OK else INVALID_STATE
      ensures status == if old(status) == COUNTDOWN then EXECUTING else old(status)
    {
      hide Accounted, Certified;
      if status != COUNTDOWN { return INVALID_STATE; }
      status := EXECUTING;
      return UPLOAD_OK;
    }

    method RequestStop() returns (error: UploadError)
      requires Valid()
      modifies this`status, this`stopRequested
      ensures Valid()
      ensures error == if old(status) in {STOPPING, STOPPED, COUNTDOWN, EXECUTING} then UPLOAD_OK else INVALID_STATE
      ensures status == if old(status) in {COUNTDOWN, EXECUTING} then STOPPING else old(status)
      ensures stopRequested == (old(stopRequested) || old(status) in {COUNTDOWN, EXECUTING})
    {
      hide Accounted, Certified;
      if status == STOPPING || status == STOPPED { return UPLOAD_OK; }
      if status != COUNTDOWN && status != EXECUTING { return INVALID_STATE; }
      stopRequested, status := true, STOPPING;
      return UPLOAD_OK;
    }

    method Cancel(job: seq<byte>) returns (error: UploadError)
      requires Valid()
      modifies this, chunkLengths, chunkCrc32
      ensures Valid()
      ensures error == if old(status) != READY then INVALID_STATE
                       else if !old(SameJob(job)) then JOB_MISMATCH else UPLOAD_OK
      ensures error == UPLOAD_OK ==>
        status == IDLE && Chunks() == map[] && verifiedSchedule.token == 0 && lastError == UPLOAD_OK && Blank()
        && jobId == Zeros(16) && expectedSize == 0 && expectedSha256 == Zeros(32) && receivedBytes == 0
      ensures error != UPLOAD_OK ==> unchanged(this) && unchanged(chunkLengths) && unchanged(chunkCrc32)
    {
      hide Accounted, Certified, SlotsOk;
      if status != READY { return INVALID_STATE; }
      if !SameJob(job) { return JOB_MISMATCH; }
      Reset(IDLE);
      return UPLOAD_OK;
    }

    method RecordProgress(sourceIndex: u32, completed: u32, total: u32)
      requires Valid()
      modifies this`currentSourceIndex, this`completedRecords
      ensures Valid()
      ensures var accepted := status == EXECUTING && total == totalRecords && completed <= total;
        && currentSourceIndex == (if accepted then sourceIndex else old(currentSourceIndex))
        && completedRecords == (if accepted then completed else old(completedRecords))
    {
      hide Accounted, Certified;
      if status != EXECUTING || total != totalRecords || completed > total { return; }
      currentSourceIndex, completedRecords := sourceIndex, completed;
    }

    method MarkInterruptedReset()
      requires Valid()
      modifies this`status, this`executorError, this`lastError, this`stopRequested
      ensures Valid() && status == INTERRUPTED_RESET && executorError == EXECUTOR_INTERRUPTED_RESET && !stopRequested
      ensures lastError == UPLOAD_OK
    {
      hide Accounted, Certified;
      status, executorError := INTERRUPTED_RESET, EXECUTOR_INTERRUPTED_RESET;
      lastError, stopRequested := UPLOAD_OK, false;
    }

    method Complete(result: ExecutorError)
      requires Valid()
      modifies this`status, this`executorError, this`lastError, this`stopRequested
      ensures Valid() && !JobLocked() && executorError == result && !stopRequested
      ensures status == if result == EXECUTOR_OK then COMPLETED else if result == EXECUTOR_STOPPED then STOPPED
        else ERROR
      ensures lastError == if result in {EXECUTOR_OK, EXECUTOR_STOPPED} then UPLOAD_OK else INVALID_STATE
    {
      hide Accounted, Certified;
      executorError := result;
      status := if result == EXECUTOR_OK then COMPLETED else if result == EXECUTOR_STOPPED then STOPPED else ERROR;
      lastError := if result == EXECUTOR_OK || result == EXECUTOR_STOPPED then UPLOAD_OK else INVALID_STATE;
      stopRequested := false;
    }

    /**
     What the HTTP task may do while a run is on, stop requests aside: any number of requests of any
     kind, with any arguments, each under the mutex. None of them touches the staged bytes, the
     certificate or the job.
     */
    method OtherRequests()
      requires Valid() && Busy()
      modifies Repr()
      ensures Valid() && Kept() && SameProgress() && storage.faults >= old(storage.faults) && unchanged(`status)
    {
      hide Valid, Chunks, Certified, SlotsOk;
      var requests: nat := *;
      while requests > 0
        invariant Valid() && Kept() && SameProgress() && storage.faults >= old(storage.faults) && unchanged(`status)
      {
        var kind: nat := *;
        if kind < 3 { AnyUploadRequest(kind); } else { AnyControlRequest(kind); }
        requests := requests - 1;
      }
    }

    method AnyUploadRequest(kind: nat)
      requires Valid() && Busy()
      modifies Repr()
      ensures Valid() && Busy() && Kept() && SameProgress() && storage.faults >= old(storage.faults)
      ensures status == old(status)
    {
      hide Valid, Chunks, Certified, SlotsOk, Joined, AllZero;
      var job: seq<byte>, digest: seq<byte>, size: u32 := *, *, *;
      var error: UploadError;
      if kind == 0 && |job| == 16 && |digest| == 32 {
        error := Begin(job, size, digest);
      } else if kind == 1 {
        AnyChunkRequest(job);
      } else if kind == 2 && |digest| == 32 {
        var sha := new DigestProvider();
        error := Finalize(job, size, digest, sha);
      }
    }

    method AnyChunkRequest(job: seq<byte>)
      requires Valid() && Busy()
      modifies Repr()
      ensures Valid() && Busy() && Kept() && SameProgress() && storage.faults >= old(storage.faults)
      ensures status == old(status)
    {
      hide Valid, Chunks, SlotsOk, Joined;
      var sequence: u32, offset: u32, length: u32, crc: bv32, pieces: seq<seq<byte>> := *, *, *, *, *;
      if (forall p :: p in pieces ==> p != []) && |Joined(pieces)| <= length as nat {
        var error := PutChunk(job, sequence, offset, length, crc, pieces);
      }
    }

    method AnyControlRequest(kind: nat)
      requires Valid() && Busy()
      modifies this, chunkLengths, chunkCrc32
      ensures Valid() && Kept() && SameProgress() && unchanged(`status)
    {
      hide Valid, Chunks, Certified, SlotsOk;
      var job: seq<byte>, readiness: HidReadiness := *, *;
      var error: UploadError;
      if kind == 3 {
        error := PrepareStart(job, readiness);
      } else {
        error := Cancel(job);
      }
    }

    twostate predicate SameProgress()
      reads this
    {
      unchanged(`completedRecords) && unchanged(`currentSourceIndex)
    }

    /** The job, its certificate and the staged bytes are what they were. */
    twostate predicate Kept()
      reads this, storage.cells, chunkLengths, chunkCrc32
    {
      && unchanged(storage.cells) && unchanged(chunkLengths) && unchanged(chunkCrc32)
      && unchanged(`jobId) && unchanged(`expectedSha256) && unchanged(`expectedSize) && unchanged(`receivedBytes)
      && unchanged(`verifiedSchedule) && unchanged(`totalRecords)
    }
  }

  /** One chunk on its way in. */
  class ChunkSession {
    const upload: WifiUpload
    var sequence: u32
    var offset: u32
    var length: u32
    var expectedCrc32: bv32
    var runningCrc32: bv32
    var received: u32
    var repeated: bool
    var conflict: bool

    constructor (upload: WifiUpload)
      ensures this.upload == upload
    {
      this.upload := upload;
      sequence, offset, length, received := 0, 0, 0, 0;
      expectedCrc32, runningCrc32, repeated, conflict := 0, 0, false, false;
    }

    method Start(sequence: u32, offset: u32, length: u32, crc: bv32, repeated: bool)
      modifies this
      ensures this.sequence == sequence && this.offset == offset && this.length == length && received == 0
      ensures expectedCrc32 == crc && runningCrc32 == Crc32.ONES && this.repeated == repeated && !conflict
    {
      this.sequence, this.offset, this.length, received := sequence, offset, length, 0;
      expectedCrc32, runningCrc32, this.repeated, conflict := crc, 0xffff_ffff, repeated, false;
    }

    /** `data` has arrived and been written, or compared with the chunk that is already there. */
    ghost predicate Open(data: seq<byte>)
      requires upload.Shaped()
      reads this, upload`expectedSize, upload.chunkLengths, upload.chunkCrc32, upload.storage.cells
    {
      && !conflict
      && upload.expectedSize as nat <= MAX_BYTES
      && sequence as nat < MAX_CHUNKS && offset as nat == CHUNK_BYTES * sequence as nat < upload.expectedSize as nat
      && 0 < length as nat == SlotLength(upload.expectedSize as nat, sequence as nat)
      && received as nat == |data| <= length as nat
      && runningCrc32 == Crc32.RfcUpdate(Crc32.ONES, data)
      && repeated == (upload.chunkLengths[sequence] != 0)
      && (if repeated then Compared(data) else Written(data))
    }

    ghost predicate Compared(data: seq<byte>)
      requires upload.Shaped() && sequence as nat < MAX_CHUNKS && length as nat <= CHUNK_BYTES
      reads this`sequence, this`length, this`expectedCrc32, upload.chunkLengths, upload.chunkCrc32, upload.storage.cells
    {
      && upload.chunkLengths[sequence] as nat == length as nat
      && expectedCrc32 == upload.chunkCrc32[sequence]
      && data <= upload.SlotBytes(sequence as nat, length as nat)
    }

    ghost predicate Written(data: seq<byte>)
      requires upload.Shaped() && sequence as nat < MAX_CHUNKS
      reads this`sequence, upload.storage.cells
    {
      && |data| <= CHUNK_BYTES
      && data == upload.SlotBytes(sequence as nat, |data|)
      && forall k :: CHUNK_BYTES * sequence as nat + |data| <= k < CHUNK_BYTES * sequence as nat + CHUNK_BYTES ==>
           upload.storage.cells[k] == 0xff
    }

    lemma ComparedMeans(data: seq<byte>)
      requires upload.Shaped() && sequence as nat < MAX_CHUNKS && length as nat <= CHUNK_BYTES
      ensures Compared(data) <==>
        && upload.chunkLengths[sequence] as nat == length as nat
        && expectedCrc32 == upload.chunkCrc32[sequence]
        && data <= upload.SlotBytes(sequence as nat, length as nat)
    {
      hide upload.SlotBytes;
    }

    lemma OpenFits(data: seq<byte>, slot: seq<byte>)
      requires upload.Shaped() && Open(data)
      requires repeated ==> slot == upload.SlotBytes(sequence as nat, length as nat)
      ensures |data| <= length as nat && (repeated ==> data <= slot)
    {
      hide upload.SlotBytes, Crc32.RfcUpdate;
    }

    method Write(ghost data: seq<byte>, piece: seq<byte>) returns (error: UploadError)
      requires upload.Valid() && upload.status == RECEIVING && this !in upload.Repr() && (conflict || Open(data))
      modifies this, upload.storage`faults, upload.storage.cells
      ensures repeated || old(conflict) ==> unchanged(upload.storage.cells)
      ensures unchanged(`sequence) && unchanged(`length) && unchanged(`expectedCrc32) && unchanged(`repeated)
      ensures upload.Valid() && upload.Chunks() == old(upload.Chunks())
      ensures upload.storage.faults >= old(upload.storage.faults)
      ensures error == if old(conflict) || |piece| == 0 || |data| + |piece| > length as nat then INVALID_ARGUMENT
                       else if upload.storage.faults > old(upload.storage.faults) then STORAGE_FAILURE
                       else if repeated && !(data + piece <= upload.SlotBytes(sequence as nat, length as nat))
                       then CHUNK_CONFLICT
                       else UPLOAD_OK
      ensures error == UPLOAD_OK ==> Open(data + piece)
    {
      hide Crc32.RfcUpdate, upload.Valid, upload.Chunks, upload.SlotBytes, upload.SlotsOk, Written, Compared;
      if conflict || |piece| == 0 || |piece| > length as nat - received as nat { return INVALID_ARGUMENT; }
      if repeated { error := Recheck(data, piece); } else { error := Extend(data, piece); }
    }

    /** A piece that fits, of a chunk that is already there: into the checksum, and against the flash. */
    method Recheck(ghost data: seq<byte>, piece: seq<byte>) returns (error: UploadError)
      requires upload.Valid() && upload.status == RECEIVING && this !in upload.Repr() && Open(data) && repeated
      requires 0 < |piece| <= length as nat - |data|
      modifies this`runningCrc32, this`received, this`conflict, upload.storage`faults
      ensures upload.Valid() && upload.Chunks() == old(upload.Chunks())
      ensures upload.storage.faults >= old(upload.storage.faults)
      ensures error == if upload.storage.faults > old(upload.storage.faults) then STORAGE_FAILURE
                       else if data + piece <= upload.SlotBytes(sequence as nat, length as nat) then UPLOAD_OK
                       else CHUNK_CONFLICT
      ensures error == UPLOAD_OK ==> Open(data + piece)
    {
      hide Crc32.RfcUpdate, upload.Valid, upload.Chunks, upload.SlotBytes, upload.SlotsOk, Written, Compared;
      runningCrc32 := Crc32.UpdateRegister(runningCrc32, piece);
      Crc32.UpdateConcat(Crc32.ONES, data, piece);
      ComparedMeans(data);
      error := ComparePiece(data, piece);
      ComparedMeans(data + piece);
      if error == UPLOAD_OK { received := received as nat + |piece|; }
    }

    /** A piece that fits, of a new chunk: into the checksum, and onto the flash. */
    method Extend(ghost data: seq<byte>, piece: seq<byte>) returns (error: UploadError)
      requires upload.Valid() && upload.status == RECEIVING && this !in upload.Repr() && Open(data) && !repeated
      requires 0 < |piece| <= length as nat - |data|
      modifies this`runningCrc32, this`received, upload.storage`faults, upload.storage.cells
      ensures upload.Valid() && upload.Chunks() == old(upload.Chunks())
      ensures upload.storage.faults >= old(upload.storage.faults)
      ensures error == if upload.storage.faults > old(upload.storage.faults) then STORAGE_FAILURE else UPLOAD_OK
      ensures error == UPLOAD_OK ==> Open(data + piece)
    {
      hide Crc32.RfcUpdate, upload.Valid, upload.Chunks, upload.SlotBytes, upload.SlotsOk, Written, Compared;
      runningCrc32 := Crc32.UpdateRegister(runningCrc32, piece);
      Crc32.UpdateConcat(Crc32.ONES, data, piece);
      var written := WritePiece(data, piece);
      if !written { return STORAGE_FAILURE; }
      received := received as nat + |piece|;
      return UPLOAD_OK;
    }

    /** A repeated chunk is compared with what is stored, 256 bytes at a time. */
    method ComparePiece(ghost data: seq<byte>, piece: seq<byte>) returns (error: UploadError)
      requires upload.Shaped() && sequence as nat < MAX_CHUNKS && length as nat <= CHUNK_BYTES
      requires offset as nat == CHUNK_BYTES * sequence as nat && received as nat == |data|
      requires |data| + |piece| <= length as nat && data <= upload.SlotBytes(sequence as nat, length as nat)
      modifies this`conflict, upload.storage`faults
      ensures upload.storage.faults >= old(upload.storage.faults)
      ensures error == if upload.storage.faults > old(upload.storage.faults) then STORAGE_FAILURE
                       else if data + piece <= upload.SlotBytes(sequence as nat, length as nat) then UPLOAD_OK
                       else CHUNK_CONFLICT
      ensures error == UPLOAD_OK ==> unchanged(`conflict)
    {
      hide upload.SlotBytes;
      ghost var slot := upload.SlotBytes(sequence as nat, length as nat);
      var compared := 0;
      while compared < |piece|
        invariant compared <= |piece|
        invariant data + piece[..compared] <= slot
        invariant upload.storage.faults == old(upload.storage.faults) && conflict == old(conflict)
      {
        var chunk := |piece| - compared;
        if chunk > 256 { chunk := 256; }
        var ok, stored := upload.storage.Read(offset as nat + received as nat + compared, chunk, BUFFER_BYTES);
        if !ok { return STORAGE_FAILURE; }
        upload.SlotSlice(sequence as nat, length as nat, |data| + compared, chunk);
        assert stored == slot[|data| + compared..|data| + compared + chunk];
        MatchStep(slot, data, piece, compared, chunk);
        if stored != piece[compared..compared + chunk] {
          conflict := true;
          return CHUNK_CONFLICT;
        }
        compared := compared + chunk;
      }
      assert piece[..compared] == piece;
      return UPLOAD_OK;
    }

    method WritePiece(ghost data: seq<byte>, piece: seq<byte>) returns (ok: bool)
      requires upload.Valid() && upload.status == RECEIVING
      requires sequence as nat < MAX_CHUNKS && offset as nat == CHUNK_BYTES * sequence as nat
      requires received as nat == |data|
      requires |data| + |piece| <= CHUNK_BYTES && Written(data) && upload.chunkLengths[sequence] == 0
      modifies upload.storage`faults, upload.storage.cells
      ensures upload.Valid() && upload.Chunks() == old(upload.Chunks())
      ensures upload.storage.faults >= old(upload.storage.faults)
      ensures (ok <==> upload.storage.faults == old(upload.storage.faults))
      ensures ok ==> Written(data + piece)
    {
      hide upload.Valid, upload.Chunks, Programmed, Written, upload.SlotBytes;
      ghost var base, was := CHUNK_BYTES * sequence as nat, upload.storage.cells[..];
      WrittenMeans(data);
      ok := upload.storage.Write(offset as nat + received as nat, piece);
      upload.OnlySlotTouched(sequence as nat);
      if ok {
        WrittenMore(was, upload.storage.cells[..], base, data, piece);
        WrittenMeans(data + piece);
      }
    }

    lemma WrittenMeans(data: seq<byte>)
      requires upload.Shaped() && sequence as nat < MAX_CHUNKS
      ensures Written(data) <==> Holds(upload.storage.cells[..], CHUNK_BYTES * sequence as nat, data)
    {}

    method Finish(ghost data: seq<byte>) returns (error: UploadError)
      requires upload.Valid() && upload.status == RECEIVING && this !in upload.Repr() && (conflict || Open(data))
      modifies upload`receivedBytes, upload`lastError, upload.chunkLengths, upload.chunkCrc32
      ensures upload.Valid()
      ensures error == if conflict then CHUNK_CONFLICT else if |data| < length as nat then INCOMPLETE
                       else if Crc32.RfcCrc(data) != expectedCrc32 then CHUNK_CRC_MISMATCH else UPLOAD_OK
      ensures upload.Chunks() == if error == UPLOAD_OK then old(upload.Chunks())[sequence as nat := data]
        else old(upload.Chunks())
      ensures upload.lastError == if error == CHUNK_CRC_MISMATCH then error else old(upload.lastError)
    {
      hide Crc32.RfcUpdate, upload.Valid, upload.Chunks, upload.SlotsOk;
      if conflict { return CHUNK_CONFLICT; }
      if received != length { return INCOMPLETE; }
      var actualCrc := Crc32.Xor(runningCrc32, 0xffff_ffff);
      if actualCrc != expectedCrc32 {
        upload.SetError(CHUNK_CRC_MISMATCH);
        return CHUNK_CRC_MISMATCH;
      }
      if !repeated {
        upload.AcceptChunk(sequence, length, actualCrc, data);
      } else {
        upload.ChunkThere(sequence as nat, data);
      }
      return UPLOAD_OK;
    }
  }

  lemma PrefixOfPrefix(data: seq<byte>, full: seq<byte>, slot: seq<byte>)
    requires data <= full
    ensures full <= slot ==> data <= slot
  {
    if full <= slot { assert slot[..|data|] == slot[..|full|][..|data|]; }
  }

  lemma MatchStep(slot: seq<byte>, data: seq<byte>, piece: seq<byte>, compared: nat, chunk: nat)
    requires compared + chunk <= |piece| && |data| + |piece| <= |slot|
    requires data + piece[..compared] <= slot
    ensures data + piece[..compared + chunk] <= slot <==>
      slot[|data| + compared..|data| + compared + chunk] == piece[compared..compared + chunk]
    ensures data + piece <= slot ==>
      slot[|data| + compared..|data| + compared + chunk] == piece[compared..compared + chunk]
  {
    var next := data + piece[..compared + chunk];
    assert next == (data + piece[..compared]) + piece[compared..compared + chunk];
    assert slot[..|next|] == slot[..|data| + compared] + slot[|data| + compared..|data| + compared + chunk];
    if data + piece <= slot {
      assert (data + piece)[..|next|] == next;
      assert slot[..|next|] == (slot[..|data + piece|])[..|next|];
    }
    if slot[|data| + compared..|data| + compared + chunk] == piece[compared..compared + chunk] {
      assert slot[..|next|] == next;
    }
    if next <= slot {
      assert slot[|data| + compared..|data| + compared + chunk] == next[|data| + compared..];
    }
  }

  /** A slot holds the data, and is erased behind it. */
  ghost predicate Holds(cells: seq<byte>, base: nat, data: seq<byte>)
    requires base + CHUNK_BYTES <= |cells|
  {
    && |data| <= CHUNK_BYTES
    && data == cells[base..base + |data|]
    && forall k :: base + |data| <= k < base + CHUNK_BYTES ==> cells[k] == 0xff
  }

  /** Writing behind the data, where the slot is erased, stores the piece as it is. */
  lemma WrittenMore(was: seq<byte>, cells: seq<byte>, base: nat, data: seq<byte>, piece: seq<byte>)
    requires |was| == |cells| && base + CHUNK_BYTES <= |cells| && |data| + |piece| <= CHUNK_BYTES
    requires Holds(was, base, data)
    requires forall i :: base + |data| <= i < base + |data| + |piece| ==>
      cells[i] == Programmed(was[i], piece[i - (base + |data|)])
    requires forall i :: 0 <= i < |cells| && !(base + |data| <= i < base + |data| + |piece|) ==> cells[i] == was[i]
    ensures Holds(cells, base, data + piece)
  {
    hide Programmed;
    var whole := cells[base..base + |data + piece|];
    forall k | 0 <= k < |whole| ensures whole[k] == (data + piece)[k] {
      if k < |data| {
        assert data[k] == was[base..base + |data|][k];
      } else {
        ProgrammedErased(piece[k - |data|]);
      }
    }
  }

  lemma {:induction false} SumOfZeros(lengths: seq<u16>)
    requires forall i :: 0 <= i < |lengths| ==> lengths[i] == 0
    ensures SumLengths(lengths) == 0
  {
    if lengths != [] { SumOfZeros(lengths[..|lengths| - 1]); }
  }
}
