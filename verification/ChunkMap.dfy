/** Chunk bookkeeping on values: what one chunk request does, and why arrival order does not matter. */
module ChunkMap {
  import opened Bytes
  import Crc32

  const CHUNK_BYTES: nat := 4096

  datatype UploadError =
    | UPLOAD_OK | INVALID_ARGUMENT | INVALID_STATE | OVERSIZED | JOB_MISMATCH | CHUNK_CRC_MISMATCH | CHUNK_CONFLICT
    | STORAGE_FAILURE | INCOMPLETE | SHA256_MISMATCH | PROTOCOL_REJECTED | HID_NOT_CONNECTED | HID_SAFETY_PENDING
    | HID_SAFETY_FAILED

  /** The length chunk i must have: a full slot, or what is left of the file. */
  function SlotLength(size: nat, i: nat): (length: nat)
    ensures length <= CHUNK_BYTES
  {
    if CHUNK_BYTES * i >= size then 0
    else if size - CHUNK_BYTES * i > CHUNK_BYTES then CHUNK_BYTES else size - CHUNK_BYTES * i
  }

  function SumLengths(lengths: seq<u16>): nat {
    if lengths == [] then 0 else SumLengths(lengths[..|lengths| - 1]) + lengths[|lengths| - 1] as nat
  }

  lemma {:induction false} SumBound(lengths: seq<u16>, bound: nat)
    requires forall i :: 0 <= i < |lengths| ==> lengths[i] as nat <= bound
    ensures SumLengths(lengths) <= |lengths| * bound
  {
    if lengths != [] { SumBound(lengths[..|lengths| - 1], bound); }
  }

  lemma {:induction false} SumUpdate(lengths: seq<u16>, i: nat, length: u16)
    requires i < |lengths|
    ensures SumLengths(lengths[i := length]) == SumLengths(lengths) - lengths[i] as nat + length as nat
  {
    var last := |lengths| - 1;
    if i < last {
      SumUpdate(lengths[..last], i, length);
      assert lengths[i := length][..last] == lengths[..last][i := length];
    } else {
      assert lengths[i := length][..last] == lengths[..last];
    }
  }

  /**
   What a chunk request does when storage never fails, `data` being all the bytes that arrived: the
   verdict and the accepted chunks afterwards. A chunk is accepted whole, with a matching checksum,
   once; later requests for its slot only compare.
   */
  function ChunkOutcome(chunks: map<nat, seq<byte>>, size: nat, maxChunks: nat, sequence: nat, offset: nat, length: nat,
                        crc: bv32, data: seq<byte>):
    (r: (UploadError, map<nat, seq<byte>>))
  {
    if sequence >= maxChunks || offset != sequence * CHUNK_BYTES || offset >= size then (INVALID_ARGUMENT, chunks)
    else if length == 0 || length != SlotLength(size, sequence) then (INVALID_ARGUMENT, chunks)
    else if sequence in chunks then
      if Crc32.RfcCrc(chunks[sequence]) != crc || !(data <= chunks[sequence]) then (CHUNK_CONFLICT, chunks)
      else if |data| != length then (INCOMPLETE, chunks)
      else (UPLOAD_OK, chunks)
    else if |data| != length then (INCOMPLETE, chunks)
    else if Crc32.RfcCrc(data) != crc then (CHUNK_CRC_MISMATCH, chunks)
    else (UPLOAD_OK, chunks[sequence := data])
  }

  /** The outcome when the slot fits and the checksum does not contradict the chunk that is there. */
  lemma OutcomeOfSession(chunks: map<nat, seq<byte>>, size: nat, maxChunks: nat, sequence: nat, length: nat, crc: bv32,
                         data: seq<byte>, error: UploadError, after: map<nat, seq<byte>>)
    requires sequence < maxChunks && CHUNK_BYTES * sequence < size && 0 < length == SlotLength(size, sequence)
    requires |data| <= length
    requires sequence in chunks ==> |chunks[sequence]| == length && Crc32.RfcCrc(chunks[sequence]) == crc
    requires error == if sequence in chunks && !(data <= chunks[sequence]) then CHUNK_CONFLICT
                      else if |data| < length then INCOMPLETE
                      else if Crc32.RfcCrc(data) != crc then CHUNK_CRC_MISMATCH else UPLOAD_OK
    requires after == if error == UPLOAD_OK then chunks[sequence := data] else chunks
    ensures (error, after) == ChunkOutcome(chunks, size, maxChunks, sequence, sequence * CHUNK_BYTES, length, crc, data)
  {
    hide Crc32.RfcCrc;
    if sequence in chunks && data <= chunks[sequence] && |data| == length {
      assert data == chunks[sequence];
      assert chunks[sequence := data] == chunks;
    }
  }

  /** The outcome when the request is refused before any byte is looked at. */
  lemma OutcomeOfRefusal(chunks: map<nat, seq<byte>>, size: nat, maxChunks: nat, sequence: nat, offset: nat,
    length: nat,
                         crc: bv32, data: seq<byte>, misfit: bool, error: UploadError)
    requires misfit <==>
      sequence >= maxChunks || offset != sequence * CHUNK_BYTES || offset >= size || length == 0
      || length != SlotLength(size, sequence)
    requires if misfit then error == INVALID_ARGUMENT
             else error == CHUNK_CONFLICT && sequence in chunks && Crc32.RfcCrc(chunks[sequence]) != crc
    ensures (error, chunks) == ChunkOutcome(chunks, size, maxChunks, sequence, offset, length, crc, data)
  {
    hide Crc32.RfcCrc;
  }

  // ---- Received bytes account for every slot ------------------------------------

  /** Bytes of the file that lie in the first n slots. */
  function Covered(size: nat, n: nat): nat { if CHUNK_BYTES * n >= size then size else CHUNK_BYTES * n }

  predicate SlotLengths(lengths: seq<u16>, size: nat) {
    forall i :: 0 <= i < |lengths| ==> lengths[i] == 0 || lengths[i] as nat == SlotLength(size, i)
  }

  lemma {:induction false} SumCovered(lengths: seq<u16>, size: nat)
    requires SlotLengths(lengths, size)
    ensures SumLengths(lengths) <= Covered(size, |lengths|)
    ensures SumLengths(lengths) == Covered(size, |lengths|) <==>
      forall i :: 0 <= i < |lengths| && CHUNK_BYTES * i < size ==> lengths[i] != 0
  {
    if lengths != [] {
      var n := |lengths| - 1;
      SumCovered(lengths[..n], size);
      assert Covered(size, n + 1) == Covered(size, n) + SlotLength(size, n);
      assert forall i :: 0 <= i < n ==> lengths[..n][i] == lengths[i];
    }
  }

  // ---- Runs of requests -----------------------------------------------------------

  datatype Request = Request(sequence: nat, offset: nat, length: nat, crc: bv32, data: seq<byte>)

  function Apply(chunks: map<nat, seq<byte>>, size: nat, maxChunks: nat, r: Request): map<nat, seq<byte>> {
    ChunkOutcome(chunks, size, maxChunks, r.sequence, r.offset, r.length, r.crc, r.data).1
  }

  /** The accepted chunks after a run of requests, from an empty staging area. */
  function Run(rs: seq<Request>, size: nat, maxChunks: nat): map<nat, seq<byte>> {
    if rs == [] then map[] else Apply(Run(rs[..|rs| - 1], size, maxChunks), size, maxChunks, rs[|rs| - 1])
  }

  /** A whole chunk, in its place, that matches its checksum. */
  predicate Good(r: Request, size: nat, maxChunks: nat) {
    && r.sequence < maxChunks && r.offset == r.sequence * CHUNK_BYTES < size
    && 0 < r.length == SlotLength(size, r.sequence) == |r.data|
    && Crc32.RfcCrc(r.data) == r.crc
  }

  /** Request k is the first good one for its slot. */
  predicate Wins(rs: seq<Request>, k: nat, size: nat, maxChunks: nat)
    requires k < |rs|
  {
    Good(rs[k], size, maxChunks) && forall j :: 0 <= j < k && Good(rs[j], size, maxChunks) ==>
      rs[j].sequence != rs[k].sequence
  }

  lemma ApplyMeaning(chunks: map<nat, seq<byte>>, size: nat, maxChunks: nat, r: Request)
    ensures Apply(chunks, size, maxChunks, r) ==
      if Good(r, size, maxChunks) && r.sequence !in chunks then chunks[r.sequence := r.data] else chunks
  {
    hide Crc32.RfcCrc;
  }

  lemma {:induction false} WinnerExists(rs: seq<Request>, j: nat, size: nat, maxChunks: nat) returns (k: nat)
    requires j < |rs| && Good(rs[j], size, maxChunks)
    ensures k <= j && Wins(rs, k, size, maxChunks) && rs[k].sequence == rs[j].sequence
    decreases j
  {
    hide Good;
    if i: nat :| i < j && Good(rs[i], size, maxChunks) && rs[i].sequence == rs[j].sequence {
      k := WinnerExists(rs, i, size, maxChunks);
    } else {
      k := j;
    }
  }

  /** Exactly the slots with a winning request are held, with its data. */
  ghost predicate HoldsWinners(chunks: map<nat, seq<byte>>, rs: seq<Request>, size: nat, maxChunks: nat) {
    && (forall k :: 0 <= k < |rs| && Wins(rs, k, size, maxChunks) ==>
      rs[k].sequence in chunks && chunks[rs[k].sequence] == rs[k].data)
    && (forall s :: s in chunks ==> exists k :: 0 <= k < |rs| && Wins(rs, k, size, maxChunks) && rs[k].sequence == s)
  }

  /** In any run, each slot holds the data of the first good request for it, and nothing else is held. */
  lemma {:induction false} FirstGoodWins(rs: seq<Request>, size: nat, maxChunks: nat)
    ensures HoldsWinners(Run(rs, size, maxChunks), rs, size, maxChunks)
  {
    hide Apply, Good;
    if rs != [] {
      var n := |rs| - 1;
      var init, chunks := rs[..n], Run(rs[..n], size, maxChunks);
      FirstGoodWins(init, size, maxChunks);
      ApplyMeaning(chunks, size, maxChunks, rs[n]);
      WinsSame(rs, n, size, maxChunks);
      hide Wins;
      LastWins(rs, chunks, size, maxChunks);
      forall s | s in Run(rs, size, maxChunks)
        ensures exists k :: 0 <= k < |rs| && Wins(rs, k, size, maxChunks) && rs[k].sequence == s
      {
        if s in chunks {
          var k :| 0 <= k < |init| && Wins(init, k, size, maxChunks) && init[k].sequence == s;
          assert Wins(rs, k, size, maxChunks) && rs[k].sequence == s;
        } else {
          assert Wins(rs, n, size, maxChunks);
        }
      }
    }
  }

  lemma WinsSame(rs: seq<Request>, n: nat, size: nat, maxChunks: nat)
    requires n <= |rs|
    ensures forall k :: 0 <= k < n ==> Wins(rs, k, size, maxChunks) == Wins(rs[..n], k, size, maxChunks)
  {
    hide Good;
    var init := rs[..n];
    forall k: nat | k < n ensures Wins(rs, k, size, maxChunks) == Wins(init, k, size, maxChunks) {
      assert forall j :: 0 <= j <= k ==> init[j] == rs[j];
    }
  }

  lemma LastWins(rs: seq<Request>, chunks: map<nat, seq<byte>>, size: nat, maxChunks: nat)
    requires rs != [] && HoldsWinners(chunks, rs[..|rs| - 1], size, maxChunks)
    ensures Wins(rs, |rs| - 1, size, maxChunks) <==>
      Good(rs[|rs| - 1], size, maxChunks) && rs[|rs| - 1].sequence !in chunks
  {
    hide Good;
    var n := |rs| - 1;
    var init := rs[..n];
    if Good(rs[n], size, maxChunks) {
      if j: nat :| j < n && Good(rs[j], size, maxChunks) && rs[j].sequence == rs[n].sequence {
        var k := WinnerExists(init, j, size, maxChunks);
      }
      if rs[n].sequence in chunks {
        var k :| 0 <= k < |init| && Wins(init, k, size, maxChunks) && init[k].sequence == rs[n].sequence;
        assert Good(rs[k], size, maxChunks) && rs[k].sequence == rs[n].sequence;
      }
    }
  }

  /** No two good requests of a run disagree about a slot. */
  ghost predicate NoRivals(rs: seq<Request>, size: nat, maxChunks: nat) {
    forall r, q :: r in rs && q in rs && Good(r, size, maxChunks) && Good(q, size, maxChunks) ==>
      r.sequence == q.sequence ==> r.data == q.data
  }

  /** Without rivals, the run holds exactly the data of its good requests, wherever they stand. */
  lemma {:induction false} RunIsUnion(rs: seq<Request>, size: nat, maxChunks: nat)
    requires NoRivals(rs, size, maxChunks)
    ensures forall r :: r in rs && Good(r, size, maxChunks) ==>
      r.sequence in Run(rs, size, maxChunks) && Run(rs, size, maxChunks)[r.sequence] == r.data
    ensures forall s :: s in Run(rs, size, maxChunks) ==>
      exists r :: r in rs && Good(r, size, maxChunks) && r.sequence == s
  {
    hide Good, Run;
    FirstGoodWins(rs, size, maxChunks);
    forall r | r in rs && Good(r, size, maxChunks)
      ensures r.sequence in Run(rs, size, maxChunks) && Run(rs, size, maxChunks)[r.sequence] == r.data
    {
      var j: nat :| j < |rs| && rs[j] == r;
      var k := WinnerExists(rs, j, size, maxChunks);
      assert rs[k] in rs;
    }
    forall s | s in Run(rs, size, maxChunks)
      ensures exists r :: r in rs && Good(r, size, maxChunks) && r.sequence == s {
      var k :| 0 <= k < |rs| && Wins(rs, k, size, maxChunks) && rs[k].sequence == s;
      assert rs[k] in rs && Good(rs[k], size, maxChunks);
    }
  }

  /**
   Order, repetition and rejected requests do not matter: two runs with the same good requests, none
   of them rivals, stage the same chunks.
   */
  lemma {:induction false} ArrivalOrderIrrelevant(rs: seq<Request>, qs: seq<Request>, size: nat, maxChunks: nat)
    requires NoRivals(rs, size, maxChunks)
    requires forall r :: Good(r, size, maxChunks) ==> (r in rs <==> r in qs)
    ensures Run(rs, size, maxChunks) == Run(qs, size, maxChunks)
  {
    hide Good, Run;
    RunIsUnion(rs, size, maxChunks);
    RunIsUnion(qs, size, maxChunks);
    forall s ensures s in Run(rs, size, maxChunks) <==> s in Run(qs, size, maxChunks) {}
    forall s | s in Run(rs, size, maxChunks) ensures Run(rs, size, maxChunks)[s] == Run(qs, size, maxChunks)[s] {
      var r :| r in rs && Good(r, size, maxChunks) && r.sequence == s;
      assert r in qs;
    }
  }

  /** A chunk damaged inside four neighbouring bytes on its way is never accepted under the sender's checksum. */
  lemma DamagedChunkRejected(chunks: map<nat, seq<byte>>, size: nat, maxChunks: nat, r: Request,
                             prefix: seq<byte>, sent: seq<byte>, arrived: seq<byte>, suffix: seq<byte>)
    requires |sent| == |arrived| <= 4 && sent != arrived
    requires r.crc == Crc32.RfcCrc(prefix + sent + suffix) && r.data == prefix + arrived + suffix
    ensures Apply(chunks, size, maxChunks, r) == chunks
  {
    hide Crc32.RfcCrc;
    Crc32.BurstDetected(prefix, sent, arrived, suffix);
    ApplyMeaning(chunks, size, maxChunks, r);
  }

  // ---- The file the chunks make up ---------------------------------------------------

  /** Every slot of the file is held, with the length it must have. */
  ghost predicate AllHeld(chunks: map<nat, seq<byte>>, size: nat) {
    forall i: nat :: CHUNK_BYTES * i < size ==> i in chunks && |chunks[i]| == SlotLength(size, i)
  }

  /** The file a complete set of chunks makes up: byte k is byte k mod 4096 of chunk k div 4096. */
  ghost function Assemble(chunks: map<nat, seq<byte>>, size: nat): (file: seq<byte>)
    requires AllHeld(chunks, size)
    ensures |file| == size
  {
    seq(size, k requires 0 <= k < size =>
      (assert CHUNK_BYTES * (k / CHUNK_BYTES) < size; chunks[k / CHUNK_BYTES][k % CHUNK_BYTES]))
  }
}
