/**
 Whole runs of chunk requests against one upload: what the flash holds afterwards is the run of the
 requests on the chunk map, so complete runs with the same good requests stage the same file.
 */
module ChunkRuns {
  import opened Bytes
  import opened ChunkMap
  import opened Upload

  /** A chunk request as it reaches the service: its query, and its body in the pieces it came in. */
  datatype Arrival = Arrival(job: seq<byte>, sequence: u32, offset: u32, length: u32, crc: bv32, pieces: seq<seq<byte>>)

  /** The service asks for no more than is missing, and takes no empty piece. */
  predicate AsReceived(a: Arrival) { (forall p :: p in a.pieces ==> p != []) && |Joined(a.pieces)| <= a.length as nat }

  function AsRequest(a: Arrival): Request {
    Request(a.sequence as nat, a.offset as nat, a.length as nat, a.crc, Joined(a.pieces))
  }

  /** The requests among the arrivals that were for the job and met no fault. */
  function Chosen(arrivals: seq<Arrival>, took: seq<bool>): seq<Request>
    requires |arrivals| == |took|
  {
    if arrivals == [] then []
    else
      var n := |arrivals| - 1;
      Chosen(arrivals[..n], took[..n]) + (if took[n] then [AsRequest(arrivals[n])] else [])
  }

  lemma {:induction false} ChosenNext(arrivals: seq<Arrival>, took: seq<bool>, t: bool)
    requires |took| < |arrivals|
    ensures var n := |took|;
      Chosen(arrivals[..n + 1], took + [t]) ==
        Chosen(arrivals[..n], took) + (if t then [AsRequest(arrivals[n])] else [])
  {
    var n := |took|;
    assert arrivals[..n + 1][..n] == arrivals[..n] && (took + [t])[..n] == took;
  }

  lemma {:induction false} RunNext(rs: seq<Request>, r: Request, size: nat)
    ensures Run(rs + [r], size, MAX_CHUNKS) == Apply(Run(rs, size, MAX_CHUNKS), size, MAX_CHUNKS, r)
  {
    hide Apply;
    assert (rs + [r])[..|rs|] == rs;
  }

  /**
   Any sequence of chunk requests after a begin, in any order, any pieces, with repeats, damage, foreign
   jobs and flash faults: the accepted chunks are those of the run of the requests for this job that
   met no fault; without faults that is all of them.
   */
  method ServeChunks(upload: WifiUpload, arrivals: seq<Arrival>) returns (ghost took: seq<bool>)
    requires upload.Valid() && upload.status == RECEIVING && upload.Chunks() == map[]
    requires forall a :: a in arrivals ==> AsReceived(a)
    modifies upload`receivedBytes, upload`lastError, upload.chunkLengths, upload.chunkCrc32,
      upload.storage`faults, upload.storage.cells
    ensures upload.Valid() && upload.storage.faults >= old(upload.storage.faults) && |took| == |arrivals|
    ensures upload.Chunks() == Run(Chosen(arrivals, took), upload.expectedSize as nat, MAX_CHUNKS)
    ensures forall i :: 0 <= i < |arrivals| && took[i] ==> upload.SameJob(arrivals[i].job)
    ensures upload.storage.faults == old(upload.storage.faults) ==>
      forall i :: 0 <= i < |arrivals| ==> took[i] == upload.SameJob(arrivals[i].job)
  {
    hide upload.Valid, upload.Chunks, Chosen, Run, AsRequest, ChunkOutcome;
    NothingChosen(arrivals, upload.expectedSize as nat);
    took := [];
    for n := 0 to |arrivals|
      invariant |took| == n && upload.Valid() && upload.storage.faults >= old(upload.storage.faults)
      invariant upload.Chunks() == Run(Chosen(arrivals[..n], took), upload.expectedSize as nat, MAX_CHUNKS)
      invariant forall i :: 0 <= i < n && took[i] ==> upload.SameJob(arrivals[i].job)
      invariant upload.storage.faults == old(upload.storage.faults) ==>
        forall i :: 0 <= i < n ==> took[i] == upload.SameJob(arrivals[i].job)
    {
      ghost var t := ServeOne(upload, arrivals[n], Chosen(arrivals[..n], took));
      ChosenNext(arrivals, took, t);
      took := took + [t];
    }
    assert arrivals[..|arrivals|] == arrivals;
  }

  lemma {:induction false} NothingChosen(arrivals: seq<Arrival>, size: nat)
    ensures Chosen(arrivals[..0], []) == [] && Run([], size, MAX_CHUNKS) == map[]
  {}

  method ServeOne(upload: WifiUpload, a: Arrival, ghost before: seq<Request>) returns (ghost took: bool)
    requires upload.Valid() && upload.status == RECEIVING && AsReceived(a)
    requires upload.Chunks() == Run(before, upload.expectedSize as nat, MAX_CHUNKS)
    modifies upload`receivedBytes, upload`lastError, upload.chunkLengths, upload.chunkCrc32,
      upload.storage`faults, upload.storage.cells
    ensures upload.Valid() && upload.storage.faults >= old(upload.storage.faults)
    ensures upload.Chunks() ==
      Run(before + (if took then [AsRequest(a)] else []), upload.expectedSize as nat, MAX_CHUNKS)
    ensures took ==> upload.SameJob(a.job)
    ensures upload.storage.faults == old(upload.storage.faults) ==> took == upload.SameJob(a.job)
  {
    hide upload.Valid, upload.Chunks, Run, ChunkOutcome;
    var error := upload.PutChunk(a.job, a.sequence, a.offset, a.length, a.crc, a.pieces);
    took := upload.SameJob(a.job) && upload.storage.faults == old(upload.storage.faults);
    RunNext(before, AsRequest(a), upload.expectedSize as nat);
    assert before + [] == before;
  }

  /**
   Two complete uploads of one size whose runs had the same good requests, no two of them at odds, hold
   the same file: order, repeats, pieces and rejected requests do not matter.
   */
  lemma SameGoodRequestsSameFile(u: WifiUpload, v: WifiUpload, rs: seq<Request>, qs: seq<Request>)
    requires u.Valid() && u.receivedBytes == u.expectedSize && v.Valid() && v.receivedBytes == v.expectedSize
    requires u.expectedSize == v.expectedSize
    requires u.Chunks() == Run(rs, u.expectedSize as nat, MAX_CHUNKS)
    requires v.Chunks() == Run(qs, v.expectedSize as nat, MAX_CHUNKS)
    requires NoRivals(rs, u.expectedSize as nat, MAX_CHUNKS)
    requires forall r :: Good(r, u.expectedSize as nat, MAX_CHUNKS) ==> (r in rs <==> r in qs)
    ensures u.StagedFile() == v.StagedFile()
  {
    hide u.Valid, u.Chunks, Run, Good, NoRivals;
    ArrivalOrderIrrelevant(rs, qs, u.expectedSize as nat, MAX_CHUNKS);
    u.StagedIsAssembled();
    v.StagedIsAssembled();
  }
}
