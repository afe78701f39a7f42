/**
 What the board answers to each request, and how that moves it: a relation on snapshots of the board.
 The laws follow from the relation alone, over every sequence of requests.
 */
module Requests {
  import opened Bytes
  import opened ChunkMap
  import opened Upload
  import opened JobRuns
  import opened ChunkRuns
  import Schedule
  import ScheduleCodec
  import Fips180
  import ExecutionSafety

  /** How the calls answer that a start makes outside the board; the last one at the end of the run. */
  datatype Calls = Calls(markerSet: bool, taskCreated: bool, acknowledged: bool, markerCleared: bool)

  datatype Ask =
    | AskBegin(job: seq<byte>, size: u32, sha256: seq<byte>)
    | AskChunk(arrival: Arrival)
    | AskFinalize(job: seq<byte>, size: u32, sha256: seq<byte>)
    | AskStart(job: seq<byte>, calls: Calls)
    | AskStop
    | AskCancel(job: seq<byte>)

  /** What the service hands on: ids of sixteen bytes, digests of thirty-two, bodies as they are received. */
  predicate WellPut(r: Ask) {
    match r
    case AskBegin(job, _, sha256) => |job| == 16 && |sha256| == 32
    case AskChunk(a) => AsReceived(a)
    case AskFinalize(_, _, sha256) => |sha256| == 32
    case _ => true
  }

  /**
   The error that is sent back, and what it depended on: whether no call on flash or digest failed, or for
   a start the life of the safety machine so far.
   */
  datatype Answer =
    | Verdict(error: UploadError, quiet: bool)
    | Judged(error: UploadError, safety: seq<ExecutionSafety.Event>)

  /** What is sent for a start that the upload accepted. */
  function LaunchError(calls: Calls): UploadError {
    if !calls.markerSet then STORAGE_FAILURE else if !calls.taskCreated then INVALID_STATE else UPLOAD_OK
  }

  predicate Granted(calls: Calls) { calls.markerSet && calls.taskCreated && calls.acknowledged }

  /**
   The board between two requests: the job, the accepted chunks, the staged file of a job that was
   finalized and not let go, the faults of the flash so far, and the runs.
   */
  datatype Snapshot = Snapshot(status: Status, jobId: seq<byte>, size: u32, sha256: seq<byte>,
                               chunks: map<nat, seq<byte>>, file: seq<byte>, faults: nat, runs: seq<JobRun>)

  predicate Locked(status: Status) { status in {READY, COUNTDOWN, EXECUTING, STOPPING} }

  function ReadinessOf(l: ExecutionSafety.Link): HidReadiness {
    if !l.connected then HID_DISCONNECTED
    else if ExecutionSafety.Ready(l) then HID_READY
    else if l.state == ExecutionSafety.FAILED_RETRYABLE
            && (l.error == ExecutionSafety.AUTH_FAILED || l.attempts >= ExecutionSafety.MAX_ATTEMPTS) then HID_FAILED
    else HID_PENDING
  }

  ghost predicate BeginAnswered(s: Snapshot, job: seq<byte>, size: u32, sha256: seq<byte>, error: UploadError,
    t: Snapshot) {
    if AllZero(job) || AllZero(sha256) then error == INVALID_ARGUMENT && t == s
    else if size == 0 || size as nat > MAX_BYTES then error == OVERSIZED && t == s
    else if Locked(s.status) then error == INVALID_STATE && t == s
    else
      && error == (if t.faults == s.faults then UPLOAD_OK else STORAGE_FAILURE) && t.faults >= s.faults
      && t == Snapshot(if error == UPLOAD_OK then RECEIVING else ERROR, job, size, sha256, map[], [], t.faults, s.runs)
  }

  ghost predicate ChunkAnswered(s: Snapshot, a: Arrival, error: UploadError, t: Snapshot) {
    if s.status != RECEIVING then error == INVALID_STATE && t == s
    else if a.job != s.jobId then error == JOB_MISMATCH && t == s
    else if t.faults == s.faults then
      && t == s.(chunks := t.chunks)
      && (error, t.chunks) == ChunkOutcome(s.chunks, s.size as nat, MAX_CHUNKS, a.sequence as nat, a.offset as nat,
                                           a.length as nat, a.crc, Joined(a.pieces))
    else error == STORAGE_FAILURE && t.faults > s.faults && t == s.(faults := t.faults)
  }

  /** What the checks say about a whole file; a call that failed shows as a failure of storage or of the format. */
  ghost predicate FileJudged(file: seq<byte>, sha256: seq<byte>, error: UploadError, quiet: bool) {
    if !quiet then error in {STORAGE_FAILURE, PROTOCOL_REJECTED}
    else if Fips180.Sha256(file) != sha256 then error == SHA256_MISMATCH
    else error == if ScheduleCodec.Conforms(file, Schedule.CAM_LIMITS) then UPLOAD_OK else PROTOCOL_REJECTED
  }

  ghost predicate FinalizeAnswered(s: Snapshot, job: seq<byte>, size: u32, sha256: seq<byte>, error: UploadError,
    quiet: bool,
                                   t: Snapshot) {
    if s.status != RECEIVING then error == INVALID_STATE && t == s
    else if job != s.jobId then error == JOB_MISMATCH && t == s
    else if size != s.size || sha256 != s.sha256 then error == SHA256_MISMATCH && t == s
    else if !AllHeld(s.chunks, s.size as nat) then error == INCOMPLETE && t == s
    else
      var file := Assemble(s.chunks, s.size as nat);
      && FileJudged(file, s.sha256, error, quiet) && t.faults >= s.faults && (quiet ==> t.faults == s.faults)
      && t == if error == UPLOAD_OK then s.(status := READY, file := file, faults := t.faults)
              else s.(status := ERROR, faults := t.faults)
  }

  function StartError(s: Snapshot, job: seq<byte>, readiness: HidReadiness): UploadError {
    if s.status != READY then INVALID_STATE
    else if job != s.jobId then JOB_MISMATCH
    else match readiness
      case HID_DISCONNECTED => HID_NOT_CONNECTED
      case HID_PENDING => HID_SAFETY_PENDING
      case HID_FAILED => HID_SAFETY_FAILED
      case HID_READY => UPLOAD_OK
  }

  /** One run more, of the staged file, as the announcement had it. */
  ghost predicate CarriedThrough(s: Snapshot, safety: seq<ExecutionSafety.Event>, cleared: bool, t: Snapshot) {
    && t.runs != [] && t.runs[..|t.runs| - 1] == s.runs
    && var run := t.runs[|t.runs| - 1];
    && Faithful(run) && run.safety == safety && run.cleared == cleared && run.file == s.file
    && run.announced == Announcement(s.jobId, s.size, s.sha256)
    && t == s.(status := run.status, file := [], faults := t.faults, runs := t.runs)
  }

  /** Refused, taken back because one of three things failed, or, if none did, carried through. */
  ghost predicate StartAnswered(s: Snapshot, job: seq<byte>, calls: Calls, a: Answer, t: Snapshot) {
    a.Judged? &&
    var error := StartError(s, job, ReadinessOf(ExecutionSafety.Run(a.safety)));
    if error != UPLOAD_OK then a.error == error && t == s
    else
      && a.error == LaunchError(calls)
      && if Granted(calls) then CarriedThrough(s, a.safety, calls.markerCleared, t) else t == s
  }

  predicate StopAnswered(s: Snapshot, error: UploadError, t: Snapshot) {
    && error == (if s.status in {STOPPING, STOPPED, COUNTDOWN, EXECUTING} then UPLOAD_OK else INVALID_STATE)
    && t == if s.status in {COUNTDOWN, EXECUTING} then s.(status := STOPPING) else s
  }

  predicate CancelAnswered(s: Snapshot, job: seq<byte>, error: UploadError, t: Snapshot) {
    && error == (if s.status != READY then INVALID_STATE else if job != s.jobId then JOB_MISMATCH else UPLOAD_OK)
    && t == if error == UPLOAD_OK then Snapshot(IDLE, Zeros(16), 0, Zeros(32), map[], [], s.faults, s.runs) else s
  }

  ghost predicate Answered(s: Snapshot, r: Ask, a: Answer, t: Snapshot) {
    match r
    case AskStart(job, calls) => StartAnswered(s, job, calls, a, t)
    case AskBegin(job, size, sha256) => a.Verdict? && BeginAnswered(s, job, size, sha256, a.error, t)
    case AskChunk(arrival) => a.Verdict? && ChunkAnswered(s, arrival, a.error, t)
    case AskFinalize(job, size, sha256) => a.Verdict? && FinalizeAnswered(s, job, size, sha256, a.error, a.quiet, t)
    case AskStop => a.Verdict? && StopAnswered(s, a.error, t)
    case AskCancel(job) => a.Verdict? && CancelAnswered(s, job, a.error, t)
  }

  // ---- Over every sequence of requests ---------------------------------------------------------

  /** Request i took the board from snapshot i to snapshot i + 1. */
  ghost predicate Served(asks: seq<Ask>, answers: seq<Answer>, snaps: seq<Snapshot>) {
    && |answers| == |asks| && |snaps| == |asks| + 1
    && forall i :: 0 <= i < |asks| ==> Answered(snaps[i], asks[i], answers[i], snaps[i + 1])
  }

  /** Request b began the job that snapshot n is still about. */
  ghost predicate BegunAt(asks: seq<Ask>, answers: seq<Answer>, snaps: seq<Snapshot>, b: nat, n: nat) {
    && b < n <= |asks| && |asks| == |answers| && |snaps| == |asks| + 1
    && asks[b] == AskBegin(snaps[n].jobId, snaps[n].size, snaps[n].sha256)
    && answers[b].Verdict? && answers[b].error == UPLOAD_OK
  }

  /** The chunk requests for the job, of those from b to n, that met no fault. */
  function Put(asks: seq<Ask>, snaps: seq<Snapshot>, job: seq<byte>, b: nat, n: nat): seq<Request>
    requires b <= n <= |asks| && |snaps| == |asks| + 1
  {
    if n == b then []
    else
      Put(asks, snaps, job, b, n - 1)
      + (if asks[n - 1].AskChunk? && asks[n - 1].arrival.job == job && snaps[n].faults == snaps[n - 1].faults
         then [AsRequest(asks[n - 1].arrival)] else [])
  }

  /** A job being received was begun, and holds what the chunk requests since have put there. */
  ghost predicate Receiving(asks: seq<Ask>, answers: seq<Answer>, snaps: seq<Snapshot>, b: nat, n: nat) {
    && BegunAt(asks, answers, snaps, b, n)
    && snaps[n].chunks == ChunkMap.Run(Put(asks, snaps, snaps[n].jobId, b + 1, n), snaps[n].size as nat, MAX_CHUNKS)
  }

  /** A job goes on being received only by its own chunk requests and by requests that change nothing. */
  lemma StillReceiving(s: Snapshot, r: Ask, a: Answer, t: Snapshot)
    requires Answered(s, r, a, t) && t.status == RECEIVING && !(r.AskBegin? && a.error == UPLOAD_OK)
    ensures s.status == RECEIVING && t.jobId == s.jobId && t.size == s.size && t.sha256 == s.sha256
    ensures t.chunks == if r.AskChunk? && r.arrival.job == s.jobId && t.faults == s.faults
                        then Apply(s.chunks, s.size as nat, MAX_CHUNKS, AsRequest(r.arrival)) else s.chunks
  {
    hide ChunkOutcome, FileJudged, Assemble, AllHeld, ReadinessOf, StartAnswered, CarriedThrough, ChunkAnswered,
      FinalizeAnswered, BeginAnswered;
    match r
    case AskStart(job, calls) => StartKeepsOut(s, job, calls, a, t);
    case AskChunk(arrival) => ChunkStays(s, arrival, a.error, t);
    case AskFinalize(job, size, sha256) => FinalizeStays(s, job, size, sha256, a.error, a.quiet, t);
    case AskBegin(job, size, sha256) => BeginStays(s, job, size, sha256, a.error, t);
    case _ =>
  }

  lemma StartKeepsOut(s: Snapshot, job: seq<byte>, calls: Calls, a: Answer, t: Snapshot)
    requires StartAnswered(s, job, calls, a, t)
    ensures t == s || (s.status == READY && Granted(calls) && CarriedThrough(s, a.safety, calls.markerCleared, t)
                       && t.status in Ends)
  {
    hide CarriedThrough, ReadinessOf;
    if t != s { RunEnds(s, a.safety, calls.markerCleared, t); }
  }

  const Ends: set<Status> := {COMPLETED, STOPPED, ERROR}

  lemma RunEnds(s: Snapshot, safety: seq<ExecutionSafety.Event>, cleared: bool, t: Snapshot)
    requires CarriedThrough(s, safety, cleared, t)
    ensures t.status in Ends && t.runs != [] && Faithful(t.runs[|t.runs| - 1])
  {
    hide TypedItsFile, HeededItsLink, SleptWell, Framed, Recorded, Reasoned, ExecutionSafety.Run;
  }

  lemma ChunkStays(s: Snapshot, arrival: Arrival, error: UploadError, t: Snapshot)
    requires ChunkAnswered(s, arrival, error, t)
    ensures t == s.(chunks := t.chunks, faults := t.faults)
    ensures s.status == RECEIVING ==>
      t.chunks == if arrival.job == s.jobId && t.faults == s.faults
                  then Apply(s.chunks, s.size as nat, MAX_CHUNKS, AsRequest(arrival)) else s.chunks
  {
    hide ChunkOutcome;
  }

  lemma FinalizeStays(s: Snapshot, job: seq<byte>, size: u32, sha256: seq<byte>, error: UploadError, quiet: bool,
                      t: Snapshot)
    requires FinalizeAnswered(s, job, size, sha256, error, quiet, t)
    ensures t == s || (s.status == RECEIVING && t.status in {READY, ERROR} && t.runs == s.runs)
    ensures t.status == READY && t != s ==>
      && error == UPLOAD_OK && job == s.jobId && size == s.size && sha256 == s.sha256
      && AllHeld(s.chunks, s.size as nat) && t.file == Assemble(s.chunks, s.size as nat)
      && t.jobId == s.jobId && t.size == s.size && t.sha256 == s.sha256
  {
    hide AllHeld, Assemble, FileJudged;
  }

  lemma BeginStays(s: Snapshot, job: seq<byte>, size: u32, sha256: seq<byte>, error: UploadError, t: Snapshot)
    requires BeginAnswered(s, job, size, sha256, error, t)
    ensures error == UPLOAD_OK ==> t == Snapshot(RECEIVING, job, size, sha256, map[], [], t.faults, s.runs)
    ensures error != UPLOAD_OK ==> t == s || (t.status == ERROR && t.runs == s.runs)
    ensures t == s || !Locked(s.status)
  {}

  lemma {:induction false} PutNext(asks: seq<Ask>, snaps: seq<Snapshot>, job: seq<byte>, b: nat, n: nat)
    requires b <= n < |asks| && |snaps| == |asks| + 1
    ensures Put(asks, snaps, job, b, n + 1) == Put(asks, snaps, job, b, n)
      + (if asks[n].AskChunk? && asks[n].arrival.job == job && snaps[n + 1].faults == snaps[n].faults
         then [AsRequest(asks[n].arrival)] else [])
  {}

  /** In every sequence of requests, a job being received was begun, and holds what its chunk requests put there. */
  lemma {:induction false} HowReceived(asks: seq<Ask>, answers: seq<Answer>, snaps: seq<Snapshot>, n: nat)
    returns (b: nat)
    requires Served(asks, answers, snaps) && n <= |asks|
    requires snaps[0].status == IDLE && snaps[n].status == RECEIVING
    ensures Receiving(asks, answers, snaps, b, n)
  {
    hide Answered, ChunkMap.Run, Put, Apply;
    var m := n - 1;
    var s, t := snaps[m], snaps[n];
    assert Answered(s, asks[m], answers[m], t);
    if asks[m].AskBegin? { AnswersBegin(s, asks[m], answers[m], t); }
    if asks[m].AskBegin? && answers[m].error == UPLOAD_OK {
      b := m;
      NothingPut(asks, snaps, t.jobId, n, t.size as nat);
    } else {
      StillReceiving(s, asks[m], answers[m], t);
      b := HowReceived(asks, answers, snaps, m);
      PutNext(asks, snaps, t.jobId, b + 1, m);
      var before := Put(asks, snaps, t.jobId, b + 1, m);
      assert before + [] == before;
      if asks[m].AskChunk? { RunNext(before, AsRequest(asks[m].arrival), t.size as nat); }
    }
  }

  lemma AnswersBegin(s: Snapshot, r: Ask, a: Answer, t: Snapshot)
    requires Answered(s, r, a, t) && r.AskBegin?
    ensures a.Verdict? && BeginAnswered(s, r.job, r.size, r.sha256, a.error, t)
    ensures a.error == UPLOAD_OK ==> t == Snapshot(RECEIVING, r.job, r.size, r.sha256, map[], [], t.faults, s.runs)
  {}

  lemma {:induction false} NothingPut(asks: seq<Ask>, snaps: seq<Snapshot>, job: seq<byte>, n: nat, size: nat)
    requires n <= |asks| && |snaps| == |asks| + 1
    ensures ChunkMap.Run(Put(asks, snaps, job, n, n), size, MAX_CHUNKS) == map[]
  {}

  // ---- What a run is earned by -------------------------------------------------------------------

  /** What snapshot n is about was received from request b on, and finalized by request f; no run since. */
  ghost predicate Finalized(asks: seq<Ask>, answers: seq<Answer>, snaps: seq<Snapshot>, b: nat, f: nat, n: nat) {
    && f < n <= |asks| && Receiving(asks, answers, snaps, b, f)
    && asks[f] == AskFinalize(snaps[n].jobId, snaps[n].size, snaps[n].sha256)
    && SameJob(snaps[f], snaps[n])
    && AllHeld(snaps[f].chunks, snaps[f].size as nat)
    && snaps[n].file == Assemble(snaps[f].chunks, snaps[f].size as nat)
    && snaps[n].runs == snaps[f].runs
  }

  predicate SameJob(s: Snapshot, t: Snapshot) { s.jobId == t.jobId && s.size == t.size && s.sha256 == t.sha256 }

  /** A locked job stays what it was when it was finalized. */
  lemma StillLocked(s: Snapshot, r: Ask, a: Answer, t: Snapshot)
    requires Answered(s, r, a, t) && Locked(t.status)
    ensures SameJob(s, t) && t.runs == s.runs
    ensures !r.AskFinalize? || t == s ==> Locked(s.status) && t.file == s.file
    ensures r.AskFinalize? && t != s ==>
      && s.status == RECEIVING && r == AskFinalize(t.jobId, t.size, t.sha256)
      && AllHeld(s.chunks, s.size as nat) && t.file == Assemble(s.chunks, s.size as nat)
  {
    hide ChunkOutcome, FileJudged, Assemble, AllHeld, ReadinessOf, StartAnswered, CarriedThrough, ChunkAnswered,
      FinalizeAnswered, BeginAnswered;
    match r
    case AskStart(job, calls) => StartKeepsOut(s, job, calls, a, t);
    case AskChunk(arrival) => ChunkStays(s, arrival, a.error, t);
    case AskFinalize(job, size, sha256) => FinalizeStays(s, job, size, sha256, a.error, a.quiet, t);
    case AskBegin(job, size, sha256) => BeginStays(s, job, size, sha256, a.error, t);
    case _ =>
  }

  /** A locked job was begun, received and finalized, and its file is what was received. */
  lemma {:induction false} HowLocked(asks: seq<Ask>, answers: seq<Answer>, snaps: seq<Snapshot>, n: nat)
    returns (b: nat, f: nat)
    requires Served(asks, answers, snaps) && n <= |asks|
    requires snaps[0].status == IDLE && Locked(snaps[n].status)
    ensures Finalized(asks, answers, snaps, b, f, n)
  {
    hide Answered, Receiving, AllHeld, Assemble;
    var m := n - 1;
    var s, t := snaps[m], snaps[n];
    assert Answered(s, asks[m], answers[m], t);
    StillLocked(s, asks[m], answers[m], t);
    if asks[m].AskFinalize? && t != s {
      f := m;
      b := HowReceived(asks, answers, snaps, m);
    } else {
      b, f := HowLocked(asks, answers, snaps, m);
    }
  }

  /**
   A start carried through at request i adds a run of a file that was begun by an earlier request b,
   received chunk by chunk, and finalized by a later request f, since which no other run took place; all
   three preconditions of a start were met.
   */
  ghost predicate Earned(asks: seq<Ask>, answers: seq<Answer>, snaps: seq<Snapshot>, b: nat, f: nat, i: nat) {
    && f < i < |asks| && Receiving(asks, answers, snaps, b, f)
    && asks[f] == AskFinalize(snaps[f].jobId, snaps[f].size, snaps[f].sha256)
    && AllHeld(snaps[f].chunks, snaps[f].size as nat) && snaps[f].runs == snaps[i].runs
    && asks[i].AskStart? && asks[i].job == snaps[f].jobId && Granted(asks[i].calls) && answers[i].Judged?
    && snaps[i + 1].runs != [] && snaps[i + 1].runs[..|snaps[i + 1].runs| - 1] == snaps[i].runs
    && var run := snaps[i + 1].runs[|snaps[i].runs|];
    && Faithful(run) && run.safety == answers[i].safety && run.cleared == asks[i].calls.markerCleared
    && run.announced == Announcement(snaps[f].jobId, snaps[f].size, snaps[f].sha256)
    && run.file == Assemble(snaps[f].chunks, snaps[f].size as nat)
  }

  /** The runs change at one request only: a start that is carried through. */
  lemma RunsChange(s: Snapshot, r: Ask, a: Answer, t: Snapshot)
    requires Answered(s, r, a, t) && t.runs != s.runs
    ensures r.AskStart? && s.status == READY && r.job == s.jobId && Granted(r.calls) && a.Judged?
    ensures CarriedThrough(s, a.safety, r.calls.markerCleared, t)
  {
    hide ChunkOutcome, FileJudged, Assemble, AllHeld, ReadinessOf, CarriedThrough, ChunkAnswered, FinalizeAnswered,
      BeginAnswered;
    match r
    case AskChunk(arrival) => ChunkStays(s, arrival, a.error, t);
    case AskFinalize(job, size, sha256) => FinalizeStays(s, job, size, sha256, a.error, a.quiet, t);
    case AskBegin(job, size, sha256) => BeginStays(s, job, size, sha256, a.error, t);
    case _ =>
  }

  lemma {:induction false} RunIsEarned(asks: seq<Ask>, answers: seq<Answer>, snaps: seq<Snapshot>, i: nat)
    returns (b: nat, f: nat)
    requires Served(asks, answers, snaps) && i < |asks| && snaps[0].status == IDLE
    requires snaps[i + 1].runs != snaps[i].runs
    ensures Earned(asks, answers, snaps, b, f, i)
  {
    hide Answered, Receiving, AllHeld, Assemble, Faithful;
    assert Answered(snaps[i], asks[i], answers[i], snaps[i + 1]);
    RunsChange(snaps[i], asks[i], answers[i], snaps[i + 1]);
    b, f := HowLocked(asks, answers, snaps, i);
  }

  /** Every run there is was added by some request, which earned it. */
  lemma {:induction false} EveryRunIsEarned(asks: seq<Ask>, answers: seq<Answer>, snaps: seq<Snapshot>, n: nat, k: nat)
    returns (b: nat, f: nat, i: nat)
    requires Served(asks, answers, snaps) && n <= |asks|
    requires snaps[0].status == IDLE && snaps[0].runs == [] && k < |snaps[n].runs|
    ensures i < n && |snaps[i].runs| == k && |snaps[i + 1].runs| == k + 1
    ensures snaps[i + 1].runs[k] == snaps[n].runs[k] && Earned(asks, answers, snaps, b, f, i)
  {
    hide Answered, Earned;
    var m := n - 1;
    assert Answered(snaps[m], asks[m], answers[m], snaps[n]);
    if snaps[n].runs == snaps[m].runs {
      b, f, i := EveryRunIsEarned(asks, answers, snaps, m, k);
    } else {
      b, f := RunIsEarned(asks, answers, snaps, m);
      OneMore(asks, answers, snaps, b, f, m);
      if k < |snaps[m].runs| { b, f, i := EveryRunIsEarned(asks, answers, snaps, m, k); } else { i := m; }
    }
  }

  lemma OneMore(asks: seq<Ask>, answers: seq<Answer>, snaps: seq<Snapshot>, b: nat, f: nat, i: nat)
    requires |asks| == |answers| && |snaps| == |asks| + 1 && Earned(asks, answers, snaps, b, f, i)
    ensures |snaps[i + 1].runs| == |snaps[i].runs| + 1 && snaps[i].runs <= snaps[i + 1].runs
  {
    hide Receiving, AllHeld, Assemble, Faithful;
  }
}
