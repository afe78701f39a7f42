/**
 The board as its HTTP task and its execution task run it: what each request answers and does, and the
 run of a job, with requests and link events arriving at every call of it.
 */
module Device {
  import opened Bytes
  import opened Storage
  import opened Verifier
  import opened ChunkMap
  import opened ChunkRuns
  import opened ExecutionTrace
  import opened ExecutionLaws
  import opened Upload
  import opened Executor
  import opened HidLink
  import opened JobRuns
  import opened Requests
  import ExecutionSafety
  import Schedule
  import ScheduleCodec
  import Fips180
  import TickWait

  class Board {
    const upload: WifiUpload
    const link: Link
    ghost var history: seq<JobRun>

    constructor (upload: WifiUpload, link: Link)
      requires upload.Valid() && upload.status == IDLE && link.Valid()
      ensures this.upload == upload && this.link == link && Coherent() && history == []
    {
      this.upload := upload;
      this.link := link;
      history := [];
    }

    ghost predicate Coherent()
      reads this, upload, upload.storage.cells, upload.chunkLengths, upload.chunkCrc32, link, link.safety
      ensures Coherent() ==> upload.Valid() && link.Valid()
    {
      this !in upload.Repr() && upload.Valid() && link.Valid()
    }

    /** The board between two requests. */
    ghost function Now(): Snapshot
      requires upload.Valid()
      reads this`history, upload, upload.storage, upload.storage.cells, upload.chunkLengths, upload.chunkCrc32
    {
      Snapshot(upload.status, upload.jobId, upload.expectedSize, upload.expectedSha256, upload.Chunks(),
               if upload.JobLocked() then upload.StagedFile() else [], upload.storage.faults, history)
    }

    twostate lemma KeptChunks()
      requires old(upload.Valid()) && upload.Valid() && unchanged(upload`expectedSize)
      requires unchanged(upload.storage.cells) && unchanged(upload.chunkLengths) && unchanged(upload.chunkCrc32)
      ensures upload.Chunks() == old(upload.Chunks()) && upload.StagedFile() == old(upload.StagedFile())
    {
      hide Fips180.Sha256, Schedule.Decide;
    }

    // ---- Requests while no run is on ----------------------------------------------------

    method Begin(job: seq<byte>, size: u32, sha256: seq<byte>) returns (error: UploadError)
      requires Coherent() && |job| == 16 && |sha256| == 32
      modifies upload.Repr()
      ensures Coherent() && BeginAnswered(old(Now()), job, size, sha256, error, Now())
    {
      hide upload.Valid, link.Valid, upload.Certified, upload.Chunks, AllZero;
      error := upload.Begin(job, size, sha256);
    }

    method PutChunk(a: Arrival) returns (error: UploadError)
      requires Coherent() && AsReceived(a)
      modifies upload.Repr()
      ensures Coherent() && ChunkAnswered(old(Now()), a, error, Now())
    {
      hide upload.Valid, link.Valid, upload.Certified, upload.Chunks, Joined, ChunkOutcome;
      error := upload.PutChunk(a.job, a.sequence, a.offset, a.length, a.crc, a.pieces);
    }

    method Finalize(job: seq<byte>, size: u32, sha256: seq<byte>) returns (error: UploadError, ghost quiet: bool)
      requires Coherent() && |sha256| == 32
      modifies upload.Repr()
      ensures Coherent() && FinalizeAnswered(old(Now()), job, size, sha256, error, quiet, Now())
    {
      hide upload.Valid, link.Valid, upload.Certified, upload.Chunks, upload.Acceptable, Fips180.Sha256, Assemble,
        AllHeld, upload.FinalizedAs, FileJudged, upload.Kept, upload.SameProgress, Now;
      if upload.status == RECEIVING { HeldIsCounted(); }
      NowParts();
      var sha := new DigestProvider();
      ghost var broken := sha.faults;
      error := upload.Finalize(job, size, sha256, sha);
      quiet := upload.storage.faults == old(upload.storage.faults) && sha.faults == broken;
      StillAnnounced();
      NowParts();
      if upload.FinalizedAs(error, quiet) { JudgedFile(error, quiet); }
    }

    lemma NowParts()
      requires upload.Valid()
      ensures var s := Now();
        && s.status == upload.status && s.jobId == upload.jobId && s.size == upload.expectedSize
        && s.sha256 == upload.expectedSha256 && s.chunks == upload.Chunks() && s.faults == upload.storage.faults
        && s.file == if upload.JobLocked() then upload.StagedFile() else []
    {
      hide upload.Valid, upload.Chunks;
    }

    /** Only the status, the locked file and the faults can differ. */
    twostate lemma StillAnnounced()
      requires old(upload.Valid()) && upload.Valid() && history == old(history)
      requires upload.jobId == old(upload.jobId) && upload.expectedSha256 == old(upload.expectedSha256)
      requires unchanged(upload`expectedSize)
      requires unchanged(upload.storage.cells) && unchanged(upload.chunkLengths) && unchanged(upload.chunkCrc32)
      ensures var s, t := old(Now()), Now(); t == s.(status := t.status, file := t.file, faults := t.faults)
      ensures upload.StagedFile() == old(upload.StagedFile())
    {
      hide upload.Valid, upload.Chunks;
      KeptChunks();
    }

    lemma HeldIsCounted()
      requires upload.Valid() && upload.status == RECEIVING
      ensures AllHeld(upload.Chunks(), upload.expectedSize as nat) <==> upload.receivedBytes == upload.expectedSize
      ensures AllHeld(upload.Chunks(), upload.expectedSize as nat) ==>
        upload.StagedFile() == Assemble(upload.Chunks(), upload.expectedSize as nat)
    {
      hide Assemble, AllHeld, upload.Chunks, upload.Certified;
      upload.FullIsCounted();
      if upload.receivedBytes == upload.expectedSize { upload.StagedIsAssembled(); }
    }

    lemma JudgedFile(error: UploadError, quiet: bool)
      requires upload.Valid() && upload.FinalizedAs(error, quiet)
      ensures FileJudged(upload.StagedFile(), upload.expectedSha256, error, quiet)
      ensures upload.status == if error == UPLOAD_OK then READY else ERROR
    {
      hide upload.Valid, Fips180.Sha256, Schedule.Decide, ScheduleCodec.Conforms;
      ScheduleCodec.DecisionIsConformance(upload.StagedFile(), Schedule.CAM_LIMITS);
    }

    /** A stop request, which goes on to the link if it is accepted. */
    method Stop() returns (error: UploadError)
      requires Coherent()
      modifies upload.Repr(), link
      ensures Coherent() && StopAnswered(old(Now()), error, Now())
      ensures if error == UPLOAD_OK then link.Logged(StopAsked) else unchanged(link)
    {
      hide upload.Valid, link.Valid, upload.Certified, upload.Chunks;
      error := upload.RequestStop();
      if error == UPLOAD_OK { link.RequestStop(); }
    }

    method Cancel(job: seq<byte>) returns (error: UploadError)
      requires Coherent()
      modifies upload.Repr()
      ensures Coherent() && CancelAnswered(old(Now()), job, error, Now())
    {
      hide upload.Valid, link.Valid, upload.Certified, upload.Chunks;
      error := upload.Cancel(job);
    }

    // ---- A run ----------------------------------------------------------------------------

    /** The certified file, in the terms the executor and the history speak. */
    lemma CertifiedFile()
      requires upload.Valid() && upload.JobLocked()
      ensures Accepted(upload.StagedFile()) && Fips180.Sha256(upload.StagedFile()) == upload.expectedSha256
      ensures IsVerified(upload.verifiedSchedule)
      ensures upload.verifiedSchedule.reader == Reader(upload.storage, upload.expectedSize)
      ensures upload.expectedSize as nat <= upload.storage.cells.Length
      ensures Trusted(upload.verifiedSchedule, upload.StagedFile())
      ensures ScheduledRecords(upload.verifiedSchedule, upload.StagedFile()) == Asked(upload.StagedFile())
    {
      hide Fips180.Sha256, Schedule.Decide, Schedule.HeaderFields, ScheduleCodec.Conforms, upload.Accounted;
      ScheduleCodec.DecisionIsConformance(upload.StagedFile(), Schedule.CAM_LIMITS);
      AcceptedShape(upload.StagedFile());
    }

    ghost function RecordsToType(): seq<Schedule.Record>
      requires upload.Valid() && upload.JobLocked()
      reads upload, upload.storage.cells, upload.chunkLengths, upload.chunkCrc32
    {
      CertifiedFile();
      Asked(upload.StagedFile())
    }

    lemma CertifiedRecords()
      requires upload.Valid() && upload.JobLocked()
      ensures Accepted(upload.StagedFile()) && RecordsToType() == Asked(upload.StagedFile())
      ensures Fips180.Sha256(upload.StagedFile()) == upload.expectedSha256
    {
      hide upload.Valid, link.Valid, upload.Certified, Asked, Accepted, KeysOf;
      CertifiedFile();
    }

    lemma OutcomeRecorded(t: seq<Event>, moments: seq<Moment>, n: nat, rs: seq<Schedule.Record>)
      requires Ran(moments, n) && Outcome(t, rs, moments[n + 2].result)
      ensures Recorded(t, moments, n, rs)
    {
      hide Outcome;
    }

    lemma LockedIsVerified()
      requires upload.Valid() && upload.JobLocked()
      ensures IsVerified(upload.verifiedSchedule)
    {
      CertifiedFile();
    }

    /** The records to type depend only on what a run leaves alone. */
    twostate lemma SameRecords()
      requires old(upload.Valid()) && old(upload.JobLocked()) && upload.Valid() && upload.JobLocked()
      requires upload.Kept()
      ensures RecordsToType() == old(RecordsToType())
    {
      hide upload.Valid, Asked;
      assert upload.StagedFile() == old(upload.StagedFile());
    }

    /** The HID side of a run: the link is taken, used and given back; the log is read before it starts anew. */
    method RunScheduleCountdownObserved(io: ExecutorIo, countdownSeconds: nat)
      returns (result: ExecutorError, ghost log: LinkLog)
      requires io.upload == upload && io.link == link && io.Ready() && io.Fresh()
      modifies io, link.Repr(), upload.Repr()
      ensures upload.Valid() && upload.Busy() && upload.Kept() && link.Valid()
      ensures Framed(io.moments, countdownSeconds, result)
      ensures Reasoned(io.moments, log.start, log.happenings, result)
      ensures Recorded(io.trace, io.moments, countdownSeconds, old(RecordsToType()))
      ensures Heeding(io.trace, log.start, log.happenings) && Alert(log.start, log.happenings, log.naps)
      ensures TickWait.Measured(io.trace, io.slept)
      ensures Ran(io.moments, countdownSeconds) ==> Slept(log.naps) == 1000 * countdownSeconds + Sum(io.slept)
      ensures io.trace != [] ==> Noted(log, OwnBegin)
      ensures upload.status == STOPPING ==> Noted(log, StopAsked)
      ensures link.View() == GivenBack(After(log.start, log.happenings), io.moments)
    {
      hide Framed, Recorded, Opening, Heeding, upload.Valid, link.Valid, upload.Certified, RecordsToType, PollsTell,
        Paced, Slept, TickWait.Measured, Alert, After, Reasoned;
      ghost var rs := RecordsToType();
      io.OtherTasks();
      SameRecords();
      LockedIsVerified();
      if !IsVerified(upload.verifiedSchedule) { assert false; }
      else if link.connected && !link.running {
        result, log := RunOnLink(io, countdownSeconds, rs);
      } else {
        result := WAIT_FAILED;
        log := NotBegun(io, countdownSeconds, rs);
      }
    }

    /** The link is down or taken: nothing is done on it. */
    ghost method NotBegun(io: ExecutorIo, n: nat, rs: seq<Schedule.Record>) returns (log: LinkLog)
      requires io.upload == upload && io.link == link && io.Ready() && io.Fresh()
      requires !link.connected || link.running
      modifies io`moments
      ensures Framed(io.moments, n, WAIT_FAILED) && Reasoned(io.moments, log.start, log.happenings, WAIT_FAILED)
      ensures Recorded(io.trace, io.moments, n, rs) && !Ran(io.moments, n)
      ensures Heeding(io.trace, log.start, log.happenings) && Alert(log.start, log.happenings, log.naps)
      ensures TickWait.Measured(io.trace, io.slept)
      ensures upload.status == STOPPING ==> Noted(log, StopAsked)
      ensures link.View() == GivenBack(After(log.start, log.happenings), io.moments)
    {
      hide Framed, Recorded, Opening, Heeding, upload.Valid, PollsTell, Paced, Slept, TickWait.Measured, Alert, After,
        Possible, Timed;
      var hs := link.happenings;
      log := LinkLog(link.start, hs, link.naps);
      io.moments := [NotFree(|hs|)];
      assert hs[..|hs|] == hs;
      FrameNotBegun(n, |hs|);
      NotRecorded(n, |hs|, rs);
      NothingTyped([]);
      io.LogHeeds();
    }

    /** The link is free: it is taken, used, and given back. */
    method RunOnLink(io: ExecutorIo, countdownSeconds: nat, ghost rs: seq<Schedule.Record>)
      returns (result: ExecutorError, ghost log: LinkLog)
      requires io.upload == upload && io.link == link && io.Ready() && io.Fresh()
      requires link.connected && !link.running && rs == RecordsToType()
      modifies io, link.Repr(), upload.Repr()
      ensures upload.Valid() && upload.Busy() && upload.Kept() && link.Valid()
      ensures Framed(io.moments, countdownSeconds, result) && Recorded(io.trace, io.moments, countdownSeconds, rs)
      ensures Reasoned(io.moments, log.start, log.happenings, result)
      ensures Heeding(io.trace, log.start, log.happenings) && Alert(log.start, log.happenings, log.naps)
      ensures TickWait.Measured(io.trace, io.slept) && Noted(log, OwnBegin)
      ensures Ran(io.moments, countdownSeconds) ==> Slept(log.naps) == 1000 * countdownSeconds + Sum(io.slept)
      ensures upload.status == STOPPING ==> Noted(log, StopAsked)
      ensures link.View() == GivenBack(After(log.start, log.happenings), io.moments)
    {
      hide Framed, Recorded, Reasoned, Opening, Heeding, upload.Valid, link.Valid, upload.Certified, RecordsToType,
        PollsTell, Paced, Slept, TickWait.Measured, Alert, After;
      io.TakeLink();
      var clear: bool;
      result, clear := RunTaken(io, countdownSeconds, rs);
      RecordedKeys(io.trace, io.moments, countdownSeconds, result, rs);
      OthersOnceMore(io, result);
      io.LogHeeds();
      log := LinkLog(link.start, link.happenings, link.naps);
      FlagsAreLogged();
      link.EndRun(clear);
    }

    lemma FlagsAreLogged()
      requires link.Valid()
      ensures link.View() == After(link.start, link.happenings)
    {}

    method OthersOnceMore(io: ExecutorIo, ghost result: ExecutorError)
      requires io.upload == upload && io.link == link && io.Live()
      requires Reasoned(io.moments, link.start, link.happenings, result)
      modifies link.Repr(), upload.Repr()
      ensures io.Live() && upload.Kept() && Reasoned(io.moments, link.start, link.happenings, result)
    {
      hide Reasoned, io.Live, upload.Valid, link.Valid;
      io.OtherTasks();
      ReasonedLater(io.moments, link.start, old(link.happenings), link.happenings, result);
    }

    /** The run while it has the link: release, countdown, executor, release. */
    method RunTaken(io: ExecutorIo, countdownSeconds: nat, ghost rs: seq<Schedule.Record>)
      returns (result: ExecutorError, clear: bool)
      requires io.upload == upload && io.link == link && io.Live() && io.Fresh() && rs == RecordsToType()
      modifies io, link.Repr(), upload.Repr()
      ensures io.Live() && upload.Kept()
      ensures Framed(io.moments, countdownSeconds, result) && Recorded(io.trace, io.moments, countdownSeconds, rs)
      ensures Reasoned(io.moments, link.start, link.happenings, result)
      ensures Ran(io.moments, countdownSeconds) ==> io.rest == 1000 * countdownSeconds
      ensures io.moments != [] && !io.moments[0].NotFree? && (clear <==> io.moments[0] != Lift(false))
    {
      hide Framed, Recorded, Reasoned, Opening, Ran, io.Live, upload.Valid, link.Valid, upload.Certified,
        RecordsToType, Outcome;
      var released := io.Lift();
      if !released {
        assert io.moments == [Lift(false)];
        FrameNotBegun(countdownSeconds, 0);
        NotRecorded(countdownSeconds, 0, rs);
        LiftIsNoReason(link.start, link.happenings);
        return RELEASE_FAILED, false;
      }
      SameRecords();
      var counted: bool;
      counted, result := CountDown(io, countdownSeconds, rs);
      SameRecords();
      if counted { result := TypeAndLift(io, countdownSeconds, rs); }
      clear := true;
    }

    lemma LiftIsNoReason(f: Flags, hs: seq<Happening>)
      ensures Reasoned([Lift(false)], f, hs, RELEASE_FAILED)
    {}

    /** After the countdown: the upload is told; the executor; and a release whatever it answers. */
    method TypeAndLift(io: ExecutorIo, n: nat, ghost rs: seq<Schedule.Record>) returns (result: ExecutorError)
      requires io.upload == upload && io.link == link && io.Live() && io.trace == [] && io.moments == Opening(n)
      requires rs == RecordsToType()
      modifies io`trace, io`slept, io`moments, link.Repr(), upload.Repr()
      ensures io.Live() && upload.Kept()
      ensures Framed(io.moments, n, result) && Recorded(io.trace, io.moments, n, rs) && Ran(io.moments, n)
      ensures Reasoned(io.moments, link.start, link.happenings, result)
      ensures io.moments != [] && io.moments[0] == Lift(true)
    {
      hide Framed, Recorded, Reasoned, Ran, io.Live, upload.Valid, link.Valid, upload.Certified, RecordsToType, Outcome,
        Seconds, Opening;
      io.CountdownComplete();
      SameRecords();
      result := TypeSchedule(io, upload.verifiedSchedule, rs);
      ghost var typed := result;
      var released := io.Lift();
      FrameWhole(n, typed, released);
      assert io.moments == Opening(n) + [Told, Typed(typed), Lift(released)];
      OutcomeRecorded(io.trace, io.moments, n, rs);
      if !released { result := RELEASE_FAILED; }
      WholeIsNoReason(n, typed, released, link.start, link.happenings, result);
    }

    lemma WholeIsNoReason(n: nat, typed: ExecutorError, ok: bool, f: Flags, hs: seq<Happening>, result: ExecutorError)
      ensures Reasoned(Opening(n) + [Told, Typed(typed), Lift(ok)], f, hs, result)
    {
      hide Opening;
      NoReasons(n, f, hs, result, [Told, Typed(typed), Lift(ok)]);
    }

    /** One-second waits after the first release, each of which may be cut short; if one is, a last release. */
    method CountDown(io: ExecutorIo, seconds: nat, ghost rs: seq<Schedule.Record>)
      returns (counted: bool, result: ExecutorError)
      requires io.upload == upload && io.link == link && io.Live() && io.moments == [Lift(true)]
      modifies io`rest, io`moments, link.Repr(), upload.Repr()
      ensures io.Live() && upload.Kept()
      ensures counted ==>
        result == EXECUTOR_OK && io.moments == Opening(seconds) && io.rest == old(io.rest) + 1000 * seconds
      ensures !counted ==> Framed(io.moments, seconds, result) && Recorded([], io.moments, seconds, rs)
      ensures !counted ==> Reasoned(io.moments, link.start, link.happenings, result) && !Ran(io.moments, seconds)
      ensures io.moments != [] && io.moments[0] == Lift(true)
    {
      hide Framed, Recorded, Reasoned, Ran, io.Live, upload.Valid, upload.Busy, StopSeen, link.Valid;
      var left: nat := seconds;
      while left > 0
        invariant left <= seconds && io.moments == Opening(seconds - left)
        invariant io.Live() && upload.Kept() && io.rest == old(io.rest) + 1000 * (seconds - left)
      {
        var whole := io.Second();
        if !whole {
          result := BreakOff(io, seconds - left, seconds, rs);
          return false, result;
        }
        left := left - 1;
      }
      return true, EXECUTOR_OK;
    }

    /** A second was broken: by the stop flag, or by the lost link alone; a release, and that is all. */
    method BreakOff(io: ExecutorIo, ghost k: nat, ghost n: nat, ghost rs: seq<Schedule.Record>)
      returns (result: ExecutorError)
      requires io.upload == upload && io.link == link && io.Live() && StopSeen(link.View()) && k < n
      requires io.moments == Opening(k) + [Broken(|link.happenings|)]
      modifies io`moments, link.Repr(), upload.Repr()
      ensures io.Live() && upload.Kept()
      ensures Framed(io.moments, n, result) && Recorded([], io.moments, n, rs) && !Ran(io.moments, n)
      ensures Reasoned(io.moments, link.start, link.happenings, result)
      ensures io.moments != [] && io.moments[0] == Lift(true)
    {
      hide Framed, Recorded, Reasoned, Ran, io.Live, upload.Valid, upload.Busy, Seconds;
      result := if link.stopRequested then EXECUTOR_STOPPED else WAIT_FAILED;
      ghost var known := |link.happenings|;
      BrokenForAReason(result);
      var released := io.Lift();
      assert io.moments == Opening(k) + [Broken(known), Lift(released)];
      FrameBroken(k, n, known, released, rs);
      BrokenFrame(k, n, known, released, result);
      ReasonedLater([Broken(known)], link.start, old(link.happenings), link.happenings, result);
      BrokenIsReasoned(k, known, released, link.start, link.happenings, result);
    }

    lemma BrokenForAReason(result: ExecutorError)
      requires link.Valid() && StopSeen(link.View())
      requires result == EXECUTOR_STOPPED <==> link.stopRequested
      ensures Reasoned([Broken(|link.happenings|)], link.start, link.happenings, result)
    {
      hide After, Possible, Timed, Alert;
      assert link.happenings[..|link.happenings|] == link.happenings;
    }

    lemma BrokenFrame(k: nat, n: nat, known: nat, ok: bool, result: ExecutorError)
      requires k < n && result in {EXECUTOR_STOPPED, WAIT_FAILED}
      ensures Framed(Opening(k) + [Broken(known), Lift(ok)], n, result)
    {
      hide Opening;
    }

    lemma BrokenIsReasoned(k: nat, known: nat, ok: bool, f: Flags, hs: seq<Happening>, result: ExecutorError)
      requires Reasoned([Broken(known)], f, hs, result)
      ensures Reasoned(Opening(k) + [Broken(known), Lift(ok)], f, hs, result)
    {
      hide Opening, After, StopSeen;
      var tail := [Broken(known), Lift(ok)];
      assert ReasonAt([Broken(known)][0], f, hs, result);
      NoReasons(k, f, hs, result, tail);
    }

    /** The executor on the certified schedule. */
    method TypeSchedule(io: ExecutorIo, schedule: VerifiedSchedule, ghost rs: seq<Schedule.Record>)
      returns (result: ExecutorError)
      requires io.upload == upload && io.link == link && io.Live() && io.trace == []
      requires schedule == upload.verifiedSchedule && upload.JobLocked() && rs == RecordsToType()
      modifies io`trace, io`slept, io`moments, link.Repr(), upload.Repr()
      ensures io.Live() && upload.Kept() && Outcome(io.trace, rs, result)
      ensures io.moments == old(io.moments) + [Typed(result)]
    {
      hide io.Live, upload.Valid, link.Valid, upload.Busy, upload.Certified, Outcome, Trusted, ScheduledRecords,
        Asked, Accepted, Fips180.Sha256;
      CertifiedFile();
      assert File(schedule.reader) == upload.StagedFile();
      result := Executor.Run(schedule, io);
      io.Note(Typed(result));
    }

    // ---- The execution task -----------------------------------------------------------------

    /** From its notification to the terminal state of the job: one run more, and the job as that left it. */
    method ExecutionTask(io: ExecutorIo, markerCleared: bool, ghost safety: seq<ExecutionSafety.Event>)
      requires Coherent() && upload.Busy() && io.upload == upload && io.link == link
      requires io.Ready() && io.Fresh()
      requires ExecutionSafety.Ready(ExecutionSafety.Run(safety))
      modifies this, io, link.Repr(), upload.Repr()
      ensures Coherent() && CarriedThrough(old(Now()), safety, markerCleared, Now())
    {
      hide upload.Valid, link.Valid, io.Ready, upload.Certified, Asked, Accepted, Faithful, Fips180.Sha256,
        RecordsToType, Typing, KeptItsFrame, HeededItsLink, SleptWell, KeysOf, upload.Chunks;
      CertifiedRecords();
      ghost var promised := Announcement(upload.jobId, upload.expectedSize, upload.expectedSha256);
      ghost var file := upload.StagedFile();
      ghost var run: JobRun;
      run := Execute(io, markerCleared, promised, file, safety);
      KeptChunks();
      FaithfulParts(run);
      history := history + [run];
    }

    /** The run, and what may still be asked of the board until the job is completed. */
    method Execute(io: ExecutorIo, markerCleared: bool, ghost promised: Announcement, ghost file: seq<byte>,
      ghost safety: seq<ExecutionSafety.Event>)
      returns (ghost run: JobRun)
      requires io.upload == upload && io.link == link && io.Ready() && io.Fresh()
      requires file == upload.StagedFile() && Accepted(file)
      modifies io, link.Repr(), upload.Repr()
      ensures upload.Valid() && !upload.JobLocked() && link.Valid() && upload.Kept()
      ensures run.announced == promised && run.file == file && run.safety == safety && run.cleared == markerCleared
      ensures Typing(run.trace) <= Spelled(file)
      ensures run.result == EXECUTOR_OK ==> Typing(run.trace) == Spelled(file)
      ensures KeptItsFrame(run) && HeededItsLink(run) && SleptWell(run) && run.status == upload.status
    {
      hide upload.Valid, link.Valid, RecordsToType, Typing, Framed, Reasoned, Recorded, Heeding, io.Ready,
        Noted, Asked, Accepted, KeysOf, Alert, Slept, TickWait.Measured, Ran, After;
      CertifiedRecords();
      ghost var rs := RecordsToType();
      ghost var log: LinkLog;
      var result: ExecutorError;
      result, log := RunScheduleCountdownObserved(io, COUNTDOWN_SECONDS);
      RecordedKeys(io.trace, io.moments, COUNTDOWN_SECONDS, result, rs);
      ghost var hidResult, stopping, trace, slept, moments :=
        result, upload.status == STOPPING, io.trace, io.slept, io.moments;
      result := Conclude(result, markerCleared);
      run := JobRun(promised, file, safety, trace, slept, log, moments, stopping, markerCleared, hidResult, result,
                    upload.status);
    }

    /** Others once more, the marker, others, and the job's terminal status. */
    method Conclude(hidResult: ExecutorError, markerCleared: bool) returns (result: ExecutorError)
      requires upload.Valid() && upload.Busy() && link.Valid()
      modifies link.Repr(), upload.Repr()
      ensures upload.Valid() && link.Valid() && upload.Kept()
      ensures result == if markerCleared then hidResult else WAIT_FAILED
      ensures upload.status == StatusAfter(result) && !upload.JobLocked() && upload.executorError == result
    {
      hide upload.Valid, link.Valid;
      result := hidResult;
      LateTasks();
      if !markerCleared { result := WAIT_FAILED; }
      LateTasks();
      upload.Complete(result);
    }

    /** The link is given back and the job not yet completed: a stop is still accepted, and changes nothing. */
    method LateTasks()
      requires upload.Valid() && upload.Busy() && link.Valid()
      modifies link.Repr(), upload.Repr()
      ensures upload.Valid() && upload.Busy() && link.Valid() && upload.Kept()
      ensures old(upload.status) == STOPPING ==> upload.status == STOPPING
    {
      hide upload.Valid, link.Valid;
      var turns: nat := *;
      while turns > 0
        invariant upload.Valid() && upload.Busy() && link.Valid() && upload.Kept()
        invariant old(upload.status) == STOPPING ==> upload.status == STOPPING
      {
        var kind: nat := *;
        if kind == 0 { LateStop(); } else if kind == 1 { link.Elapse(); } else { upload.OtherRequests(); }
        turns := turns - 1;
      }
    }

    method LateStop()
      requires upload.Valid() && upload.Busy() && link.Valid()
      modifies upload`status, upload`stopRequested, link
      ensures upload.Valid() && link.Valid() && upload.status == STOPPING && upload.Kept() && link.Logged(StopAsked)
    {
      hide upload.Valid, link.Valid;
      var error := upload.RequestStop();
      if error == UPLOAD_OK { link.RequestStop(); }
    }

    // ---- A start ------------------------------------------------------------------------------

    /** What the safety machine says about typing now. */
    method Readiness() returns (readiness: HidReadiness)
      requires link.Valid()
      ensures readiness == ReadinessOf(ExecutionSafety.Run(link.safetyLog))
    {
      hide ExecutionSafety.Run, After, Possible, Timed, Alert;
      var safety := link.safety;
      if !safety.connected { return HID_DISCONNECTED; }
      if safety.authenticated && safety.hidState == ExecutionSafety.CONFIRMED { return HID_READY; }
      if safety.hidState == ExecutionSafety.FAILED_RETRYABLE
         && (safety.hidError == ExecutionSafety.AUTH_FAILED || safety.releaseAttempts >= ExecutionSafety.MAX_ATTEMPTS) {
        return HID_FAILED;
      }
      return HID_PENDING;
    }

    /** A start request: refused, taken back, or carried through to the end of the run. */
    method Start(job: seq<byte>, calls: Calls) returns (error: UploadError, ghost answer: Answer)
      requires Coherent()
      modifies this, upload.Repr(), link.Repr()
      ensures Coherent() && StartAnswered(old(Now()), job, calls, answer, Now())
      ensures answer == Judged(error, old(link.safetyLog))
    {
      hide upload.Valid, link.Valid, upload.Chunks, ReadinessOf, CarriedThrough, ExecutionSafety.Run, Slept, After,
        ExecutorIo.Ready, ExecutorIo.ReadyBut;
      ghost var safety, before := link.safetyLog, Now();
      var readiness := Readiness();
      LetLinkChange();
      error := Prepare(job, readiness);
      if error == UPLOAD_OK {
        ReadyWhenSaidSo(safety);
        var io := Accept();
        error := Launch(io, calls, before, safety);
      }
      answer := Judged(error, safety);
    }

    lemma {:induction false} ReadyWhenSaidSo(safety: seq<ExecutionSafety.Event>)
      requires ReadinessOf(ExecutionSafety.Run(safety)) == HID_READY
      ensures ExecutionSafety.Ready(ExecutionSafety.Run(safety))
    {
      hide ExecutionSafety.Run;
    }

    /** The upload's verdict on the start. */
    method Prepare(job: seq<byte>, readiness: HidReadiness) returns (error: UploadError)
      requires Coherent()
      modifies upload`status, upload`stopRequested
      ensures Coherent() && error == StartError(old(Now()), job, readiness)
      ensures Now() == if error == UPLOAD_OK then old(Now()).(status := COUNTDOWN) else old(Now())
      ensures error == UPLOAD_OK ==> readiness == HID_READY && old(upload.status) == READY
    {
      hide upload.Valid, link.Valid, upload.Certified, upload.Chunks;
      error := upload.PrepareStart(job, readiness);
    }

    /** The marker, the task and the answer, in this order; at the first that fails, the start is taken back. */
    method Launch(io: ExecutorIo, calls: Calls, ghost before: Snapshot, ghost safety: seq<ExecutionSafety.Event>)
      returns (error: UploadError)
      requires Coherent() && before.status == READY && Now() == before.(status := COUNTDOWN)
      requires io.upload == upload && io.link == link && io.Ready() && io.Fresh()
      requires ExecutionSafety.Ready(ExecutionSafety.Run(safety))
      modifies this, io, upload.Repr(), link.Repr()
      ensures Coherent() && error == LaunchError(calls)
      ensures if Granted(calls) then CarriedThrough(before, safety, calls.markerCleared, Now()) else Now() == before
    {
      hide upload.Valid, link.Valid, io.Ready, CarriedThrough, upload.Chunks, ExecutionSafety.Run;
      LetLinkChangeFor(io);
      if !calls.markerSet {
        TakeBack(before);
        return STORAGE_FAILURE;
      }
      if !calls.taskCreated {
        TakeBack(before);
        return INVALID_STATE;
      }
      if calls.acknowledged {
        ExecutionTask(io, calls.markerCleared, safety);
        FromCountdown(before, safety, calls.markerCleared, Now());
      } else {
        TakeBack(before);
      }
      return UPLOAD_OK;
    }

    /** Counting down changes the status alone. */
    lemma FromCountdown(s: Snapshot, safety: seq<ExecutionSafety.Event>, cleared: bool, t: Snapshot)
      requires CarriedThrough(s.(status := COUNTDOWN), safety, cleared, t)
      ensures CarriedThrough(s, safety, cleared, t)
    {
      hide Faithful;
    }

    method TakeBack(ghost before: Snapshot)
      requires Coherent() && before.status == READY && Now() == before.(status := COUNTDOWN)
      modifies upload`status, upload`stopRequested
      ensures Coherent() && Now() == before
    {
      hide upload.Valid, link.Valid, upload.Certified, upload.Chunks;
      var error := upload.StartFailed();
    }

    method LetLinkChangeFor(io: ExecutorIo)
      requires Coherent() && io.upload == upload && io.link == link && io.Ready()
      modifies link.Repr()
      ensures Coherent() && io.Ready()
    {
      hide upload.Valid, link.Valid, upload.Certified;
      io.LinkChanges();
    }

    /** An accepted start: the run's record and the link's log begin. */
    method Accept() returns (io: ExecutorIo)
      requires Coherent() && upload.status == COUNTDOWN
      modifies link`start, link`happenings, link`naps, link`now
      ensures Coherent() && fresh(io) && io.upload == upload && io.link == link
      ensures io.Ready() && io.Fresh()
    {
      hide upload.Valid, After, Possible, Timed;
      io := new ExecutorIo(upload, link);
      link.Restart();
    }

    method LetLinkChange()
      requires Coherent()
      modifies link.Repr()
      ensures Coherent()
    {
      hide upload.Valid, link.Valid, upload.Certified;
      link.Elapse();
    }

    // ---- Every sequence of requests -------------------------------------------------------------

    /**
     Any requests, one after the other, while the link changes: each is answered, and moves the board,
     as it should.
     */
    method Serve(asks: seq<Ask>) returns (ghost answers: seq<Answer>, ghost snaps: seq<Snapshot>)
      requires Coherent() && forall r :: r in asks ==> WellPut(r)
      modifies this, upload.Repr(), link.Repr()
      ensures Coherent() && Served(asks, answers, snaps)
      ensures snaps[0] == old(Now()) && snaps[|asks|] == Now()
    {
      hide upload.Valid, link.Valid, Answered, WellPut, upload.Chunks;
      answers, snaps := [], [Now()];
      for n := 0 to |asks|
        invariant Coherent() && |answers| == n && |snaps| == n + 1
        invariant snaps[0] == old(Now()) && snaps[n] == Now()
        invariant forall i :: 0 <= i < n ==> Answered(snaps[i], asks[i], answers[i], snaps[i + 1])
      {
        LetLinkChange();
        ghost var answer := ServeOne(asks[n]);
        answers, snaps := answers + [answer], snaps + [Now()];
      }
    }

    method ServeOne(r: Ask) returns (ghost answer: Answer)
      requires Coherent() && WellPut(r)
      modifies this, upload.Repr(), link.Repr()
      ensures Coherent() && Answered(old(Now()), r, answer, Now())
    {
      hide upload.Valid, link.Valid, upload.Chunks, BeginAnswered, ChunkAnswered, FinalizeAnswered, StartAnswered,
        StopAnswered, CancelAnswered;
      var error: UploadError;
      if r.AskStart? {
        error, answer := Start(r.job, r.calls);
        return;
      }
      ghost var quiet := true;
      match r {
        case AskBegin(job, size, sha256) => error := Begin(job, size, sha256);
        case AskChunk(arrival) => error := PutChunk(arrival);
        case AskFinalize(job, size, sha256) => error, quiet := Finalize(job, size, sha256);
        case AskStop => error := Stop();
        case AskCancel(job) => error := Cancel(job);
      }
      answer := Verdict(error, quiet);
    }
  }
}
