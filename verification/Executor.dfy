/** The executor, driven against an environment that may answer anything and lets other tasks run at every call. */
module Executor {
  import opened Bytes
  import opened Schedule
  import opened ScheduleCodec
  import opened Storage
  import opened Verifier
  import opened ChunkMap
  import opened Upload
  import opened ExecutionTrace
  import opened ExecutionLaws
  import opened HidLink
  import TickWait

  /** The injected calls. Every one is a point at which requests are handled and the link may change. */
  class ExecutorIo {
    const upload: WifiUpload
    const link: Link
    var trace: seq<Event>
    /** The ticks slept during each call, and in the countdown before the first. */
    ghost var slept: seq<nat>
    ghost var rest: nat
    /** What the run did around the executor. */
    ghost var moments: seq<Moment>

    constructor (upload: WifiUpload, link: Link)
      ensures this.upload == upload && this.link == link && trace == [] && slept == [] && Fresh()
    {
      this.upload := upload;
      this.link := link;
      trace, slept, rest, moments := [], [], 0, [];
    }

    /**
     A start was accepted, and the log of the link keeps step with the trace; all that was slept on the
     link is accounted for, up to the ticks of a call that is not recorded yet.
     */
    ghost predicate ReadyBut(ticks: nat)
      reads this, upload, upload.storage.cells, upload.chunkLengths, upload.chunkCrc32, link, link.safety
      ensures ReadyBut(ticks) ==> upload.Valid() && upload.Busy() && link.Valid()
    {
      && this !in upload.Repr() && upload.Valid() && upload.Busy()
      && link.Valid() && link.now == |trace| && PollsTell(trace, link.start, link.happenings)
      && TickWait.Measured(trace, slept) && Slept(link.naps) == rest + Sum(slept) + ticks
      && (upload.status == STOPPING ==> Noted(StopAsked))
    }

    /** Nothing was done yet. */
    ghost predicate Fresh()
      reads this
    {
      trace == [] && slept == [] && rest == 0 && moments == []
    }

    ghost predicate Ready()
      reads this, upload, upload.storage.cells, upload.chunkLengths, upload.chunkCrc32, link, link.safety
      ensures Ready() ==> upload.Valid() && upload.Busy() && link.Valid()
    {
      ReadyBut(0)
    }

    ghost predicate Noted(e: LinkEvent)
      reads link
    {
      exists j :: 0 <= j < |link.happenings| && link.happenings[j].what == e
    }

    /** And the run has taken the link. */
    ghost predicate Live()
      reads this, upload, upload.storage.cells, upload.chunkLengths, upload.chunkCrc32, link, link.safety
      ensures Live() ==> Ready()
    {
      Ready() && Noted(OwnBegin)
    }

    ghost predicate LiveBut(ticks: nat)
      reads this, upload, upload.storage.cells, upload.chunkLengths, upload.chunkCrc32, link, link.safety
    {
      ReadyBut(ticks) && Noted(OwnBegin)
    }

    twostate lemma NotedStays(e: LinkEvent)
      requires old(link.happenings) <= link.happenings
      ensures old(Noted(e)) ==> Noted(e)
    {
      if old(Noted(e)) {
        var j :| 0 <= j < |old(link.happenings)| && old(link.happenings)[j].what == e;
        assert link.happenings[j].what == e;
      }
    }

    /** A stop request: the upload decides, and an accepted one goes on to the link. */
    method StopHandler()
      requires Ready()
      modifies upload`status, upload`stopRequested, link
      ensures Ready() && upload.Kept() && link.Elapsed()
    {
      hide upload.Valid, link.Valid, After, Until;
      var error := upload.RequestStop();
      if error == UPLOAD_OK {
        link.RequestStop();
        PollsTellLater(trace, link.start, old(link.happenings), link.happenings);
        assert link.happenings[|old(link.happenings)|].what == StopAsked;
      }
    }

    /** Link events, console stops and other runs. */
    method LinkChanges()
      requires Ready()
      modifies link.Repr()
      ensures Ready() && link.Elapsed()
    {
      hide upload.Valid, link.Valid, After, Until;
      link.Elapse();
      PollsTellLater(trace, link.start, old(link.happenings), link.happenings);
      NotedStays(StopAsked);
    }

    method OtherRequests()
      requires Ready()
      modifies upload.Repr()
      ensures Ready() && upload.Kept() && upload.storage.faults >= old(upload.storage.faults) && upload.SameProgress()
    {
      hide upload.Valid, link.Valid, PollsTell;
      upload.OtherRequests();
    }

    /** What may happen between two calls of the run: anything, in any order. */
    method OtherTasks()
      requires Ready()
      modifies link.Repr(), upload.Repr()
      ensures Ready() && upload.Kept() && upload.storage.faults >= old(upload.storage.faults) && link.Elapsed()
      ensures upload.SameProgress() && (old(Live()) ==> Live())
    {
      hide upload.Valid, link.Valid, Ready;
      var turns: nat := *;
      while turns > 0
        invariant Ready() && upload.Kept() && upload.storage.faults >= old(upload.storage.faults) && link.Elapsed()
        invariant upload.SameProgress()
      {
        var kind: nat := *;
        if kind == 0 { StopHandler(); } else if kind == 1 { LinkChanges(); } else { OtherRequests(); }
        turns := turns - 1;
      }
      NotedStays(OwnBegin);
    }

    /** The run takes the link, which clears the stop flag: a stop raised before is gone. */
    method TakeLink()
      requires Ready() && trace == [] && link.connected && !link.running
      modifies link
      ensures Live()
    {
      hide upload.Valid, link.Valid, After, Until;
      link.BeginRun();
      NotedStays(StopAsked);
      assert link.happenings[|old(link.happenings)|].what == OwnBegin;
    }

    /** The releases around the executor, which its record does not hold. */
    method Lift() returns (ok: bool)
      requires Live()
      modifies this`moments, link.Repr(), upload.Repr()
      ensures Live() && upload.Kept() && link.Elapsed() && (ok ==> link.connected)
      ensures moments == old(moments) + [Moment.Lift(ok)]
    {
      hide upload.Valid, link.Valid, PollsTell;
      OtherTasks();
      var taken: bool := *;
      ok := link.connected && taken;
      Note(Moment.Lift(ok));
    }

    /** One second of the countdown: a thousand ticks, or fewer and a stop to be seen. */
    method Second() returns (whole: bool)
      requires Live()
      modifies this`moments, this`rest, link.Repr(), upload.Repr()
      ensures moments == old(moments) + [if whole then Moment.Second else Broken(|link.happenings|)]
      ensures Live() && upload.Kept() && (whole <==> !StopSeen(link.View()))
      ensures if whole then rest == old(rest) + 1000 else old(rest) <= rest <= old(rest) + 1000
    {
      hide upload.Valid, link.Valid, Ready, StopSeen;
      OtherTasks();
      whole := PauseMs(1000);
      Note(if whole then Moment.Second else Broken(|link.happenings|));
    }

    method PauseMs(delayMs: nat) returns (ok: bool)
      requires Live() && delayMs > 0
      modifies this`rest, link.Repr()
      ensures Live() && (ok <==> !StopSeen(link.View()))
      ensures if ok then rest == old(rest) + delayMs else old(rest) <= rest <= old(rest) + delayMs
    {
      hide upload.Valid, link.Valid, After, Until, Durations, Sum, TickWait.Measured, TickWait.Sliced, StopSeen;
      ghost var slices: seq<nat>;
      ok, slices := TickWait.WaitMs(link, delayMs);
      SumOfBoth(old(Durations(link.naps)), slices);
      rest := rest + Sum(slices);
      PollsTellLater(trace, link.start, old(link.happenings), link.happenings);
      NotedStays(StopAsked);
      NotedStays(OwnBegin);
    }

    /** The countdown is over: the upload is told, unless a stop came first. */
    method CountdownComplete()
      requires Live()
      modifies this`moments, upload`status
      ensures Live() && upload.Kept() && moments == old(moments) + [Told]
      ensures upload.status == if old(upload.status) == COUNTDOWN then EXECUTING else old(upload.status)
    {
      hide upload.Valid, link.Valid, PollsTell;
      var error := upload.MarkExecuting();
      Note(Told);
    }

    /** What is done around the executor goes on a record of its own. */
    ghost method Note(m: Moment)
      requires Live()
      modifies this`moments
      ensures Live() && moments == old(moments) + [m]
    {
      hide upload.Valid, link.Valid, PollsTell;
      moments := moments + [m];
    }

    /** The record and the log of the link, taken together. */
    lemma LogHeeds()
      requires Ready() && Paced(trace)
      ensures Heeding(trace, link.start, link.happenings) && Alert(link.start, link.happenings, link.naps)
    {
      hide Paced, PollsTell, After, Possible;
    }

    /** The call was made, with this answer, and so many ticks were slept in it. */
    method Record(e: Event, ghost ticks: nat)
      requires LiveBut(ticks) && (e.Poll? ==> e.stop == StopSeen(link.View())) && TickWait.MeasuredAt(e, ticks)
      modifies this`trace, this`slept, link`now
      ensures Live() && trace == old(trace) + [e] && slept == old(slept) + [ticks]
    {
      hide upload.Valid, After, Until, Durations, Sum, TickWait.Measured, TickWait.MeasuredAt;
      PollsTellCall(trace, link.start, link.happenings, e);
      TickWait.MeasuredNext(trace, slept, e, ticks);
      SumNext(slept, ticks);
      link.Tick();
      trace := trace + [e];
      slept := slept + [ticks];
    }

    method StopRequested() returns (stop: bool)
      requires Live()
      modifies this`trace, this`slept, link.Repr(), upload.Repr()
      ensures Live() && upload.Kept() && upload.storage.faults >= old(upload.storage.faults)
      ensures trace == old(trace) + [Poll(stop)]
    {
      hide upload.Valid, link.Valid, PollsTell, Slept, TickWait.Measured;
      OtherTasks();
      stop := link.stopRequested || !link.connected;
      Record(Poll(stop), 0);
    }

    method NowUs() returns (us: u64)
      requires Live()
      modifies this`trace, this`slept, link.Repr(), upload.Repr()
      ensures Live() && upload.Kept() && upload.storage.faults >= old(upload.storage.faults)
      ensures trace == old(trace) + [Clock(us)]
    {
      hide upload.Valid, link.Valid, PollsTell, Slept, TickWait.Measured;
      OtherTasks();
      us := *;
      Record(Clock(us), 0);
    }

    /** The wait in ticks: granted if and only if the flags are clear at its end, and then as long as asked for. */
    method WaitUs(delayUs: u32) returns (ok: bool)
      requires Live()
      modifies this`trace, this`slept, link.Repr(), upload.Repr()
      ensures Live() && upload.Kept() && upload.storage.faults >= old(upload.storage.faults)
      ensures trace == old(trace) + [Wait(delayUs, ok)]
      ensures ok <==> delayUs == 0 || !StopSeen(link.View())
    {
      hide upload.Valid, link.Valid, PollsTell, Slept, TickWait.Measured, TickWait.CeilTicks;
      OtherTasks();
      ghost var ticks: nat;
      ok, ticks := Sleep(delayUs);
      Record(Wait(delayUs, ok), ticks);
    }

    method Sleep(delayUs: u32) returns (ok: bool, ghost ticks: nat)
      requires Live()
      modifies link.Repr()
      ensures LiveBut(ticks) && (ok <==> delayUs == 0 || !StopSeen(link.View()))
      ensures TickWait.MeasuredAt(Wait(delayUs, ok), ticks)
    {
      hide upload.Valid, link.Valid, After, Until, Durations, Sum, StopSeen, TickWait.Measured, TickWait.Sliced,
        TickWait.CeilTicks;
      ghost var slices: seq<nat>;
      ok, slices := TickWait.ExecutorWaitUs(link, delayUs);
      ticks := Sum(slices);
      SumOfBoth(old(Durations(link.naps)), slices);
      PollsTellLater(trace, link.start, old(link.happenings), link.happenings);
      NotedStays(StopAsked);
      NotedStays(OwnBegin);
    }

    /** Nothing is sent on a link that is down. */
    method PressKey(modifier: byte, keycode: byte) returns (ok: bool)
      requires Live()
      modifies this`trace, this`slept, link.Repr(), upload.Repr()
      ensures Live() && upload.Kept() && upload.storage.faults >= old(upload.storage.faults)
      ensures trace == old(trace) + [KeyDown(modifier, keycode, ok)]
      ensures ok ==> link.connected
    {
      hide upload.Valid, link.Valid, PollsTell, Slept, TickWait.Measured;
      OtherTasks();
      var taken: bool := *;
      ok := link.connected && taken;
      Record(KeyDown(modifier, keycode, ok), 0);
    }

    method ReleaseAll() returns (ok: bool)
      requires Live()
      modifies this`trace, this`slept, link.Repr(), upload.Repr()
      ensures Live() && upload.Kept() && upload.storage.faults >= old(upload.storage.faults)
      ensures trace == old(trace) + [Release(ok)]
      ensures ok ==> link.connected
    {
      hide upload.Valid, link.Valid, PollsTell, Slept, TickWait.Measured;
      OtherTasks();
      var taken: bool := *;
      ok := link.connected && taken;
      Record(Release(ok), 0);
    }

    /** Reported to the upload, which keeps it for the status request. */
    method ReportProgress(sourceIndex: u32, completed: u32, total: u32)
      requires Live()
      modifies this`trace, this`slept, link.Repr(), upload.Repr()
      ensures Live() && upload.Kept() && upload.storage.faults >= old(upload.storage.faults)
      ensures trace == old(trace) + [Progress(sourceIndex, completed as nat, total as nat)]
      ensures var taken := upload.status == EXECUTING && total == upload.totalRecords && completed <= total;
        && upload.completedRecords == (if taken then completed else old(upload.completedRecords))
        && upload.currentSourceIndex == (if taken then sourceIndex else old(upload.currentSourceIndex))
    {
      hide upload.Valid, link.Valid, PollsTell, Slept, TickWait.Measured;
      OtherTasks();
      upload.RecordProgress(sourceIndex, completed, total);
      Record(Progress(sourceIndex, completed as nat, total as nat), 0);
    }

    method ReportTerminal(status: TerminalStatus, error: ExecutorError, protocolError: Schedule.Error)
      requires Live()
      modifies this`trace, this`slept, link.Repr(), upload.Repr()
      ensures Live() && upload.Kept() && upload.storage.faults >= old(upload.storage.faults)
      ensures trace == old(trace) + [Terminal(status, error, protocolError)]
    {
      hide upload.Valid, link.Valid, PollsTell, Slept, TickWait.Measured;
      OtherTasks();
      Record(Terminal(status, error, protocolError), 0);
    }
  }

  // ---- How a run ends ---------------------------------------------------------------

  /** The body, a release, the terminal report, and nothing after. */
  ghost predicate Ended(t: seq<Event>, body: seq<Event>, released: bool, status: TerminalStatus, error: ExecutorError,
    protocolError: Schedule.Error) {
    && t != [] && t[|t| - 1] == Terminal(status, error, protocolError)
    && Stalled(t, body + [Release(released), Terminal(status, error, protocolError)], error)
  }

  lemma EndOfRun(t: seq<Event>, body: seq<Event>, was: ExecutorError, released: bool,
                 status: TerminalStatus, error: ExecutorError, protocolError: Schedule.Error)
    requires Stalled(t, body, was)
    requires error == if released then was else RELEASE_FAILED
    ensures Ended(t + [Release(released)] + [Terminal(status, error, protocolError)], body, released, status, error,
      protocolError)
  {
    hide Core, Explained, Paced, QuietAfterStop;
    var u := t + [Release(released)];
    var last := Terminal(status, error, protocolError);
    if released {
      ExplainedStep(t, Release(true), was);
    } else {
      ReleaseExplains(t);
    }
    StuckMore(t, body, Release(released), was, error);
    ExplainedStep(u, last, error);
    StuckMore(u, body + [Release(released)], last, error, error);
    assert body + [Release(released)] + [last] == body + [Release(released), last];
  }

  /** A last release, whatever happened, then the terminal report. */
  method Finish(io: ExecutorIo, status0: TerminalStatus, error0: ExecutorError, protocolError: Schedule.Error,
    ghost body: seq<Event>)
    returns (error: ExecutorError, ghost released: bool)
    requires io.Live() && Stalled(io.trace, body, error0)
    modifies io`trace, io`slept, io.link.Repr(), io.upload.Repr()
    ensures io.Live() && io.upload.Kept() && io.upload.storage.faults >= old(io.upload.storage.faults)
    ensures error == if released then error0 else RELEASE_FAILED
    ensures Ended(io.trace, body, released, if released then status0 else TERMINAL_ERROR, error, protocolError)
  {
    hide Stalled, Ended, Explained, Core, io.Live, io.link.Valid, io.upload.Valid, io.upload.Busy;
    ghost var t := io.trace;
    var status := status0;
    error := error0;
    var ok := io.ReleaseAll();
    if !ok { status, error := TERMINAL_ERROR, RELEASE_FAILED; }
    released := ok;
    EndOfRun(t, body, error0, ok, status, error, protocolError);
    io.ReportTerminal(status, error, protocolError);
  }

  /** Waits, unless asked to stop, and checks that the clock did not run backwards. */
  method WaitChecked(io: ExecutorIo, delayUs: u32, ghost body: seq<Event>)
    returns (error: ExecutorError, ghost after: seq<Event>)
    requires io.Live() && Clean(io.trace, body)
    modifies io`trace, io`slept, io.link.Repr(), io.upload.Repr()
    ensures io.Live() && io.upload.Kept() && io.upload.storage.faults >= old(io.upload.storage.faults)
    ensures error in {EXECUTOR_OK, EXECUTOR_STOPPED, WAIT_FAILED, CLOCK_ERROR}
    ensures error == EXECUTOR_OK ==> after == body + WaitCalls(delayUs) && Clean(io.trace, after)
    ensures error != EXECUTOR_OK ==> Stalled(io.trace, after, error)
    ensures error != EXECUTOR_OK ==>
      delayUs != 0 && after in {body, body + [Wait(delayUs, true)], body + [Wait(delayUs, false)]}
  {
    hide Stalled, Clean, Explained, Core, io.Live, io.link.Valid, io.upload.Valid, io.upload.Busy;
    after := body;
    if delayUs == 0 {
      assert body + [] == body;
      return EXECUTOR_OK, body;
    }
    ghost var t := io.trace;
    var stop := io.StopRequested();
    if stop {
      PollStalls(t, body);
      return EXECUTOR_STOPPED, body;
    }
    CleanObservation(t, body, Poll(false));
    error, after := WaitTimed(io, delayUs, body);
  }

  /** The wait itself, right after a poll that said go on, between two readings of the clock. */
  method WaitTimed(io: ExecutorIo, delayUs: u32, ghost body: seq<Event>)
    returns (error: ExecutorError, ghost after: seq<Event>)
    requires io.Live() && Clean(io.trace, body) && io.trace != [] && io.trace[|io.trace| - 1] == Poll(false)
    requires delayUs != 0
    modifies io`trace, io`slept, io.link.Repr(), io.upload.Repr()
    ensures io.Live() && io.upload.Kept() && io.upload.storage.faults >= old(io.upload.storage.faults)
    ensures error in {EXECUTOR_OK, EXECUTOR_STOPPED, WAIT_FAILED, CLOCK_ERROR}
    ensures after in {body + [Wait(delayUs, true)], body + [Wait(delayUs, false)]}
    ensures error == EXECUTOR_OK ==> after == body + WaitCalls(delayUs) && Clean(io.trace, after)
    ensures error != EXECUTOR_OK ==> Stalled(io.trace, after, error)
  {
    hide Stalled, Clean, Explained, Core, io.Live, io.link.Valid, io.upload.Valid, io.upload.Busy;
    ghost var t := io.trace;
    var before := io.NowUs();
    CleanObservation(t, body, Clock(before));
    t := io.trace;
    var waited := io.WaitUs(delayUs);
    after := body + [Wait(delayUs, waited)];
    if !waited {
      var stop := io.StopRequested();
      WaitStalls(t, body, delayUs, stop);
      return if stop then EXECUTOR_STOPPED else WAIT_FAILED, after;
    }
    var now := io.NowUs();
    if now < before {
      ClockStalls(t, body, before, delayUs, now);
      return CLOCK_ERROR, after;
    }
    CleanWait(t, body, before, delayUs, now);
    return EXECUTOR_OK, after;
  }

  lemma PollStalls(t: seq<Event>, body: seq<Event>)
    requires Clean(t, body)
    ensures Stalled(t + [Poll(true)], body, EXECUTOR_STOPPED)
  {
    hide Core, Paced, Undisturbed, QuietAfterStop;
    assert (t + [Poll(true)])[|t|] == Poll(true);
    StuckStep(t, body, Poll(true), EXECUTOR_STOPPED);
    assert body + [] == body;
  }

  /** A poll and a clock reading have just been made. */
  predicate AtWait(t: seq<Event>, before: u64) { |t| > 1 && t[|t| - 2] == Poll(false) && t[|t| - 1] == Clock(before) }

  lemma CleanWait(t: seq<Event>, body: seq<Event>, before: u64, delayUs: u32, now: u64)
    requires Clean(t, body) && AtWait(t, before) && before <= now
    ensures Clean(t + [Wait(delayUs, true)] + [Clock(now)], body + [Wait(delayUs, true)])
  {
    hide Core, Paced, Undisturbed;
    var u := t + [Wait(delayUs, true)];
    GoingStep(t, body, Wait(delayUs, true));
    assert !BackInTime(u + [Clock(now)], |t|);
    GoingStep(u, body + [Wait(delayUs, true)], Clock(now));
    assert body + [Wait(delayUs, true)] + [] == body + [Wait(delayUs, true)];
  }

  /** The second reading is below the first. */
  lemma ClockStalls(t: seq<Event>, body: seq<Event>, before: u64, delayUs: u32, now: u64)
    requires Clean(t, body) && AtWait(t, before) && now < before
    ensures Stalled(t + [Wait(delayUs, true)] + [Clock(now)], body + [Wait(delayUs, true)], CLOCK_ERROR)
  {
    hide Core, Paced, Undisturbed, QuietAfterStop;
    var u := t + [Wait(delayUs, true)];
    GoingStep(t, body, Wait(delayUs, true));
    assert BackInTime(u + [Clock(now)], |t|);
    StuckStep(u, body + [Wait(delayUs, true)], Clock(now), CLOCK_ERROR);
    assert body + [Wait(delayUs, true)] + [] == body + [Wait(delayUs, true)];
  }

  /** A refused wait is a stop if the poll after it says so. */
  lemma WaitStalls(t: seq<Event>, body: seq<Event>, delayUs: u32, stop: bool)
    requires Clean(t, body) && |t| > 1 && t[|t| - 2] == Poll(false) && t[|t| - 1].Clock?
    ensures Stalled(t + [Wait(delayUs, false)] + [Poll(stop)], body + [Wait(delayUs, false)],
                    if stop then EXECUTOR_STOPPED else WAIT_FAILED)
  {
    hide Core, Paced, Undisturbed, QuietAfterStop;
    var u := t + [Wait(delayUs, false)];
    assert u[|t|] == Wait(delayUs, false);
    StuckStep(t, body, Wait(delayUs, false), WAIT_FAILED);
    if stop {
      assert (u + [Poll(stop)])[|u|] == Poll(true);
    } else {
      ExplainedStep(u, Poll(stop), WAIT_FAILED);
    }
    var error := if stop then EXECUTOR_STOPPED else WAIT_FAILED;
    StuckMore(u, body + [Wait(delayUs, false)], Poll(stop), WAIT_FAILED, error);
    assert body + [Wait(delayUs, false)] + [] == body + [Wait(delayUs, false)];
  }

  lemma CleanObservation(t: seq<Event>, body: seq<Event>, e: Event)
    requires Clean(t, body) && IsObservation(e) && e != Poll(true)
    ensures Clean(t + [e], body)
  {
    hide Core, Paced, Undisturbed;
    GoingStep(t, body, e);
    assert body + [] == body;
  }

  lemma CleanAction(t: seq<Event>, body: seq<Event>, e: Event)
    requires Clean(t, body) && !IsRefusal(e) && (e.Release? || (e.KeyDown? && t != [] && t[|t| - 1] == Poll(false)))
    ensures Clean(t + [e], body + [e])
  {
    hide Core, Paced, Undisturbed;
    GoingStep(t, body, e);
  }

  /** A report, and the poll after it. */
  lemma CleanProgress(t: seq<Event>, body: seq<Event>, e: Event, stop: bool)
    requires Clean(t, body) && e.Progress?
    ensures !stop ==> Clean(t + [e] + [Poll(stop)], body + [e])
    ensures stop ==> Stalled(t + [e] + [Poll(stop)], body + [e], EXECUTOR_STOPPED)
  {
    hide Core, Paced, Undisturbed, QuietAfterStop;
    var u := t + [e];
    GoingStep(t, body, e);
    if stop {
      assert (u + [Poll(stop)])[|u|] == Poll(true);
      StuckStep(u, body + [e], Poll(stop), EXECUTOR_STOPPED);
    } else {
      GoingStep(u, body + [e], Poll(stop));
    }
    assert body + [e] + [] == body + [e];
  }

  // ---- One record ---------------------------------------------------------------------

  function UpToKeyDown(r: Record): seq<Event> { WaitCalls(r.waitBefore) + [KeyDown(r.modifier, r.keycode, true)] }
  function UpToHold(r: Record): seq<Event> { UpToKeyDown(r) + WaitCalls(r.hold) }
  function UpToProgress(r: Record, k: nat, n: nat): seq<Event> {
    UpToHold(r) + [Release(true), Progress(r.sourceIndex, k, n)]
  }

  lemma PartsOfRecord(r: Record, k: nat, n: nat)
    ensures WaitCalls(r.waitBefore) <= RecordCalls(r, k, n)
    ensures UpToKeyDown(r) <= RecordCalls(r, k, n)
    ensures UpToHold(r) <= RecordCalls(r, k, n)
    ensures UpToHold(r) + [Release(true)] <= RecordCalls(r, k, n)
    ensures UpToProgress(r, k, n) <= RecordCalls(r, k, n)
    ensures RecordCalls(r, k, n) == UpToProgress(r, k, n) + WaitCalls(r.waitAfter)
  {
    hide WaitCalls;
    assert RecordCalls(r, k, n) == UpToHold(r) + [Release(true)]
      + ([Progress(r.sourceIndex, k, n)] + WaitCalls(r.waitAfter));
    assert RecordCalls(r, k, n) == UpToKeyDown(r)
      + (WaitCalls(r.hold) + [Release(true), Progress(r.sourceIndex, k, n)] + WaitCalls(r.waitAfter));
  }

  lemma {:induction false} PartFollows(rs: seq<Record>, i: nat, part: seq<Event>)
    requires i < |rs| && part <= RecordCalls(rs[i], i + 1, |rs|)
    ensures Follows(PerfectPrefix(rs, i) + part, PerfectRun(rs))
  {
    hide RecordCalls, PerfectPrefix, PerfectRun;
    PartOfPerfect(rs, i, part);
  }

  lemma {:induction false} RefusalFollows(rs: seq<Record>, i: nat, part: seq<Event>, e: Event)
    requires i < |rs| && part + [e] <= RecordCalls(rs[i], i + 1, |rs|)
    ensures Follows(PerfectPrefix(rs, i) + part + [Refused(e)], PerfectRun(rs))
  {
    hide RecordCalls, PerfectPrefix, PerfectRun, Follows;
    PartRefused(rs, i, part, e);
  }

  lemma {:induction false} WaitFollows(rs: seq<Record>, i: nat, part: seq<Event>, delayUs: u32, after: seq<Event>)
    requires i < |rs| && delayUs != 0 && part + WaitCalls(delayUs) <= RecordCalls(rs[i], i + 1, |rs|)
    requires var body := PerfectPrefix(rs, i) + part;
      after in {body, body + [Wait(delayUs, true)], body + [Wait(delayUs, false)]}
    ensures Follows(after, PerfectRun(rs))
  {
    hide RecordCalls, PerfectPrefix, PerfectRun, Follows;
    var body := PerfectPrefix(rs, i) + part;
    assert part <= part + WaitCalls(delayUs);
    PartFollows(rs, i, part);
    PartFollows(rs, i, part + [Wait(delayUs, true)]);
    assert PerfectPrefix(rs, i) + (part + [Wait(delayUs, true)]) == body + [Wait(delayUs, true)];
    RefusalFollows(rs, i, part, Wait(delayUs, true));
  }

  /** Wait, ask, press, hold. */
  method Press(io: ExecutorIo, record: Record, ghost rs: seq<Record>, ghost i: nat)
    returns (error: ExecutorError, ghost after: seq<Event>)
    requires io.Live() && i < |rs| && record == rs[i] && Clean(io.trace, PerfectPrefix(rs, i))
    modifies io`trace, io`slept, io.link.Repr(), io.upload.Repr()
    ensures io.Live() && io.upload.Kept() && io.upload.storage.faults >= old(io.upload.storage.faults)
    ensures error in {EXECUTOR_OK, EXECUTOR_STOPPED, WAIT_FAILED, CLOCK_ERROR, KEY_DOWN_FAILED}
    ensures error == EXECUTOR_OK ==> Clean(io.trace, PerfectPrefix(rs, i) + UpToHold(record))
    ensures error != EXECUTOR_OK ==> Stalled(io.trace, after, error) && Follows(after, PerfectRun(rs))
  {
    hide Stalled, Clean, Explained, Core, Follows, PerfectPrefix, PerfectRun, RecordCalls, WaitCalls, io.Live,
      io.link.Valid, io.upload.Valid, io.upload.Busy;
    PartsOfRecord(record, i + 1, |rs|);
    ghost var start := PerfectPrefix(rs, i);
    error, after := WaitChecked(io, record.waitBefore, start);
    assert start + [] == start;
    if error != EXECUTOR_OK {
      assert [] + WaitCalls(record.waitBefore) == WaitCalls(record.waitBefore);
      WaitFollows(rs, i, [], record.waitBefore, after);
      return error, after;
    }
    error, after := AskAndPress(io, record, rs, i);
    if error != EXECUTOR_OK { return error, after; }
    error, after := WaitChecked(io, record.hold, start + UpToKeyDown(record));
    if error != EXECUTOR_OK {
      WaitFollows(rs, i, UpToKeyDown(record), record.hold, after);
    } else {
      assert after == start + UpToHold(record);
    }
  }

  method AskAndPress(io: ExecutorIo, record: Record, ghost rs: seq<Record>, ghost i: nat)
    returns (error: ExecutorError, ghost after: seq<Event>)
    requires io.Live() && i < |rs| && record == rs[i]
    requires Clean(io.trace, PerfectPrefix(rs, i) + WaitCalls(record.waitBefore))
    modifies io`trace, io`slept, io.link.Repr(), io.upload.Repr()
    ensures io.Live() && io.upload.Kept() && io.upload.storage.faults >= old(io.upload.storage.faults)
    ensures error in {EXECUTOR_OK, EXECUTOR_STOPPED, KEY_DOWN_FAILED}
    ensures error == EXECUTOR_OK ==> Clean(io.trace, PerfectPrefix(rs, i) + UpToKeyDown(record))
    ensures error != EXECUTOR_OK ==> Stalled(io.trace, after, error) && Follows(after, PerfectRun(rs))
  {
    hide Stalled, Clean, Explained, Core, Follows, PerfectPrefix, PerfectRun, RecordCalls, WaitCalls, io.Live,
      io.link.Valid, io.upload.Valid, io.upload.Busy;
    PartsOfRecord(record, i + 1, |rs|);
    ghost var t := io.trace;
    after := PerfectPrefix(rs, i) + WaitCalls(record.waitBefore);
    var stop := io.StopRequested();
    if stop {
      PollStalls(t, after);
      PartFollows(rs, i, WaitCalls(record.waitBefore));
      return EXECUTOR_STOPPED, after;
    }
    CleanObservation(t, after, Poll(false));
    t := io.trace;
    var pressed := io.PressKey(record.modifier, record.keycode);
    if !pressed {
      KeyStalls(t, after, record.modifier, record.keycode);
      RefusalFollows(rs, i, WaitCalls(record.waitBefore), KeyDown(record.modifier, record.keycode, true));
      return KEY_DOWN_FAILED, after + [KeyDown(record.modifier, record.keycode, false)];
    }
    CleanAction(t, after, KeyDown(record.modifier, record.keycode, true));
    assert after + [KeyDown(record.modifier, record.keycode, true)] == PerfectPrefix(rs, i) + UpToKeyDown(record);
    return EXECUTOR_OK, after;
  }

  lemma KeyStalls(t: seq<Event>, body: seq<Event>, modifier: byte, keycode: byte)
    requires Clean(t, body) && t != [] && t[|t| - 1] == Poll(false)
    ensures Stalled(t + [KeyDown(modifier, keycode, false)], body + [KeyDown(modifier, keycode, false)],
      KEY_DOWN_FAILED)
  {
    hide Core;
    assert (t + [KeyDown(modifier, keycode, false)])[|t|] == KeyDown(modifier, keycode, false);
    StuckStep(t, body, KeyDown(modifier, keycode, false), KEY_DOWN_FAILED);
  }

  lemma ReleaseStalls(t: seq<Event>, body: seq<Event>)
    requires Clean(t, body)
    ensures Stalled(t + [Release(false)], body + [Release(false)], RELEASE_FAILED)
  {
    hide Core;
    ReleaseExplains(t);
    StuckStep(t, body, Release(false), RELEASE_FAILED);
  }

  lemma ReleaseExplains(t: seq<Event>)
    ensures Explained(t + [Release(false)], RELEASE_FAILED)
  {
    assert (t + [Release(false)])[|t|] == Release(false);
  }

  /** Release, report, ask, settle. */
  method LiftAndSettle(io: ExecutorIo, record: Record, total: u32, ghost rs: seq<Record>, i: nat)
    returns (error: ExecutorError, ghost after: seq<Event>)
    requires io.Live() && i < |rs| == total as nat && record == rs[i]
    requires Clean(io.trace, PerfectPrefix(rs, i) + UpToHold(record))
    modifies io`trace, io`slept, io.link.Repr(), io.upload.Repr()
    ensures io.Live() && io.upload.Kept() && io.upload.storage.faults >= old(io.upload.storage.faults)
    ensures error in {EXECUTOR_OK, RELEASE_FAILED, EXECUTOR_STOPPED, WAIT_FAILED, CLOCK_ERROR}
    ensures error == EXECUTOR_OK ==> Clean(io.trace, PerfectPrefix(rs, i + 1))
    ensures error != EXECUTOR_OK ==> Stalled(io.trace, after, error) && Follows(after, PerfectRun(rs))
  {
    hide Stalled, Clean, Explained, Core, Follows, PerfectRun, RecordCalls, WaitCalls, io.Live, io.link.Valid,
      io.upload.Valid, io.upload.Busy, UpToHold;
    PartsOfRecord(record, i + 1, |rs|);
    ghost var start, t := PerfectPrefix(rs, i), io.trace;
    ghost var held := start + UpToHold(record);
    after := held;
    var released := io.ReleaseAll();
    if !released {
      ReleaseStalls(t, held);
      RefusalFollows(rs, i, UpToHold(record), Release(true));
      return RELEASE_FAILED, held + [Release(false)];
    }
    CleanAction(t, held, Release(true));
    error, after := Settle(io, record, total, rs, i);
  }

  /** The key is up: report, ask, and wait out the record. */
  method Settle(io: ExecutorIo, record: Record, total: u32, ghost rs: seq<Record>, i: nat)
    returns (error: ExecutorError, ghost after: seq<Event>)
    requires io.Live() && i < |rs| == total as nat && record == rs[i]
    requires Clean(io.trace, PerfectPrefix(rs, i) + UpToHold(record) + [Release(true)])
    modifies io`trace, io`slept, io.link.Repr(), io.upload.Repr()
    ensures io.Live() && io.upload.Kept() && io.upload.storage.faults >= old(io.upload.storage.faults)
    ensures error in {EXECUTOR_OK, EXECUTOR_STOPPED, WAIT_FAILED, CLOCK_ERROR}
    ensures error == EXECUTOR_OK ==> Clean(io.trace, PerfectPrefix(rs, i + 1))
    ensures error != EXECUTOR_OK ==> Stalled(io.trace, after, error) && Follows(after, PerfectRun(rs))
  {
    hide Stalled, Clean, Explained, Core, Follows, PerfectRun, RecordCalls, WaitCalls, io.Live, io.link.Valid,
      io.upload.Valid, io.upload.Busy, UpToHold;
    PartsOfRecord(record, i + 1, |rs|);
    ghost var start, t := PerfectPrefix(rs, i), io.trace;
    ghost var held := start + UpToHold(record);
    io.ReportProgress(record.sourceIndex, i + 1, total);
    after := start + UpToProgress(record, i + 1, |rs|);
    assert held + [Release(true)] + [Progress(record.sourceIndex, i + 1, |rs|)] == after;
    PartFollows(rs, i, UpToProgress(record, i + 1, |rs|));
    var stop := io.StopRequested();
    CleanProgress(t, held + [Release(true)], Progress(record.sourceIndex, i + 1, |rs|), stop);
    if stop { return EXECUTOR_STOPPED, after; }
    error, after := WaitChecked(io, record.waitAfter, start + UpToProgress(record, i + 1, |rs|));
    if error != EXECUTOR_OK {
      WaitFollows(rs, i, UpToProgress(record, i + 1, |rs|), record.waitAfter, after);
    } else {
      assert after == start + RecordCalls(record, i + 1, |rs|);
    }
  }

  // ---- The run ------------------------------------------------------------------------

  /** A token is only as good as the bytes behind it: they are those the verifier accepted. */
  ghost predicate Trusted(schedule: VerifiedSchedule, file: seq<byte>) {
    IsVerified(schedule) ==>
      && |file| >= HEADER_BYTES && |file| == schedule.reader.sizeBytes as nat
      && Decide(file, schedule.limits) == OK
      && schedule.header == HeaderFields(file[..HEADER_BYTES])
      && |file| == HEADER_BYTES + RECORD_BYTES * schedule.header.actionCount as nat
  }

  /** What the schedule asks to be typed; nothing when it was not verified. */
  ghost function ScheduledRecords(schedule: VerifiedSchedule, file: seq<byte>): (rs: seq<Record>)
    requires Trusted(schedule, file)
    ensures IsVerified(schedule) ==> |rs| == schedule.header.actionCount as nat
  {
    if IsVerified(schedule) then RecordsIn(file) else []
  }

  lemma ScheduledRecordAt(schedule: VerifiedSchedule, file: seq<byte>, i: nat)
    requires IsVerified(schedule) && Trusted(schedule, file) && i < schedule.header.actionCount as nat
    ensures RecordFormError(RecordBytesAt(file, i), schedule.limits.maxDelayUs) == OK
    ensures ScheduledRecords(schedule, file)[i] == RecordAt(file, i)
  {
    hide Decide, HeaderFields, RecordAt, RecordFormError;
    AcceptedRecord(file, schedule.limits, i);
    RecordsOfAt(file, schedule.header.actionCount as nat, i);
  }

  lemma OutcomeOf(t: seq<Event>, body: seq<Event>, released: bool, status: TerminalStatus, error: ExecutorError,
                  protocolError: Schedule.Error, rs: seq<Record>)
    requires Ended(t, body, released, status, error, protocolError)
    requires Follows(body, PerfectRun(rs))
    requires error == EXECUTOR_OK ==> body == PerfectRun(rs) && released
    requires Reported(Terminal(status, error, protocolError), error)
    ensures Outcome(t, rs, error)
  {
    hide Core, Follows, PerfectRun, Explained;
    var c := Core(t);
    assert c == body + [Release(released), Terminal(status, error, protocolError)];
    assert c[..|c| - 2] == body;
  }

  /** Ends a run that goes no further: aborted when asked to stop, an error otherwise. */
  method Abort(io: ExecutorIo, error0: ExecutorError, protocolError: Schedule.Error, ghost body: seq<Event>,
    ghost rs: seq<Record>)
    returns (error: ExecutorError)
    requires io.Live() && Stalled(io.trace, body, error0) && Follows(body, PerfectRun(rs)) && error0 != EXECUTOR_OK
    requires Reported(Terminal(StatusOf(error0), error0, protocolError), error0)
    modifies io`trace, io`slept, io.link.Repr(), io.upload.Repr()
    ensures io.Live() && io.upload.Kept() && io.upload.storage.faults >= old(io.upload.storage.faults)
    ensures Outcome(io.trace, rs, error) && error in {error0, RELEASE_FAILED}
  {
    hide Stalled, Ended, Explained, Core, Outcome, Follows, PerfectRun, io.Live, io.link.Valid, io.upload.Valid,
      io.upload.Busy;
    var status := if error0 == EXECUTOR_STOPPED then TERMINAL_ABORTED else TERMINAL_ERROR;
    ghost var released: bool;
    error, released := Finish(io, status, error0, protocolError, body);
    OutcomeOf(io.trace, body, released, if released then status else TERMINAL_ERROR, error, protocolError, rs);
  }

  /** A refused release in mid-run: one more try, whose answer changes nothing, and the terminal report. */
  method AbortOnRelease(io: ExecutorIo, ghost body: seq<Event>, ghost rs: seq<Record>) returns (error: ExecutorError)
    requires io.Live() && Stalled(io.trace, body, RELEASE_FAILED) && Follows(body, PerfectRun(rs))
    modifies io`trace, io`slept, io.link.Repr(), io.upload.Repr()
    ensures io.Live() && io.upload.Kept() && io.upload.storage.faults >= old(io.upload.storage.faults)
    ensures Outcome(io.trace, rs, error) && error == RELEASE_FAILED
  {
    hide Stalled, Ended, Explained, Core, Outcome, Follows, PerfectRun, io.Live, io.link.Valid, io.upload.Valid,
      io.upload.Busy;
    ghost var t := io.trace;
    var released := io.ReleaseAll();
    EndOfRun(t, body, RELEASE_FAILED, released, TERMINAL_ERROR, RELEASE_FAILED, OK);
    io.ReportTerminal(TERMINAL_ERROR, RELEASE_FAILED, OK);
    OutcomeOf(io.trace, body, released, TERMINAL_ERROR, RELEASE_FAILED, OK, rs);
    return RELEASE_FAILED;
  }

  /** One turn of the record loop; it either leaves a clean run one record longer, or ends the run. */
  method RunRecord(schedule: VerifiedSchedule, io: ExecutorIo, index: nat, ghost file: seq<byte>, ghost rs: seq<Record>)
    returns (error: ExecutorError, going: bool)
    requires io.Live() && schedule.reader.storage == io.upload.storage && Backed(schedule.reader)
    requires file == File(schedule.reader) && IsVerified(schedule) && Trusted(schedule, file)
    requires rs == ScheduledRecords(schedule, file)
    requires index < |rs| && Clean(io.trace, PerfectPrefix(rs, index))
    modifies io`trace, io`slept, io.link.Repr(), io.upload.Repr()
    ensures io.Live() && io.upload.Kept() && io.upload.storage.faults >= old(io.upload.storage.faults)
    ensures going ==> Clean(io.trace, PerfectPrefix(rs, index + 1))
    ensures !going ==> Outcome(io.trace, rs, error) && error !in {EXECUTOR_OK, EXECUTOR_NOT_VERIFIED}
    ensures !going && error == PROTOCOL_READ_FAILED ==> io.upload.storage.faults > old(io.upload.storage.faults)
  {
    hide Stalled, Clean, Ended, Explained, Core, Outcome, Follows, PerfectPrefix, PerfectRun, RecordCalls, io.Live,
      io.link.Valid, io.upload.Valid, io.upload.Busy, ScheduledRecords, RecordFormError, RecordFields,
      RecordBytesAt, UpToHold, Decide, HeaderFields, File;
    ghost var start, t := PerfectPrefix(rs, index), io.trace;
    PartFollows(rs, index, []);
    assert start + [] == start;
    going := false;
    var stop := io.StopRequested();
    if stop {
      PollStalls(t, start);
      error := Abort(io, EXECUTOR_STOPPED, OK, start, rs);
      return error, false;
    }
    CleanObservation(t, start, Poll(false));
    ScheduledRecordAt(schedule, file, index);
    var protocolError, record := ReadRecord(schedule, index);
    if protocolError != OK {
      CleanStallsAnyway(io.trace, start, PROTOCOL_READ_FAILED);
      error := Abort(io, PROTOCOL_READ_FAILED, protocolError, start, rs);
      return error, false;
    }
    error, going := TypeRecord(io, record, schedule.header.actionCount, rs, index);
  }

  /** The key of a record that was read: pressed, held, lifted and settled, or the end of the run. */
  method TypeRecord(io: ExecutorIo, record: Record, total: u32, ghost rs: seq<Record>, index: nat)
    returns (error: ExecutorError, going: bool)
    requires io.Live() && index < |rs| == total as nat && record == rs[index]
    requires Clean(io.trace, PerfectPrefix(rs, index))
    modifies io`trace, io`slept, io.link.Repr(), io.upload.Repr()
    ensures io.Live() && io.upload.Kept() && io.upload.storage.faults >= old(io.upload.storage.faults)
    ensures going ==> Clean(io.trace, PerfectPrefix(rs, index + 1))
    ensures !going ==> Outcome(io.trace, rs, error)
    ensures !going ==> error !in {EXECUTOR_OK, EXECUTOR_NOT_VERIFIED, PROTOCOL_READ_FAILED}
  {
    hide Stalled, Clean, Explained, Core, Outcome, Follows, PerfectPrefix, PerfectRun, io.Live, io.link.Valid,
      io.upload.Valid, io.upload.Busy, UpToHold;
    ghost var after: seq<Event>;
    error, after := Press(io, record, rs, index);
    if error != EXECUTOR_OK {
      error := Abort(io, error, OK, after, rs);
      return error, false;
    }
    error, after := LiftAndSettle(io, record, total, rs, index);
    if error == RELEASE_FAILED {
      error := AbortOnRelease(io, after, rs);
      return error, false;
    }
    if error != EXECUTOR_OK {
      error := Abort(io, error, OK, after, rs);
      return error, false;
    }
    return error, true;
  }

  /**
   The executor's run. Its record is an outcome over the scheduled records; and for a verified schedule
   that flash could read, success is exactly an undisturbed record.
   */
  method Run(schedule: VerifiedSchedule, io: ExecutorIo) returns (error: ExecutorError)
    requires io.Live() && io.trace == []
    requires schedule.reader.storage == io.upload.storage && Backed(schedule.reader)
    requires Trusted(schedule, File(schedule.reader))
    modifies io`trace, io`slept, io.link.Repr(), io.upload.Repr()
    ensures io.Live() && io.upload.Kept() && io.upload.storage.faults >= old(io.upload.storage.faults)
    ensures Outcome(io.trace, old(ScheduledRecords(schedule, File(schedule.reader))), error)
    ensures !IsVerified(schedule) ==> error in {EXECUTOR_NOT_VERIFIED, RELEASE_FAILED}
    ensures IsVerified(schedule) ==> error != EXECUTOR_NOT_VERIFIED
    ensures error == PROTOCOL_READ_FAILED ==> io.upload.storage.faults > old(io.upload.storage.faults)
    ensures IsVerified(schedule) && io.upload.storage.faults == old(io.upload.storage.faults) ==>
      (error == EXECUTOR_OK <==> Undisturbed(io.trace))
  {
    hide Outcome, Undisturbed, Trusted, ScheduledRecords, io.Live, io.link.Valid, io.upload.Valid, io.upload.Busy;
    ghost var rs := ScheduledRecords(schedule, File(schedule.reader));
    error := RunToOutcome(schedule, io);
    if error !in {EXECUTOR_NOT_VERIFIED, PROTOCOL_READ_FAILED} { UndisturbedExactly(io.trace, rs, error); }
  }

  method RunToOutcome(schedule: VerifiedSchedule, io: ExecutorIo) returns (error: ExecutorError)
    requires io.Live() && io.trace == []
    requires schedule.reader.storage == io.upload.storage && Backed(schedule.reader)
    requires Trusted(schedule, File(schedule.reader))
    modifies io`trace, io`slept, io.link.Repr(), io.upload.Repr()
    ensures io.Live() && io.upload.Kept() && io.upload.storage.faults >= old(io.upload.storage.faults)
    ensures Outcome(io.trace, old(ScheduledRecords(schedule, File(schedule.reader))), error)
    ensures !IsVerified(schedule) ==> error in {EXECUTOR_NOT_VERIFIED, RELEASE_FAILED}
    ensures IsVerified(schedule) ==> error != EXECUTOR_NOT_VERIFIED
    ensures error == PROTOCOL_READ_FAILED ==> io.upload.storage.faults > old(io.upload.storage.faults)
  {
    hide Stalled, Clean, Ended, Explained, Core, Outcome, Follows, PerfectPrefix, PerfectRun, RecordCalls, io.Live,
      io.link.Valid, io.upload.Valid, io.upload.Busy, Trusted, ScheduledRecords, RecordFormError, RecordFields,
      RecordBytesAt, UpToHold;
    ghost var file := File(schedule.reader);
    ghost var rs := ScheduledRecords(schedule, file);
    ghost var released: bool;
    NothingYet(rs);
    if !IsVerified(schedule) {
      CleanStallsAnyway(io.trace, [], EXECUTOR_NOT_VERIFIED);
      error, released := Finish(io, TERMINAL_ERROR, EXECUTOR_NOT_VERIFIED, NOT_VERIFIED, []);
      OutcomeOf(io.trace, [], released, if released then TERMINAL_ERROR else TERMINAL_ERROR, error, NOT_VERIFIED, rs);
      return error;
    }
    var index := 0;
    while index < schedule.header.actionCount as nat
      invariant index <= |rs|
      invariant io.Live() && io.upload.Kept() && io.upload.storage.faults >= old(io.upload.storage.faults)
      invariant Clean(io.trace, PerfectPrefix(rs, index))
    {
      var going: bool;
      error, going := RunRecord(schedule, io, index, file, rs);
      if !going { return error; }
      index := index + 1;
    }
    CleanIsStalled(io.trace, PerfectPrefix(rs, |rs|));
    WholeRun(rs);
    error, released := Finish(io, TERMINAL_COMPLETED, EXECUTOR_OK, OK, PerfectRun(rs));
    ghost var status := if released then TERMINAL_COMPLETED else TERMINAL_ERROR;
    OutcomeOf(io.trace, PerfectRun(rs), released, status, error, OK, rs);
  }

  lemma {:induction false} NothingYet(rs: seq<Record>)
    ensures Clean([], []) && PerfectPrefix(rs, 0) == [] && Follows([], PerfectRun(rs))
  {}

  lemma {:induction false} WholeRun(rs: seq<Record>)
    ensures PerfectPrefix(rs, |rs|) == PerfectRun(rs) && Follows(PerfectRun(rs), PerfectRun(rs))
  {}

  lemma CleanStallsAnyway(t: seq<Event>, body: seq<Event>, error: ExecutorError)
    requires Clean(t, body) && error in {EXECUTOR_NOT_VERIFIED, PROTOCOL_READ_FAILED}
    ensures Stalled(t, body, error)
  {
    hide Core;
  }
}
