/**
 The requests of the board, refined into the steps of the crash-marker protocol: what is proved about
 every interleaving of those steps holds of every sequence of requests.
 */
module BoardSteps {
  import Bytes
  import Upload
  import ExecutionSafety
  import opened ChunkMap
  import opened JobRuns
  import opened Requests
  import opened CrashSafety

  /** The status as the protocol sees it: it does not tell apart the ways in which a run comes to its end. */
  function Seen(status: Upload.Status): Status {
    match status
    case IDLE => Status.IDLE
    case RECEIVING => Status.RECEIVING
    case VERIFYING => Status.RECEIVING
    case READY => Status.READY
    case COUNTDOWN => Status.COUNTDOWN
    case EXECUTING => Status.EXECUTING
    case STOPPING => Status.STOPPING
    case STOPPED => Status.ENDED
    case COMPLETED => Status.ENDED
    case ERROR => Status.ERROR
    case INTERRUPTED_RESET => Status.INTERRUPTED_RESET
  }

  /** Power is on and nothing is under way, as between two requests. */
  predicate AtRest(sys: System)
    { CrashSafety.Requests(sys) && sys.task == NONE && sys.finishing == 0 && !Busy(sys.status) }

  predicate Agrees(sys: System, s: Snapshot) {
    AtRest(sys) && sys.status == Seen(s.status) && s.status != Upload.VERIFYING
  }

  function Through(sys: System, steps: seq<Step>): System {
    if steps == [] then sys else Next(Through(sys, steps[..|steps| - 1]), steps[|steps| - 1])
  }

  predicate AllEnabled(sys: System, steps: seq<Step>) {
    steps != [] ==>
      AllEnabled(sys, steps[..|steps| - 1]) && Enabled(Through(sys, steps[..|steps| - 1]), steps[|steps| - 1])
  }

  lemma {:induction false} OneMore(sys: System, steps: seq<Step>, e: Step)
    ensures Through(sys, steps + [e]) == Next(Through(sys, steps), e)
    ensures AllEnabled(sys, steps + [e]) <==> AllEnabled(sys, steps) && Enabled(Through(sys, steps), e)
  {
    assert (steps + [e])[..|steps|] == steps;
  }

  lemma {:induction false} Nothing(sys: System)
    ensures Through(sys, []) == sys && AllEnabled(sys, [])
  {}

  /** How many runs the steps notify. */
  function Notified(steps: seq<Step>): nat {
    if steps == [] then 0 else Notified(steps[..|steps| - 1]) + (if steps[|steps| - 1] == Respond(true) then 1 else 0)
  }

  lemma {:induction false} NotifiedOneMore(steps: seq<Step>, e: Step)
    ensures Notified(steps + [e]) == Notified(steps) + (if e == Respond(true) then 1 else 0)
  {
    assert (steps + [e])[..|steps|] == steps;
  }

  /** The steps so far, where they have led to, and how many runs they notified; one more is taken. */
  predicate Walked(from: System, steps: seq<Step>, sys: System, runs: nat) {
    AllEnabled(from, steps) && Through(from, steps) == sys && Notified(steps) == runs
  }

  lemma {:induction false} Take(from: System, steps: seq<Step>, sys: System, runs: nat, e: Step, next: System)
    returns (more: seq<Step>)
    requires Walked(from, steps, sys, runs) && Enabled(sys, e) && Next(sys, e) == next
    ensures more == steps + [e] && Walked(from, more, next, runs + if e == Respond(true) then 1 else 0)
  {
    hide Next, Enabled;
    more := steps + [e];
    OneMore(from, steps, e);
    NotifiedOneMore(steps, e);
  }

  lemma {:induction false} Stand(sys: System)
    ensures Walked(sys, [], sys, 0)
  {}

  /** The start is accepted, the marker written and the task created. */
  lemma {:induction false} Launching(sys: System) returns (steps: seq<Step>)
    requires AtRest(sys) && sys.status == Status.READY
    ensures Walked(sys, steps, sys.(status := Status.COUNTDOWN, handler := CREATED, marker := true, task := WAITING,
                                    handle := true, overlap := false), 0)
  {
    hide Walked;
    Stand(sys);
    var s1 := sys.(status := Status.COUNTDOWN, handler := PREPARED);
    var s2 := s1.(marker := true, handler := MARKED);
    steps := Take(sys, [], sys, 0, Prepare, s1);
    steps := Take(sys, steps, s1, 0, WriteMarker(true, true), s2);
    steps := Take(sys, steps, s2, 0, CreateTask(true),
                  s2.(task := WAITING, handle := true, overlap := false, handler := CREATED));
  }

  /** A notified run, to the end of its task. */
  lemma {:induction false} RunThrough(from: System, before: seq<Step>, sys: System, stopped: bool, ok: bool,
    cleared: bool)
    returns (steps: seq<Step>)
    requires Walked(from, before, sys, 0) && sys.power == ON && sys.handler == CREATED && sys.handle
    requires sys.task == WAITING && sys.finishing == 0
    ensures Walked(from, steps,
      sys.(status := if stopped || ok then Status.ENDED else Status.ERROR, handler := NO_START,
                                     marker := if cleared then false else sys.marker, task := NONE, handle := false), 1)
  {
    hide Walked, Next, Enabled;
    steps := RunAndClear(from, before, sys, cleared);
    steps := EndTask(from, steps, sys.(task := MARKER_DONE, handler := NO_START,
                                       marker := if cleared then false else sys.marker), stopped, ok);
  }

  lemma {:induction false} RunAndClear(from: System, before: seq<Step>, sys: System, cleared: bool)
    returns (steps: seq<Step>)
    requires Walked(from, before, sys, 0) && sys.power == ON && sys.handler == CREATED && sys.handle
    requires sys.task == WAITING
    ensures Walked(from, steps, sys.(task := MARKER_DONE, handler := NO_START,
                                     marker := if cleared then false else sys.marker), 1)
  {
    hide Walked;
    var s1 := sys.(task := RUNNING, handler := NO_START);
    var s2 := s1.(task := RUN_OVER);
    steps := Take(from, before, sys, 0, Respond(true), s1);
    steps := Take(from, steps, s1, 1, RunEnds, s2);
    steps := Take(from, steps, s2, 1, ClearMarker(cleared, cleared),
                  s2.(task := MARKER_DONE, marker := if cleared then false else sys.marker));
  }

  lemma {:induction false} EndTask(from: System, before: seq<Step>, sys: System, stopped: bool, ok: bool)
    returns (steps: seq<Step>)
    requires Walked(from, before, sys, 1) && sys.power == ON && sys.task == MARKER_DONE && sys.finishing == 0
    ensures Walked(from, steps, sys.(status := if stopped || ok then Status.ENDED else Status.ERROR, task := NONE,
                                     handle := false), 1)
  {
    hide Walked;
    var s1 := sys.(status := if stopped || ok then Status.ENDED else Status.ERROR, task := NONE, finishing := 1);
    steps := Take(from, before, sys, 1, Complete(stopped, ok), s1);
    steps := Take(from, steps, s1, 1, ForgetTask, s1.(handle := false, finishing := 0));
  }

  /** A start that is taken back: the marker was not written, the task not created, or the answer not sent. */
  lemma {:induction false} TakenBack(sys: System, calls: Calls) returns (steps: seq<Step>, end: System)
    requires AtRest(sys) && sys.status == Status.READY && !Granted(calls)
    ensures Walked(sys, steps, end, 0) && AtRest(end) && end.status == Status.READY
  {
    hide Walked;
    if !calls.markerSet {
      Stand(sys);
      var s1 := sys.(status := Status.COUNTDOWN, handler := PREPARED);
      steps := Take(sys, [], sys, 0, Prepare, s1);
      steps := Take(sys, steps, s1, 0, WriteMarker(false, false), s1.(handler := ROLLING_BACK));
      end := sys;
      steps := Take(sys, steps, s1.(handler := ROLLING_BACK), 0, StartFailed, sys);
    } else if !calls.taskCreated {
      steps, end := NotCreated(sys);
    } else {
      steps := Launching(sys);
      var s1 := sys.(status := Status.COUNTDOWN, handler := CREATED, marker := true, task := WAITING, handle := true,
                     overlap := false);
      var s2 := s1.(task := NONE, handle := false, handler := UNMARKING);
      steps := Take(sys, steps, s1, 0, Respond(false), s2);
      steps, end := Unmark(sys, steps, s2);
    }
  }

  lemma {:induction false} NotCreated(sys: System) returns (steps: seq<Step>, end: System)
    requires AtRest(sys) && sys.status == Status.READY
    ensures Walked(sys, steps, end, 0) && AtRest(end) && end.status == Status.READY
  {
    hide Walked;
    Stand(sys);
    var s1 := sys.(status := Status.COUNTDOWN, handler := PREPARED);
    var s2 := s1.(marker := true, handler := MARKED);
    steps := Take(sys, [], sys, 0, Prepare, s1);
    steps := Take(sys, steps, s1, 0, WriteMarker(true, true), s2);
    steps := Take(sys, steps, s2, 0, CreateTask(false), s2.(handler := UNMARKING));
    steps, end := Unmark(sys, steps, s2.(handler := UNMARKING));
  }

  lemma {:induction false} Unmark(from: System, before: seq<Step>, sys: System) returns (steps: seq<Step>, end: System)
    requires Walked(from, before, sys, 0) && sys.power == ON && sys.handler == UNMARKING && sys.task == NONE
    requires sys.status == Status.COUNTDOWN && sys.finishing == 0
    ensures Walked(from, steps, end, 0) && AtRest(end) && end.status == Status.READY
  {
    hide Walked;
    var s1 := sys.(marker := false, handler := ROLLING_BACK);
    steps := Take(from, before, sys, 0, TakeMarkerBack(true, true), s1);
    end := s1.(status := Status.READY, handler := NO_START);
    steps := Take(from, steps, s1, 0, StartFailed, end);
  }

  // ---- Requests as steps -------------------------------------------------------------------------

  /** A request that is not a start is one step of the protocol or none. */
  lemma {:induction false} OtherRequest(sys: System, s: Snapshot, r: Ask, a: Answer, t: Snapshot)
    returns (steps: seq<Step>, end: System)
    requires Answered(s, r, a, t) && !r.AskStart? && Agrees(sys, s)
    ensures Walked(sys, steps, end, 0) && Agrees(end, t) && t.runs == s.runs
  {
    hide Walked, Agrees, ChunkOutcome, FileJudged, Assemble, AllHeld, ChunkAnswered, FinalizeAnswered, BeginAnswered,
      Next, Enabled;
    match r
    case AskChunk(arrival) =>
      ChunkStays(s, arrival, a.error, t);
      steps, end := NoStep(sys, s, t);
    case AskBegin(job, size, sha256) => steps, end := BeginStep(sys, s, job, size, sha256, a.error, t);
    case AskFinalize(job, size, sha256) => steps, end := FinalizeStep(sys, s, job, size, sha256, a.error, a.quiet, t);
    case AskStop => steps, end := StopStep(sys, s, a.error, t);
    case AskCancel(job) => steps, end := CancelStep(sys, s, job, a.error, t);
  }

  lemma {:induction false} NoStep(sys: System, s: Snapshot, t: Snapshot) returns (steps: seq<Step>, end: System)
    requires Agrees(sys, s) && t.status == s.status
    ensures Walked(sys, steps, end, 0) && Agrees(end, t)
  {
    Stand(sys);
    hide Walked;
    steps, end := [], sys;
  }

  lemma {:induction false} BeginStep(sys: System, s: Snapshot, job: seq<Bytes.byte>, size: Bytes.u32,
                                     sha256: seq<Bytes.byte>, error: UploadError, t: Snapshot)
    returns (steps: seq<Step>, end: System)
    requires Agrees(sys, s) && BeginAnswered(s, job, size, sha256, error, t)
    ensures Walked(sys, steps, end, 0) && Agrees(end, t) && t.runs == s.runs
  {
    hide Walked;
    BeginStays(s, job, size, sha256, error, t);
    hide BeginAnswered;
    Stand(sys);
    steps, end := [], sys;
    if t != s {
      end := sys.(status := Seen(t.status), announced := error == UPLOAD_OK, verified := false);
      steps := Take(sys, [], sys, 0, Begin(error == UPLOAD_OK), end);
    }
  }

  lemma {:induction false} FinalizeStep(sys: System, s: Snapshot, job: seq<Bytes.byte>, size: Bytes.u32,
                                        sha256: seq<Bytes.byte>, error: UploadError, quiet: bool, t: Snapshot)
    returns (steps: seq<Step>, end: System)
    requires Agrees(sys, s) && FinalizeAnswered(s, job, size, sha256, error, quiet, t)
    ensures Walked(sys, steps, end, 0) && Agrees(end, t) && t.runs == s.runs
  {
    hide Walked, FinalizeAnswered;
    FinalizeStays(s, job, size, sha256, error, quiet, t);
    Stand(sys);
    steps, end := [], sys;
    if t != s {
      end := sys.(status := Seen(t.status), verified := sys.verified || t.status == Upload.READY);
      steps := Take(sys, [], sys, 0, Finalize(t.status == Upload.READY, true), end);
    }
  }

  /** Between two requests nothing runs, and a stop has nothing to stop. */
  lemma {:induction false} StopStep(sys: System, s: Snapshot, error: UploadError, t: Snapshot)
    returns (steps: seq<Step>, end: System)
    requires Agrees(sys, s) && StopAnswered(s, error, t)
    ensures Walked(sys, steps, end, 0) && Agrees(end, t) && t.runs == s.runs
  {
    hide Walked, Next, Enabled;
    steps, end := NoStep(sys, s, t);
  }

  lemma {:induction false} CancelStep(sys: System, s: Snapshot, job: seq<Bytes.byte>, error: UploadError, t: Snapshot)
    returns (steps: seq<Step>, end: System)
    requires Agrees(sys, s) && CancelAnswered(s, job, error, t)
    ensures Walked(sys, steps, end, 0) && Agrees(end, t) && t.runs == s.runs
  {
    hide Walked;
    Stand(sys);
    steps, end := [], sys;
    if error == UPLOAD_OK {
      end := sys.(status := Status.IDLE, announced := false, verified := false);
      steps := Take(sys, [], sys, 0, Cancel, end);
    }
  }

  /** A start is refused without a step, taken back to where it began, or one notified run. */
  lemma {:induction false} StartSteps(sys: System, s: Snapshot, job: seq<Bytes.byte>, calls: Calls, a: Answer,
    t: Snapshot)
    returns (steps: seq<Step>, end: System, runs: nat)
    requires Agrees(sys, s) && StartAnswered(s, job, calls, a, t)
    ensures Walked(sys, steps, end, runs) && Agrees(end, t) && |t.runs| == |s.runs| + runs
  {
    hide Walked, CarriedThrough, ReadinessOf, Next, Enabled;
    runs := 0;
    if StartError(s, job, ReadinessOf(ExecutionSafety.Run(a.safety))) != UPLOAD_OK {
      steps, end := NoStep(sys, s, t);
    } else if Granted(calls) {
      Requests.RunEnds(s, a.safety, calls.markerCleared, t);
      steps, end := CarriedSteps(sys, s, a.safety, calls.markerCleared, t);
      runs := 1;
    } else {
      steps, end := TakenBack(sys, calls);
    }
  }

  lemma {:induction false} CarriedSteps(sys: System, s: Snapshot, safety: seq<ExecutionSafety.Event>, cleared: bool,
                                        t: Snapshot)
    returns (steps: seq<Step>, end: System)
    requires Agrees(sys, s) && s.status == Upload.READY && CarriedThrough(s, safety, cleared, t) && t.status in Ends
    ensures Walked(sys, steps, end, 1) && Agrees(end, t) && |t.runs| == |s.runs| + 1
  {
    hide Walked, Next, Enabled, Faithful;
    steps := Launching(sys);
    var created := sys.(status := Status.COUNTDOWN, handler := CREATED, marker := true, task := WAITING, handle := true,
                        overlap := false);
    var stopped, ok := t.status == Upload.STOPPED, t.status == Upload.COMPLETED;
    steps := RunThrough(sys, steps, created, stopped, ok, cleared);
    end := created.(status := if stopped || ok then Status.ENDED else Status.ERROR, handler := NO_START,
                    marker := if cleared then false else created.marker, task := NONE, handle := false);
  }

  // ---- Every sequence of requests ----------------------------------------------------------------

  /** Every sequence of requests is a run of the protocol in which each step was enabled, with as many runs notified. */
  lemma {:induction false} ServedIsStepped(asks: seq<Ask>, answers: seq<Answer>, snaps: seq<Snapshot>, n: nat)
    returns (steps: seq<Step>, sys: System)
    requires Served(asks, answers, snaps) && n <= |asks|
    requires snaps[0].status == Upload.IDLE && snaps[0].runs == []
    ensures Walked(DELIVERED, steps, sys, |snaps[n].runs|) && Agrees(sys, snaps[n]) && CrashSafety.Run(steps) == sys
  {
    hide Walked, Agrees, Answered, Next, Enabled;
    if n == 0 {
      steps, sys := BootSteps(snaps[0]);
    } else {
      steps, sys := ServedIsStepped(asks, answers, snaps, n - 1);
      assert Answered(snaps[n - 1], asks[n - 1], answers[n - 1], snaps[n]);
      var more: seq<Step>, runs: nat;
      var from := sys;
      more, sys, runs := RequestSteps(sys, snaps[n - 1], asks[n - 1], answers[n - 1], snaps[n]);
      WalkOn(DELIVERED, steps, from, |snaps[n - 1].runs|, more, sys, runs);
      steps := steps + more;
    }
    RunIsWalk(steps, sys, |snaps[n].runs|);
  }

  lemma {:induction false} BootSteps(s: Snapshot) returns (steps: seq<Step>, sys: System)
    requires s.status == Upload.IDLE
    ensures Walked(DELIVERED, steps, sys, 0) && Agrees(sys, s)
  {
    hide Walked;
    Stand(DELIVERED);
    steps := Take(DELIVERED, [], DELIVERED, 0, BootRead(true), DELIVERED.(power := MARKER_READ(false)));
    steps := Take(DELIVERED, steps, DELIVERED.(power := MARKER_READ(false)), 0, BootClear(true, true),
                  DELIVERED.(power := MARKER_SEEN_TO(false)));
    sys := DELIVERED.(power := ON);
    steps := Take(DELIVERED, steps, DELIVERED.(power := MARKER_SEEN_TO(false)), 0, BootUp(true), sys);
  }

  lemma {:induction false} RequestSteps(sys: System, s: Snapshot, r: Ask, a: Answer, t: Snapshot)
    returns (steps: seq<Step>, end: System, runs: nat)
    requires Answered(s, r, a, t) && Agrees(sys, s)
    ensures Walked(sys, steps, end, runs) && Agrees(end, t) && |t.runs| == |s.runs| + runs
  {
    hide Walked, Agrees, ChunkAnswered, FinalizeAnswered, BeginAnswered, StartAnswered, StopAnswered, CancelAnswered;
    if r.AskStart? {
      steps, end, runs := StartSteps(sys, s, r.job, r.calls, a, t);
    } else {
      steps, end := OtherRequest(sys, s, r, a, t);
      runs := 0;
    }
  }

  /** Two walks, one after the other. */
  lemma {:induction false} WalkOn(from: System, steps: seq<Step>, mid: System, k: nat, more: seq<Step>, end: System,
    j: nat)
    requires Walked(from, steps, mid, k) && Walked(mid, more, end, j)
    ensures Walked(from, steps + more, end, k + j)
  {
    hide Next, Enabled;
    if more == [] {
      assert steps + more == steps;
    } else {
      var init := more[..|more| - 1];
      WalkOn(from, steps, mid, k, init, Through(mid, init), Notified(init));
      assert steps + more == (steps + init) + [more[|more| - 1]];
      OneMore(from, steps + init, more[|more| - 1]);
      NotifiedOneMore(steps + init, more[|more| - 1]);
    }
  }

  lemma {:induction false} RunIsWalk(steps: seq<Step>, sys: System, runs: nat)
    requires Walked(DELIVERED, steps, sys, runs)
    ensures CrashSafety.Run(steps) == sys
  {
    hide Next, Enabled;
    if steps != [] {
      var init := steps[..|steps| - 1];
      RunIsWalk(init, Through(DELIVERED, init), Notified(init));
    }
  }
}
