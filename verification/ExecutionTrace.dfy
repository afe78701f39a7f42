/** Traces of the executor's calls: what a perfect run looks like, and what every run has in common with it. */
module ExecutionTrace {
  import opened Bytes
  import opened Schedule

  datatype ExecutorError =
    | EXECUTOR_OK | EXECUTOR_NOT_VERIFIED | CLOCK_ERROR | WAIT_FAILED | KEY_DOWN_FAILED | RELEASE_FAILED
    | EXECUTOR_STOPPED | PROTOCOL_READ_FAILED | EXECUTOR_INTERRUPTED_RESET

  datatype TerminalStatus = TERMINAL_COMPLETED | TERMINAL_ABORTED | TERMINAL_ERROR

  /** One call of the executor on its environment, with the answer. */
  datatype Event =
    | Poll(stop: bool)
    | Clock(us: u64)
    | Wait(delayUs: u32, ok: bool)
    | KeyDown(modifier: byte, keycode: byte, ok: bool)
    | Release(ok: bool)
    | Progress(sourceIndex: u32, completed: nat, total: nat)
    | Terminal(status: TerminalStatus, error: ExecutorError, protocolError: Schedule.Error)

  /**
   What happens on the link around the executor: releases, whole seconds, the upload told that they are
   over, the executor itself; a link that was found not to be free, or a second that was broken, when the
   log was so long.
   */
  datatype Moment = Lift(ok: bool) | Second | Told | Typed(result: ExecutorError) | NotFree(known: nat)
    | Broken(known: nat)

  predicate IsObservation(e: Event) { e.Poll? || e.Clock? }

  /** The calls that act, without the questions asked in between. */
  function Core(t: seq<Event>): seq<Event> {
    if t == [] then []
    else Core(t[..|t| - 1]) + (if IsObservation(t[|t| - 1]) then [] else [t[|t| - 1]])
  }

  function WaitCalls(delayUs: u32): seq<Event> { if delayUs == 0 then [] else [Wait(delayUs, true)] }

  /** Record k of n, counted from one, without incident. */
  function RecordCalls(r: Record, k: nat, n: nat): seq<Event> {
    WaitCalls(r.waitBefore) + [KeyDown(r.modifier, r.keycode, true)] + WaitCalls(r.hold)
    + [Release(true), Progress(r.sourceIndex, k, n)] + WaitCalls(r.waitAfter)
  }

  /** The first i records without incident. */
  function PerfectPrefix(rs: seq<Record>, i: nat): seq<Event>
    requires i <= |rs|
  {
    if i == 0 then [] else PerfectPrefix(rs, i - 1) + RecordCalls(rs[i - 1], i, |rs|)
  }

  function PerfectRun(rs: seq<Record>): seq<Event> { PerfectPrefix(rs, |rs|) }

  /** The same call, answered with a failure. */
  function Refused(e: Event): Event {
    match e
    case Wait(us, _) => Wait(us, false)
    case KeyDown(m, k, _) => KeyDown(m, k, false)
    case Release(_) => Release(false)
    case _ => e
  }

  /** A run up to some point, the last call of which may have been refused. */
  predicate Follows(body: seq<Event>, full: seq<Event>) {
    || body <= full
    || (0 < |body| <= |full| && body[..|body| - 1] <= full && body[|body| - 1] == Refused(full[|body| - 1]))
  }

  /**
   What may follow what. A key goes down right after a poll that said go on, a wait is asked for right
   after such a poll and a clock reading; an answered wait is followed by a clock reading or, if it was
   refused, by a poll; a progress report is followed by a poll.
   */
  predicate FitsAt(t: seq<Event>, i: nat)
    requires i < |t|
  {
    && (t[i].KeyDown? ==> i > 0 && t[i - 1] == Poll(false))
    && (t[i].Wait? ==> i > 1 && t[i - 1].Clock? && t[i - 2] == Poll(false))
    && (i > 0 && t[i - 1].Wait? ==> if t[i - 1].ok then t[i].Clock? else t[i].Poll?)
    && (i > 0 && t[i - 1].Progress? ==> t[i].Poll?)
  }

  predicate Paced(t: seq<Event>) { forall i :: 0 <= i < |t| ==> FitsAt(t, i) }

  /** Nothing is owed to the last call. */
  predicate Settled(t: seq<Event>) { t != [] ==> !t[|t| - 1].Wait? && !t[|t| - 1].Progress? }

  /** Once a poll was answered with stop, no key goes down and no progress is reported. */
  predicate QuietAfterStop(t: seq<Event>) {
    forall i, j :: 0 <= i < j < |t| && t[i] == Poll(true) ==> !t[j].KeyDown? && !t[j].Progress?
  }

  predicate IsRefusal(e: Event) { (e.Wait? || e.KeyDown? || e.Release?) && !e.ok }

  /** Call i waited, and the clock read less after it than before it. */
  predicate BackInTime(t: seq<Event>, i: nat) {
    0 < i < |t| - 1 && t[i - 1].Clock? && t[i].Wait? && t[i + 1].Clock? && t[i + 1].us < t[i - 1].us
  }

  predicate Undisturbed(t: seq<Event>) {
    forall i :: 0 <= i < |t| ==> t[i] != Poll(true) && !IsRefusal(t[i]) && !BackInTime(t, i)
  }

  /** Something in the trace accounts for the error. */
  ghost predicate Explained(t: seq<Event>, error: ExecutorError) {
    match error
    case EXECUTOR_OK => Undisturbed(t)
    case CLOCK_ERROR => exists i :: 0 <= i < |t| && BackInTime(t, i)
    case EXECUTOR_STOPPED => Poll(true) in t
    case WAIT_FAILED => exists us :: Wait(us, false) in t
    case KEY_DOWN_FAILED => exists m, k :: KeyDown(m, k, false) in t
    case RELEASE_FAILED => Release(false) in t
    case EXECUTOR_NOT_VERIFIED => true
    case PROTOCOL_READ_FAILED => true
    case EXECUTOR_INTERRUPTED_RESET => false
  }

  /** Everything so far went well, and the acting calls are exactly these. */
  predicate Going(t: seq<Event>, body: seq<Event>) { Core(t) == body && Undisturbed(t) && Paced(t) }

  predicate Clean(t: seq<Event>, body: seq<Event>) { Going(t, body) && Settled(t) }

  /** The run goes no further, for this reason; the acting calls are exactly these. */
  ghost predicate Stuck(t: seq<Event>, body: seq<Event>, error: ExecutorError) {
    Core(t) == body && Paced(t) && QuietAfterStop(t) && Explained(t, error)
  }

  ghost predicate Stalled(t: seq<Event>, body: seq<Event>, error: ExecutorError) { Stuck(t, body, error) && Settled(t) }

  lemma {:induction false} CoreStep(t: seq<Event>, e: Event)
    ensures Core(t + [e]) == Core(t) + (if IsObservation(e) then [] else [e])
  {
    assert (t + [e])[..|t|] == t;
  }

  /** Appending a call that fits changes nothing about the calls before it. */
  lemma PacedStep(t: seq<Event>, e: Event)
    requires Paced(t) && FitsAt(t + [e], |t|)
    ensures Paced(t + [e])
  {
    var u := t + [e];
    assert forall i :: 0 <= i < |t| ==> u[i] == t[i];
    forall i: nat | i < |t| ensures FitsAt(u, i) {
      assert FitsAt(t, i);
    }
  }

  lemma UndisturbedStep(t: seq<Event>, e: Event)
    requires Undisturbed(t) && e != Poll(true) && !IsRefusal(e)
    requires t != [] ==> !BackInTime(t + [e], |t| - 1)
    ensures Undisturbed(t + [e])
  {
    var u := t + [e];
    assert forall i :: 0 <= i < |t| ==> u[i] == t[i];
    forall i: nat | i < |u| ensures u[i] != Poll(true) && !IsRefusal(u[i]) && !BackInTime(u, i) {
      if i + 1 < |t| { assert !BackInTime(t, i); }
    }
  }

  lemma GoingStep(t: seq<Event>, body: seq<Event>, e: Event)
    requires Going(t, body) && e != Poll(true) && !IsRefusal(e)
    requires FitsAt(t + [e], |t|) && (t != [] ==> !BackInTime(t + [e], |t| - 1))
    ensures Going(t + [e], body + (if IsObservation(e) then [] else [e]))
  {
    CoreStep(t, e);
    PacedStep(t, e);
    UndisturbedStep(t, e);
  }

  /** A run going well that meets a bad answer or a refusal is stuck. */
  lemma StuckStep(t: seq<Event>, body: seq<Event>, e: Event, error: ExecutorError)
    requires Going(t, body) && !e.Progress? && FitsAt(t + [e], |t|)
    requires Explained(t + [e], error)
    ensures Stuck(t + [e], body + (if IsObservation(e) then [] else [e]), error)
  {
    CoreStep(t, e);
    PacedStep(t, e);
    hide Core, Explained, Paced;
    var u := t + [e];
    assert forall i :: 0 <= i < |t| ==> u[i] == t[i];
    assert u[|t|] == e;
  }

  /** A stuck run stays so while nothing but questions, releases and the terminal report follow. */
  lemma StuckMore(t: seq<Event>, body: seq<Event>, e: Event, was: ExecutorError, error: ExecutorError)
    requires Stuck(t, body, was) && (e.Poll? || e.Release? || e.Terminal?) && FitsAt(t + [e], |t|)
    requires Explained(t + [e], error)
    ensures Stuck(t + [e], body + (if IsObservation(e) then [] else [e]), error)
  {
    CoreStep(t, e);
    PacedStep(t, e);
    hide Core, Explained, Paced;
    var u := t + [e];
    assert forall i :: 0 <= i < |t| ==> u[i] == t[i];
    assert u[|t|] == e;
  }

  lemma CleanIsStalled(t: seq<Event>, body: seq<Event>)
    requires Clean(t, body)
    ensures Stalled(t, body, EXECUTOR_OK)
  {
    hide Core, Paced;
  }

  /** What accounts for an error goes on accounting for it. */
  lemma ExplainedStep(t: seq<Event>, e: Event, error: ExecutorError)
    requires Explained(t, error)
    requires error == EXECUTOR_OK ==> Settled(t) && e != Poll(true) && !IsRefusal(e)
    ensures Explained(t + [e], error)
  {
    var u := t + [e];
    assert forall i :: 0 <= i < |t| ==> u[i] == t[i];
    if error == EXECUTOR_OK {
      UndisturbedStep(t, e);
    } else if error == CLOCK_ERROR {
      var i :| 0 <= i < |t| && BackInTime(t, i);
      assert BackInTime(u, i);
    }
  }

  lemma {:induction false} PerfectPrefixGrows(rs: seq<Record>, i: nat, j: nat)
    requires i <= j <= |rs|
    ensures PerfectPrefix(rs, i) <= PerfectPrefix(rs, j)
  {
    hide RecordCalls;
    if i < j { PerfectPrefixGrows(rs, i, j - 1); }
  }

  /** Part of the calls of the next record, after those of the records before it. */
  lemma {:induction false} PartOfPerfect(rs: seq<Record>, i: nat, part: seq<Event>)
    requires i < |rs| && part <= RecordCalls(rs[i], i + 1, |rs|)
    ensures PerfectPrefix(rs, i) + part <= PerfectRun(rs)
  {
    hide RecordCalls;
    PerfectPrefixGrows(rs, i + 1, |rs|);
    assert PerfectPrefix(rs, i) + part <= PerfectPrefix(rs, i + 1);
  }

  lemma {:induction false} PartRefused(rs: seq<Record>, i: nat, part: seq<Event>, e: Event)
    requires i < |rs| && part + [e] <= RecordCalls(rs[i], i + 1, |rs|)
    ensures Follows(PerfectPrefix(rs, i) + part + [Refused(e)], PerfectRun(rs))
  {
    hide RecordCalls, PerfectRun;
    PartOfPerfect(rs, i, part + [e]);
    var body, full := PerfectPrefix(rs, i) + part + [Refused(e)], PerfectRun(rs);
    assert PerfectPrefix(rs, i) + (part + [e]) == PerfectPrefix(rs, i) + part + [e];
    assert full[|body| - 1] == e;
    assert body[..|body| - 1] == PerfectPrefix(rs, i) + part;
    assert full[..|body|] == PerfectPrefix(rs, i) + part + [e];
    assert full[..|body| - 1] == full[..|body|][..|body| - 1];
  }

  // ---- What every run leaves behind -----------------------------------------------

  function StatusOf(error: ExecutorError): TerminalStatus {
    if error == EXECUTOR_OK then TERMINAL_COMPLETED else if error == EXECUTOR_STOPPED then TERMINAL_ABORTED
      else TERMINAL_ERROR
  }

  /** The terminal report passes the schedule's own error on, when reading it was the trouble. */
  predicate Reported(e: Event, error: ExecutorError)
    requires e.Terminal?
  {
    && e.error == error && e.status == StatusOf(error)
    && (error == EXECUTOR_NOT_VERIFIED ==> e.protocolError == Schedule.NOT_VERIFIED)
    && (error == PROTOCOL_READ_FAILED ==> e.protocolError != Schedule.OK)
    && (error !in {EXECUTOR_NOT_VERIFIED, PROTOCOL_READ_FAILED, RELEASE_FAILED} ==> e.protocolError == Schedule.OK)
  }

  /**
   The whole record of a run: the acting calls follow the perfect run up to a point, then comes one
   last release, then the one terminal report.
   */
  ghost predicate Outcome(t: seq<Event>, rs: seq<Record>, error: ExecutorError) {
    var c := Core(t);
    && |c| >= 2 && c[|c| - 2].Release? && c[|c| - 1].Terminal? && Reported(c[|c| - 1], error)
    && t[|t| - 1] == c[|c| - 1]
    && Follows(c[..|c| - 2], PerfectRun(rs))
    && Paced(t) && QuietAfterStop(t) && Explained(t, error)
    && (error == EXECUTOR_OK <==>
        c == PerfectRun(rs) + [Release(true), Terminal(TERMINAL_COMPLETED, EXECUTOR_OK, Schedule.OK)])
  }
}
