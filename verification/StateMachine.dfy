/** The board's coarse state machine: which transitions exist, and what every run from boot keeps. */
module StateMachine {

  datatype State =
    | BOOTING | WIFI_READY | BLUETOOTH_ADVERTISING | BLUETOOTH_CONNECTED | RECEIVING | VERIFYING | READY
    | COUNTDOWN | EXECUTING | COMPLETED | ABORTED | ERROR

  datatype StateError = STATE_OK | ILLEGAL_TRANSITION | JOB_INCOMPLETE | JOB_NOT_VERIFIED | HID_NOT_CONNECTED
    | RELEASE_FAILED

  predicate TransitionAllowed(from: State, to: State) {
    match from
    case BOOTING => to in {WIFI_READY, ERROR}
    case WIFI_READY => to in {BLUETOOTH_ADVERTISING, RECEIVING, ERROR}
    case BLUETOOTH_ADVERTISING => to in {BLUETOOTH_CONNECTED, RECEIVING, ERROR}
    case BLUETOOTH_CONNECTED => to in {RECEIVING, BLUETOOTH_ADVERTISING, ERROR}
    case RECEIVING => to in {VERIFYING, WIFI_READY, BLUETOOTH_ADVERTISING, BLUETOOTH_CONNECTED, ABORTED, ERROR}
    case VERIFYING => to in {READY, ABORTED, ERROR}
    case READY => to in {COUNTDOWN, RECEIVING, ABORTED, ERROR}
    case COUNTDOWN => to in {EXECUTING, ABORTED, ERROR}
    case EXECUTING => to in {COMPLETED, ABORTED, ERROR}
    case COMPLETED => to in {WIFI_READY, BLUETOOTH_CONNECTED, ERROR}
    case ABORTED => to in {WIFI_READY, BLUETOOTH_CONNECTED, ERROR}
    case ERROR => to in {WIFI_READY, BLUETOOTH_ADVERTISING, ERROR}
  }

  /** The same table read backwards: where each state can be entered from. */
  lemma EnteredFrom(from: State, to: State)
    ensures TransitionAllowed(from, to) <==>
      match to
      case BOOTING => false
      case WIFI_READY => from in {BOOTING, RECEIVING, COMPLETED, ABORTED, ERROR}
      case BLUETOOTH_ADVERTISING => from in {WIFI_READY, BLUETOOTH_CONNECTED, RECEIVING, ERROR}
      case BLUETOOTH_CONNECTED => from in {BLUETOOTH_ADVERTISING, RECEIVING, COMPLETED, ABORTED}
      case RECEIVING => from in {WIFI_READY, BLUETOOTH_ADVERTISING, BLUETOOTH_CONNECTED, READY}
      case VERIFYING => from == RECEIVING
      case READY => from == VERIFYING
      case COUNTDOWN => from == READY
      case EXECUTING => from == COUNTDOWN
      case COMPLETED => from == EXECUTING
      case ABORTED => from in {RECEIVING, VERIFYING, READY, COUNTDOWN, EXECUTING}
      case ERROR => true
  {}

  datatype Machine = Machine(state: State, connected: bool, uploadComplete: bool, jobVerified: bool)

  const BOOTED := Machine(BOOTING, false, false, false)

  datatype Call =
    | Boot
    | SetConnected(connected: bool)
    | SetUploadComplete(complete: bool)
    | Transition(next: State)
    | MarkReady(verificationSucceeded: bool)
    | Start
    | Finish(terminal: State, released: bool)

  /** The verdict on a call and the machine after it. */
  function Outcome(m: Machine, call: Call): (StateError, Machine) {
    match call
    case Boot => (STATE_OK, BOOTED)
    case SetConnected(c) => (STATE_OK, m.(connected := c))
    case SetUploadComplete(complete) =>
      (STATE_OK, m.(uploadComplete := complete, jobVerified := m.jobVerified && complete))
    case Transition(next) =>
      if !TransitionAllowed(m.state, next) then (ILLEGAL_TRANSITION, m)
      else if next == READY then (JOB_NOT_VERIFIED, m)
      else if next in {COUNTDOWN, COMPLETED, ABORTED, ERROR} then (ILLEGAL_TRANSITION, m)
      else (STATE_OK, m.(state := next))
    case MarkReady(ok) =>
      if m.state != VERIFYING then (ILLEGAL_TRANSITION, m)
      else if !m.uploadComplete then (JOB_INCOMPLETE, m)
      else if !ok then (JOB_NOT_VERIFIED, m.(jobVerified := false))
      else (STATE_OK, m.(jobVerified := true, state := READY))
    case Start =>
      if m.state != READY then (ILLEGAL_TRANSITION, m)
      else if !m.jobVerified then (JOB_NOT_VERIFIED, m)
      else if !m.connected then (HID_NOT_CONNECTED, m)
      else (STATE_OK, m.(state := COUNTDOWN))
    case Finish(terminal, released) =>
      if terminal !in {COMPLETED, ABORTED, ERROR} || !TransitionAllowed(m.state, terminal) then (ILLEGAL_TRANSITION, m)
      else
        (if released then STATE_OK else RELEASE_FAILED,
         m.(state := if released then terminal else ERROR, jobVerified := false))
  }

  class BoardState {
    var state: State
    var bluetoothConnected: bool
    var uploadComplete: bool
    var jobVerified: bool

    function View(): Machine
      reads this
    {
      Machine(state, bluetoothConnected, uploadComplete, jobVerified)
    }

    constructor ()
      ensures View() == BOOTED
    {
      state, bluetoothConnected, uploadComplete, jobVerified := BOOTING, false, false, false;
    }

    method SetBluetoothConnected(connected: bool)
      modifies this
      ensures View() == Outcome(old(View()), SetConnected(connected)).1
    {
      bluetoothConnected := connected;
    }

    method SetComplete(complete: bool)
      modifies this
      ensures View() == Outcome(old(View()), SetUploadComplete(complete)).1
    {
      uploadComplete := complete;
      if !complete { jobVerified := false; }
    }

    method MoveTo(next: State) returns (error: StateError)
      modifies this
      ensures (error, View()) == Outcome(old(View()), Transition(next))
    {
      if !TransitionAllowed(state, next) { return ILLEGAL_TRANSITION; }
      if next == READY { return JOB_NOT_VERIFIED; }
      if next == COUNTDOWN || next == COMPLETED || next == ABORTED || next == ERROR { return ILLEGAL_TRANSITION; }
      state := next;
      return STATE_OK;
    }

    method MarkJobReady(verificationSucceeded: bool) returns (error: StateError)
      modifies this
      ensures (error, View()) == Outcome(old(View()), MarkReady(verificationSucceeded))
    {
      if state != VERIFYING { return ILLEGAL_TRANSITION; }
      if !uploadComplete { return JOB_INCOMPLETE; }
      if !verificationSucceeded {
        jobVerified := false;
        return JOB_NOT_VERIFIED;
      }
      jobVerified, state := true, READY;
      return STATE_OK;
    }

    method StartJob() returns (error: StateError)
      modifies this
      ensures (error, View()) == Outcome(old(View()), Start)
    {
      if state != READY { return ILLEGAL_TRANSITION; }
      if !jobVerified { return JOB_NOT_VERIFIED; }
      if !bluetoothConnected { return HID_NOT_CONNECTED; }
      state := COUNTDOWN;
      return STATE_OK;
    }

    /** The release is asked for only when the transition is allowed; `released` is its answer. */
    method FinishJob(terminal: State, released: bool) returns (error: StateError)
      modifies this
      ensures (error, View()) == Outcome(old(View()), Finish(terminal, released))
    {
      if (terminal != COMPLETED && terminal != ABORTED && terminal != ERROR) || !TransitionAllowed(state, terminal) {
        return ILLEGAL_TRANSITION;
      }
      state, jobVerified := if released then terminal else ERROR, false;
      return if released then STATE_OK else RELEASE_FAILED;
    }
  }

  // ---- Runs from boot --------------------------------------------------------------------

  function Run(calls: seq<Call>): Machine {
    if calls == [] then BOOTED else Outcome(Run(calls[..|calls| - 1]), calls[|calls| - 1]).1
  }

  /** The machine when call i is made. */
  function Before(calls: seq<Call>, i: nat): Machine
    requires i <= |calls|
  {
    Run(calls[..i])
  }

  predicate Succeeds(calls: seq<Call>, i: nat)
    requires i < |calls|
  {
    Outcome(Before(calls, i), calls[i]).0 == STATE_OK
  }

  /** Call i moves the machine into the given state from another. */
  predicate Enters(calls: seq<Call>, i: nat, s: State)
    requires i < |calls|
  {
    Before(calls, i).state != s && Outcome(Before(calls, i), calls[i]).1.state == s
  }

  /** Only a complete upload is ever verified. */
  lemma {:induction false} VerifiedIsComplete(calls: seq<Call>)
    ensures Run(calls).jobVerified ==> Run(calls).uploadComplete
  {
    if calls != [] { VerifiedIsComplete(calls[..|calls| - 1]); }
  }

  /** COMPLETED and ABORTED are entered by a finish whose release succeeded, and by nothing else. */
  lemma TerminalNeedsRelease(calls: seq<Call>, i: nat)
    requires i < |calls| && (Enters(calls, i, COMPLETED) || Enters(calls, i, ABORTED))
    ensures calls[i].Finish? && calls[i].released && Succeeds(calls, i)
  {
    hide Run;
  }

  predicate IsMark(calls: seq<Call>, i: nat)
    requires i < |calls|
  {
    calls[i] == MarkReady(true) && Succeeds(calls, i)
  }

  predicate IsStart(calls: seq<Call>, i: nat)
    requires i < |calls|
  {
    calls[i] == Start && Succeeds(calls, i) && Before(calls, i).connected && Before(calls, i).jobVerified
  }

  // ---- Who leads where, one call at a time -----------------------------------------------

  lemma IntoReady(m: Machine, call: Call)
    requires m.state != READY && Outcome(m, call).1.state == READY
    ensures call == MarkReady(true) && Outcome(m, call).0 == STATE_OK
  {}

  lemma IntoCountdown(m: Machine, call: Call)
    requires m.state != COUNTDOWN && Outcome(m, call).1.state == COUNTDOWN
    ensures m.state == READY && call == Start && Outcome(m, call).0 == STATE_OK && m.connected && m.jobVerified
  {}

  lemma IntoExecuting(m: Machine, call: Call)
    requires m.state != EXECUTING && Outcome(m, call).1.state == EXECUTING
    ensures m.state == COUNTDOWN && call == Transition(EXECUTING)
  {}

  const UNDO := SetUploadComplete(false)

  /** Between the mark and the entry, only taking the upload back undoes the verification. */
  lemma StaysReady(m: Machine, call: Call)
    requires m.state == READY && Outcome(m, call).1.state == READY
    ensures Outcome(m, call).1.jobVerified <==> m.jobVerified && call != UNDO
  {}

  lemma StaysCountdown(m: Machine, call: Call)
    requires m.state == COUNTDOWN && Outcome(m, call).1.state == COUNTDOWN
    ensures Outcome(m, call).1.jobVerified <==> m.jobVerified && call != UNDO
  {}

  lemma MarkVerifies(m: Machine)
    requires Outcome(m, MarkReady(true)).0 == STATE_OK
    ensures Outcome(m, MarkReady(true)).1.jobVerified
  {}

  lemma StartKeepsVerified(m: Machine)
    requires Outcome(m, Start).0 == STATE_OK
    ensures Outcome(m, Start).1.jobVerified && m.jobVerified
  {}

  // ---- The past of a longer run is the past of its beginning -------------------------------

  lemma SamePast(calls: seq<Call>, n: nat, k: nat)
    requires k <= n <= |calls|
    ensures Before(calls, k) == Before(calls[..n], k)
    ensures k < n ==> calls[k] == calls[..n][k]
  {
    hide Run;
    assert calls[..k] == calls[..n][..k];
  }

  lemma SameEvents(calls: seq<Call>, n: nat, k: nat)
    requires k < n <= |calls|
    ensures IsMark(calls, k) == IsMark(calls[..n], k)
    ensures IsStart(calls, k) == IsStart(calls[..n], k)
    ensures forall s :: Enters(calls, k, s) == Enters(calls[..n], k, s)
  {
    hide Outcome, Before;
    SamePast(calls, n, k);
  }

  /** No call from the m-th on, and before the n-th, enters EXECUTING. */
  predicate Unstarted(calls: seq<Call>, m: nat, n: nat)
    requires n <= |calls|
  {
    forall k :: m <= k < n ==> !Enters(calls, k, EXECUTING)
  }

  /** The upload was not taken back from the m-th call on. */
  predicate NotUndone(calls: seq<Call>, m: nat) { forall k :: m <= k < |calls| ==> calls[k] != UNDO }

  lemma NotUndoneSplit(calls: seq<Call>, m: nat)
    requires calls != [] && m < |calls|
    ensures NotUndone(calls, m) <==> NotUndone(calls[..|calls| - 1], m) && calls[|calls| - 1] != UNDO
  {}

  lemma UnstartedSame(calls: seq<Call>, m: nat, n: nat)
    requires n <= |calls| && Unstarted(calls[..n], m, n)
    ensures Unstarted(calls, m, n)
  {
    hide Enters;
    forall k | m <= k < n ensures !Enters(calls, k, EXECUTING) {
      SameEvents(calls, n, k);
    }
  }

  lemma {:induction false} RunStep(calls: seq<Call>)
    requires calls != []
    ensures Run(calls) == Outcome(Before(calls, |calls| - 1), calls[|calls| - 1]).1
  {
    hide Outcome;
  }

  lemma {:induction false} UnstartedGrows(calls: seq<Call>, m: nat, n: nat)
    requires n + 1 == |calls| && Unstarted(calls[..n], m, n) && Run(calls).state != EXECUTING
    ensures Unstarted(calls, m, n + 1)
  {
    UnstartedSame(calls, m, n);
    RunStep(calls);
    hide Outcome, Run, Before;
  }

  /** While the state is READY, a successful mark led there, and no run was entered since. */
  lemma {:induction false} ReadyHasMark(calls: seq<Call>) returns (m: nat)
    requires Run(calls).state == READY
    ensures m < |calls| && IsMark(calls, m) && Unstarted(calls, m, |calls|)
    ensures Run(calls).jobVerified <==> NotUndone(calls, m)
  {
    assert calls != [];
    hide Outcome, Enters, Run, NotUndone;
    var n := |calls| - 1;
    RunStep(calls);
    if Run(calls[..n]).state == READY {
      m := ReadyHasMark(calls[..n]);
      StaysReady(Run(calls[..n]), calls[n]);
      hide IsMark, Unstarted;
      SameEvents(calls, n, m);
      UnstartedGrows(calls, m, n);
    } else {
      m := n;
      IntoReady(Before(calls, n), calls[n]);
      MarkVerifies(Before(calls, n));
      NothingYet(calls[..n], n);
      UnstartedGrows(calls, n, n);
    }
    NotUndoneSplit(calls, m);
  }

  lemma NothingYet(calls: seq<Call>, n: nat)
    requires n == |calls|
    ensures Unstarted(calls, n, n) && NotUndone(calls, n)
  {}

  lemma {:induction false} CountdownHasStart(calls: seq<Call>) returns (m: nat, s: nat)
    requires Run(calls).state == COUNTDOWN
    ensures m < s < |calls| && IsMark(calls, m) && IsStart(calls, s) && Unstarted(calls, m, |calls|)
    ensures Run(calls).jobVerified <==> NotUndone(calls, m)
  {
    assert calls != [];
    hide Outcome, Enters, Run, Unstarted, IsMark, NotUndone;
    var n := |calls| - 1;
    RunStep(calls);
    if Run(calls[..n]).state == COUNTDOWN {
      m, s := CountdownHasStart(calls[..n]);
      StaysCountdown(Run(calls[..n]), calls[n]);
      hide IsStart;
      SameEvents(calls, n, s);
    } else {
      s := n;
      IntoCountdown(Before(calls, n), calls[n]);
      StartKeepsVerified(Before(calls, n));
      m := ReadyHasMark(calls[..n]);
    }
    NotUndoneSplit(calls, m);
    SameEvents(calls, n, m);
    UnstartedGrows(calls, m, n);
  }

  /**
   Every entry to EXECUTING has its own verified job and its own connected start before it: between
   that mark and the entry no other entry lies, so no two entries share either. The job is still
   verified at the entry if and only if the upload was not taken back in between.
   */
  lemma ExecutionIsEarned(calls: seq<Call>, e: nat) returns (m: nat, s: nat)
    requires e < |calls| && Enters(calls, e, EXECUTING)
    ensures m < s < e && IsMark(calls, m) && IsStart(calls, s)
    ensures forall k :: m <= k < e ==> !Enters(calls, k, EXECUTING)
    ensures Before(calls, e).jobVerified <==> forall k :: m <= k < e ==> calls[k] != UNDO
  {
    IntoExecuting(Before(calls, e), calls[e]);
    hide Outcome, Enters, Run, IsMark, IsStart;
    m, s := CountdownHasStart(calls[..e]);
    SameEvents(calls, e, m);
    SameEvents(calls, e, s);
    UnstartedSame(calls, m, e);
  }

  /** So a run can be entered without a verified job. */
  lemma EnteredUnverified(calls: seq<Call>)
    requires calls == TO_VERIFYING + [MarkReady(true), Start, UNDO, Transition(EXECUTING)]
    ensures Enters(calls, |calls| - 1, EXECUTING) && !Before(calls, |calls| - 1).jobVerified
  {
    var c := TO_VERIFYING;
    ToVerifying();
    hide Run;
    Extend(c, MarkReady(true));
    Extend(c + [MarkReady(true)], Start);
    Extend(c + [MarkReady(true)] + [Start], UNDO);
    assert calls[..|calls| - 1] == c + [MarkReady(true)] + [Start] + [UNDO];
  }

  const TO_VERIFYING: seq<Call> :=
    [Transition(WIFI_READY), Transition(RECEIVING), Transition(VERIFYING), SetConnected(true), SetUploadComplete(true)]

  lemma {:induction false} Extend(calls: seq<Call>, call: Call)
    ensures Run(calls + [call]) == Outcome(Run(calls), call).1
  {
    hide Outcome;
    assert (calls + [call])[..|calls|] == calls;
  }

  lemma ToVerifying()
    ensures Run(TO_VERIFYING) == Machine(VERIFYING, true, true, false)
  {
    hide Run;
    var a := [] + [Transition(WIFI_READY)];
    var b := a + [Transition(RECEIVING)];
    var c := b + [Transition(VERIFYING)];
    var d := c + [SetConnected(true)];
    Nothing();
    Extend([], Transition(WIFI_READY));
    Extend(a, Transition(RECEIVING));
    Extend(b, Transition(VERIFYING));
    Extend(c, SetConnected(true));
    Extend(d, SetUploadComplete(true));
    assert TO_VERIFYING == d + [SetUploadComplete(true)];
  }

  lemma Nothing()
    ensures Run([]) == BOOTED
  {}
}
