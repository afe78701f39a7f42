/**
 The start, execution and crash-marker protocol as a step system: one HTTP request at a time, the
 execution task, and power that may be lost between any two steps. Marker writes that report a
 failure may or may not have happened, and any step of a boot may fail and reset the chip.
 */
module CrashSafety {

  datatype Status = IDLE | RECEIVING | READY | COUNTDOWN | EXECUTING | STOPPING | ENDED | ERROR | INTERRUPTED_RESET

  /**
   How far a boot has come: no more than an erase of all the settings, which the boot resorts to when
   their storage has no free page or another version; the marker read, the marker seen to and the finding kept in
   memory, or the upload told about it and the service up.
   */
  datatype Power = OFF | MARKER_READ(active: bool) | MARKER_SEEN_TO(interrupted: bool) | ON

  /** How far the start request has come; any other request is one step. */
  datatype Handler = NO_START | PREPARED | MARKED | CREATED | UNMARKING | ROLLING_BACK

  /** The execution task that was created last. */
  datatype Task = NONE | WAITING | RUNNING | RUN_OVER | MARKER_DONE

  /** A cut run is owed a report; the debt is lost when nothing that survives a reset tells of it any more. */
  datatype Report = NOTHING | OWED | LOST

  datatype System = System(
    power: Power, marker: bool, status: Status, handler: Handler, task: Task,
    handle: bool,        // s_execution_task is the handle of the task
    finishing: nat,      // ended tasks that have yet to clear s_execution_task
    overlap: bool,       // some task was still finishing when the current one was created
    announced: bool, verified: bool,  // a begin, and then a finalization, succeeded since boot
    report: Report)      // what the next boot owes about a run that power loss cut off

  datatype Step =
    | Begin(erased: bool)
    | Finalize(ok: bool, fatal: bool)
    | Cancel
    | RequestStop
    | Prepare
    | WriteMarker(ok: bool, took: bool)
    | CreateTask(ok: bool)
    | Respond(ok: bool)
    | TakeMarkerBack(ok: bool, took: bool)
    | StartFailed
    | CountdownOver
    | RunEnds
    | ClearMarker(ok: bool, took: bool)
    | Complete(stopped: bool, ok: bool)
    | ForgetTask
    | PowerLoss
    | BootErase(ok: bool, took: bool)
    | BootRead(ok: bool)
    | BootClear(ok: bool, took: bool)
    | BootUp(ok: bool)

  predicate JobLocked(status: Status) { status in {READY, COUNTDOWN, EXECUTING, STOPPING} }
  predicate Busy(status: Status) { status in {COUNTDOWN, EXECUTING, STOPPING} }

  /** A marker write: done when it reports success, done or not when it reports failure. */
  function Written(marker: bool, value: bool, ok: bool, took: bool): bool {
    if ok || took then value else marker
  }

  /** A reset: everything but the marker is gone, and with it a debt the marker does not record. */
  function Booting(marker: bool, report: Report): System {
    System(OFF, marker, IDLE, NO_START, NONE, false, 0, false, false, false,
           if report == OWED && !marker then LOST else report)
  }

  const DELIVERED := Booting(false, NOTHING)

  /** The task has been notified and its run has not reached its terminal step. */
  predicate RunIsOn(s: System) { s.task == RUNNING || s.task == RUN_OVER }

  predicate Requests(s: System) { s.power == ON && s.handler == NO_START }

  predicate Enabled(s: System, e: Step) {
    match e
    case Begin(_) => Requests(s) && !JobLocked(s.status)
    case Finalize(_, _) => Requests(s) && s.status == RECEIVING
    case Cancel => Requests(s) && s.status == READY
    case RequestStop => Requests(s) && (s.status == COUNTDOWN || s.status == EXECUTING)
    case Prepare => Requests(s) && s.status == READY
    case WriteMarker(_, _) => s.power == ON && s.handler == PREPARED
    case CreateTask(_) => s.power == ON && s.handler == MARKED
    case Respond(ok) => s.power == ON && s.handler == CREATED && s.handle
    case TakeMarkerBack(_, _) => s.power == ON && s.handler == UNMARKING
    case StartFailed => s.power == ON && s.handler == ROLLING_BACK
    case CountdownOver => s.power == ON && s.task == RUNNING && s.status == COUNTDOWN
    case RunEnds => s.power == ON && s.task == RUNNING
    case ClearMarker(_, _) => s.power == ON && s.task == RUN_OVER
    case Complete(_, _) => s.power == ON && s.task == MARKER_DONE
    case ForgetTask => s.power == ON && s.finishing > 0
    case PowerLoss => true
    case BootErase(_, _) => s.power == OFF
    case BootRead(_) => s.power == OFF
    case BootClear(_, _) => s.power.MARKER_READ?
    case BootUp(_) => s.power.MARKER_SEEN_TO?
  }

  /** One step; a step that is not enabled does nothing. */
  function Next(s: System, e: Step): System {
    if !Enabled(s, e) then s
    else match e
      case Begin(erased) => s.(status := if erased then RECEIVING else ERROR, announced := erased, verified := false)
      case Finalize(ok, fatal) => if ok then s.(status := READY, verified := true)
        else if fatal then s.(status := ERROR) else s
      case Cancel => s.(status := IDLE, announced := false, verified := false)
      case RequestStop => s.(status := STOPPING)
      case Prepare => s.(status := COUNTDOWN, handler := PREPARED)
      case WriteMarker(ok, took) =>
        s.(marker := Written(s.marker, true, ok, took), handler := if ok then MARKED else ROLLING_BACK)
      case CreateTask(ok) =>
        if ok then s.(task := WAITING, handle := true, overlap := s.finishing > 0, handler := CREATED)
        else s.(handler := UNMARKING)
      case Respond(ok) =>
        if ok then s.(task := RUNNING, handler := NO_START) else s.(task := NONE, handle := false, handler := UNMARKING)
      case TakeMarkerBack(ok, took) => s.(marker := Written(s.marker, false, ok, took), handler := ROLLING_BACK)
      case StartFailed => s.(status := if s.status == COUNTDOWN then READY else s.status, handler := NO_START)
      case CountdownOver => s.(status := EXECUTING)
      case RunEnds => s.(task := RUN_OVER)
      case ClearMarker(ok, took) => s.(marker := Written(s.marker, false, ok, took), task := MARKER_DONE)
      case Complete(stopped, ok) =>
        s.(status := if stopped || ok then ENDED else ERROR, task := NONE, finishing := s.finishing + 1)
      case ForgetTask => s.(handle := false, finishing := s.finishing - 1)
      case PowerLoss => Booting(s.marker, if s.power == ON && RunIsOn(s) then OWED else s.report)
      case BootErase(ok, took) => Booting(Written(s.marker, false, ok, took), s.report)
      case BootRead(ok) => if ok then s.(power := MARKER_READ(s.marker)) else s
      case BootClear(ok, took) =>
        if !s.power.active then s.(power := MARKER_SEEN_TO(false))
        else if ok then s.(power := MARKER_SEEN_TO(true), marker := false)
        else Booting(Written(s.marker, false, ok, took), s.report)
      case BootUp(ok) =>
        if ok then s.(power := ON, status := if s.power.interrupted then INTERRUPTED_RESET else IDLE, report := NOTHING)
        else Booting(s.marker, s.report)
  }

  function Run(steps: seq<Step>): System {
    if steps == [] then DELIVERED else Next(Run(steps[..|steps| - 1]), steps[|steps| - 1])
  }

  /** The inductive invariant of the protocol. */
  predicate Inv(s: System) {
    && (s.power != ON ==>
      s.status == IDLE && s.handler == NO_START && s.task == NONE && s.finishing == 0 && !s.announced && !s.verified)
    && (RunIsOn(s) ==> s.marker)
    && (s.report == OWED ==> s.marker || s.power == MARKER_SEEN_TO(true))
    && (s.report == LOST ==> !s.marker && s.power != MARKER_SEEN_TO(true))
    && (s.power == ON ==> s.report == NOTHING)
    && (s.power.MARKER_READ? ==> s.power.active == s.marker)
    && (s.power.MARKER_SEEN_TO? ==> !s.marker)
    && (s.task != NONE ==> Busy(s.status))
    && (s.handler != NO_START ==> s.status == COUNTDOWN)
    && (s.handler == CREATED <==> s.task == WAITING)
    && (s.handler != NO_START ==> s.task == NONE || s.task == WAITING)
    && (s.handler == NO_START && s.task == NONE ==> !Busy(s.status))
    && (s.handler in {MARKED, CREATED} ==> s.marker)
    && (JobLocked(s.status) ==> s.announced && s.verified)
    && (s.status == RECEIVING ==> s.announced)
    && (s.task == WAITING && !s.overlap ==> s.handle && s.finishing == 0)
  }

  predicate IsPowerStep(e: Step) { e.PowerLoss? || e.BootErase? || e.BootRead? || e.BootClear? || e.BootUp? }
  predicate IsTaskStep(e: Step) { e.CountdownOver? || e.RunEnds? || e.ClearMarker? || e.Complete? || e.ForgetTask? }

  /** Requests, the task, marker writes, resets and boots: every step keeps the invariant. */
  lemma NextKeepsInv(s: System, e: Step)
    requires Inv(s)
    ensures Inv(Next(s, e))
  {
    hide Inv, Next;
    if IsPowerStep(e) {
      PowerKeepsInv(s, e);
    } else if IsTaskStep(e) {
      TaskKeepsInv(s, e);
    } else {
      RequestKeepsInv(s, e);
    }
  }

  lemma PowerKeepsInv(s: System, e: Step)
    requires Inv(s) && IsPowerStep(e)
    ensures Inv(Next(s, e))
  {}

  lemma TaskKeepsInv(s: System, e: Step)
    requires Inv(s) && IsTaskStep(e)
    ensures Inv(Next(s, e))
  {}

  lemma RequestKeepsInv(s: System, e: Step)
    requires Inv(s) && !IsPowerStep(e) && !IsTaskStep(e)
    ensures Inv(Next(s, e))
  {}

  lemma {:induction false} RunKeepsInv(steps: seq<Step>)
    ensures Inv(Run(steps))
  {
    hide Inv, Next;
    if steps == [] {
      DeliveredIsInv();
    } else {
      RunKeepsInv(steps[..|steps| - 1]);
      NextKeepsInv(Run(steps[..|steps| - 1]), steps[|steps| - 1]);
    }
  }

  lemma DeliveredIsInv()
    ensures Inv(DELIVERED)
  {}

  /** In every interleaving, a run that is on is covered by the persistent marker. */
  lemma {:induction false} MarkerCoversRun(steps: seq<Step>)
    ensures RunIsOn(Run(steps)) ==> Run(steps).marker
  {
    RunKeepsInv(steps);
  }

  /** At most one run is on, and while one is, no start, begin, finalization or cancellation is possible. */
  lemma {:induction false} RunExcludesRequests(steps: seq<Step>, e: Step)
    requires Run(steps).task != NONE
    ensures e.Begin? || e.Finalize? || e.Cancel? || e.Prepare? ==> !Enabled(Run(steps), e)
    ensures Run(steps).task != WAITING ==> !Enabled(Run(steps), CreateTask(true))
  {
    RunKeepsInv(steps);
  }

  // ---- The report of a run that power loss cut off ----------------------------------------

  /** A boot from here in which nothing goes wrong. */
  function CleanBoot(s: System): System { Next(Next(Next(s, BootRead(true)), BootClear(true, true)), BootUp(true)) }

  lemma CleanBootResult(marker: bool, report: Report)
    ensures CleanBoot(Booting(marker, report)) ==
      Booting(false, NOTHING).(power := ON, status := if marker then INTERRUPTED_RESET else IDLE)
  {}

  /**
   Power lost while a run is on: the marker is on record, so a boot in which nothing goes wrong comes
   up in INTERRUPTED_RESET, with no job ready and none running.
   */
  lemma {:induction false} InterruptedRunIsReported(steps: seq<Step>)
    requires RunIsOn(Run(steps))
    ensures var up := CleanBoot(Next(Run(steps), PowerLoss));
      up.power == ON && up.status == INTERRUPTED_RESET && up.task == NONE && !up.marker
  {
    RunKeepsInv(steps);
    PowerLossInRun(Run(steps));
    CleanBootResult(true, OWED);
    hide Run, Next, CleanBoot, Booting;
  }

  lemma PowerLossInRun(s: System)
    requires Inv(s) && RunIsOn(s)
    ensures Next(s, PowerLoss) == Booting(true, OWED)
  {}

  lemma LossAfterClear()
    ensures Next(Next(Next(Booting(true, OWED), BootRead(true)), BootClear(true, true)), PowerLoss) ==
      Booting(false, LOST)
  {}

  /** A boot that comes through reports a debt that is owed, and reports nothing of one that is lost. */
  lemma {:induction false} OwedReportIsMade(steps: seq<Step>)
    requires Run(steps).power.MARKER_SEEN_TO?
    ensures var s, up := Run(steps), Next(Run(steps), BootUp(true));
      && up.power == ON
      && (s.report == OWED ==> up.status == INTERRUPTED_RESET)
      && (s.report == LOST ==> up.status == IDLE)
  {
    RunKeepsInv(steps);
  }

  /**
   A debt is lost by exactly those steps that reset the chip while the debt stands in memory only, and
   by those that wipe the marker before it was read.
   */
  lemma {:induction false} LostByReset(steps: seq<Step>, e: Step)
    ensures var s, t := Run(steps), Next(Run(steps), e);
      s.report != LOST && t.report == LOST <==>
        && s.report == OWED
        && ((e == BootClear(false, true) && s.power.MARKER_READ?)
            || (e.BootErase? && (e.ok || e.took) && s.power == OFF)
            || ((e.PowerLoss? || e == BootUp(false)) && s.power.MARKER_SEEN_TO?))
  {
    RunKeepsInv(steps);
    hide Run;
  }

  predicate Accepts(steps: seq<Step>, i: nat)
    requires i < |steps|
  {
    Enabled(Run(steps[..i]), steps[i])
  }

  /** The step really wipes the marker, whatever it reports: a boot's clear of a marker it read, or its erase. */
  predicate Wipes(s: System, e: Step) {
    || (s.power == MARKER_READ(true) && e.BootClear? && (e.ok || e.took))
    || (s.power == OFF && e.BootErase? && (e.ok || e.took))
  }

  predicate Wiped(steps: seq<Step>, i: nat)
    requires i < |steps|
  {
    Wipes(Run(steps[..i]), steps[i])
  }

  /** After step i no boot knows anything of the marker: the chip was reset, and the marker not read since. */
  predicate Down(steps: seq<Step>, i: nat)
    requires i < |steps|
  {
    Run(steps[..i + 1]).power == OFF
  }

  /** Step i cut a run off, and no boot has come through since. */
  predicate CutOff(steps: seq<Step>, i: nat) {
    && i < |steps| && steps[i].PowerLoss? && RunIsOn(Run(steps[..i]))
    && forall k :: i < k < |steps| ==> !(steps[k] == BootUp(true) && Accepts(steps, k))
  }

  ghost predicate SomeWipe(steps: seq<Step>, i: nat) { exists j :: i < j < |steps| && Wiped(steps, j) }

  ghost predicate ResetAfterWipe(steps: seq<Step>, i: nat) {
    exists j, k :: i < j <= k < |steps| && Wiped(steps, j) && Down(steps, k)
  }

  lemma PastStays(steps: seq<Step>, k: nat)
    requires steps != [] && k < |steps| - 1
    ensures var init := steps[..|steps| - 1];
      Accepts(init, k) == Accepts(steps, k) && Wiped(init, k) == Wiped(steps, k)
        && Down(init, k) == Down(steps, k)
  {
    hide Enabled, Run;
    assert steps[..|steps| - 1][..k] == steps[..k];
    assert steps[..|steps| - 1][..k + 1] == steps[..k + 1];
  }

  lemma CutOffBefore(steps: seq<Step>, i: nat)
    requires CutOff(steps, i) && i < |steps| - 1
    ensures CutOff(steps[..|steps| - 1], i)
  {
    hide Run, Accepts;
    var init := steps[..|steps| - 1];
    assert init[..i] == steps[..i];
    forall k | i < k < |init| ensures !(init[k] == BootUp(true) && Accepts(init, k)) {
      PastStays(steps, k);
    }
  }

  lemma WipesSplit(steps: seq<Step>, i: nat)
    requires i < |steps| - 1
    ensures SomeWipe(steps, i) <==> SomeWipe(steps[..|steps| - 1], i) || Wiped(steps, |steps| - 1)
  {
    hide Wiped;
    var n := |steps| - 1;
    var init := steps[..n];
    forall k: nat | k < n ensures Wiped(init, k) == Wiped(steps, k) {
      PastStays(steps, k);
    }
  }

  lemma ResetsSplit(steps: seq<Step>, i: nat)
    requires i < |steps| - 1
    ensures ResetAfterWipe(steps, i) <==>
      ResetAfterWipe(steps[..|steps| - 1], i) || (SomeWipe(steps, i) && Down(steps, |steps| - 1))
  {
    hide Wiped, Down;
    var n := |steps| - 1;
    var init := steps[..n];
    forall k: nat | k < n ensures Wiped(init, k) == Wiped(steps, k) && Down(init, k) == Down(steps, k) {
      PastStays(steps, k);
    }
  }

  /** One more step of an unfinished recovery. */
  lemma RecoveryStep(s: System, e: Step)
    requires Inv(s) && s.report in {OWED, LOST} && !(e == BootUp(true) && Enabled(s, e))
    ensures var t := Next(s, e);
      && t.report in {OWED, LOST}
      && (t.marker <==> s.marker && !Wipes(s, e))
      && (t.report == LOST <==> s.report == LOST || (!t.marker && t.power == OFF))
  {}

  /**
   The fate of the report of a cut run, as long as no boot has come through: the marker stands exactly
   as long as no boot wiped it, and the report is lost if and only if at some moment since then one had
   wiped it and none held the finding in memory: the wipe was the erase of all settings, which comes
   before the marker is read, or a clear that reported a failure, or the chip was reset later, by power
   loss or by a later step of the boot that failed.
   */
  lemma {:induction false} ReportLostExactly(steps: seq<Step>, i: nat)
    requires CutOff(steps, i)
    ensures Run(steps).report in {OWED, LOST}
    ensures Run(steps).marker <==> !SomeWipe(steps, i)
    ensures Run(steps).report == LOST <==> ResetAfterWipe(steps, i)
  {
    var n := |steps| - 1;
    var init, e := steps[..n], steps[n];
    RunKeepsInv(init);
    if i < n {
      CutOffBefore(steps, i);
      ReportLostExactly(init, i);
      WipesSplit(steps, i);
      ResetsSplit(steps, i);
      assert steps[..n + 1] == steps;
      hide Inv, Enabled, Next, Wipes, RunIsOn, SomeWipe, ResetAfterWipe;
      RecoveryStep(Run(init), e);
    }
  }

  /** The debt can be lost without any write failing: power goes between the clear and the report. */
  lemma ReportCanBeLost()
    ensures exists steps ::
      && RunIsOn(Run(steps))
      && var down := Next(Next(Next(Next(Run(steps), PowerLoss), BootRead(true)), BootClear(true, true)), PowerLoss);
      CleanBoot(down).power == ON && CleanBoot(down).status == IDLE
  {
    var steps := ToRunning();
    RunKeepsInv(steps);
    PowerLossInRun(Run(steps));
    LossAfterClear();
    CleanBootResult(false, LOST);
    hide Run, Next, CleanBoot, Booting, Inv;
    assert RunIsOn(Run(steps));
  }

  /** Or the boot erases the settings and the marker with them, and comes through without a word. */
  lemma ReportCanBeErased()
    ensures exists steps ::
      && RunIsOn(Run(steps))
      && var up := CleanBoot(Next(Next(Run(steps), PowerLoss), BootErase(true, true)));
      up.power == ON && up.status == IDLE
  {
    var steps := ToRunning();
    RunKeepsInv(steps);
    PowerLossInRun(Run(steps));
    Erased(true, OWED);
    CleanBootResult(false, LOST);
    hide Run, Next, CleanBoot, Booting, Inv;
    assert RunIsOn(Run(steps));
  }

  lemma Erased(marker: bool, report: Report)
    ensures Next(Booting(marker, report), BootErase(true, true)) == Booting(false, report)
    ensures Booting(false, OWED) == Booting(false, LOST)
  {}

  // ---- Ways through the protocol ----------------------------------------------------------

  lemma {:induction false} Extend(steps: seq<Step>, e: Step)
    ensures Run(steps + [e]) == Next(Run(steps), e)
  {
    assert (steps + [e])[..|steps|] == steps;
  }

  /** An idle board can always be taken to a verified job. */
  lemma ToReady(steps: seq<Step>) returns (more: seq<Step>)
    requires Requests(Run(steps)) && !JobLocked(Run(steps).status)
    ensures Run(more) == Run(steps).(status := READY, announced := true, verified := true)
  {
    hide Run;
    Extend(steps, Begin(true));
    Extend(steps + [Begin(true)], Finalize(true, false));
    more := steps + [Begin(true)] + [Finalize(true, false)];
  }

  /** And a verified job to a created task. */
  lemma ToCreated(steps: seq<Step>) returns (more: seq<Step>)
    requires Requests(Run(steps)) && Run(steps).status == READY
    ensures Run(more) == Run(steps).(status := COUNTDOWN, handler := CREATED, marker := true, task := WAITING,
                                     handle := true, overlap := Run(steps).finishing > 0)
  {
    hide Run;
    Extend(steps, Prepare);
    Extend(steps + [Prepare], WriteMarker(true, true));
    Extend(steps + [Prepare] + [WriteMarker(true, true)], CreateTask(true));
    more := steps + [Prepare] + [WriteMarker(true, true)] + [CreateTask(true)];
  }

  /** One way to a run that is on. */
  lemma ToRunning() returns (steps: seq<Step>)
    ensures Run(steps) == System(ON, true, COUNTDOWN, NO_START, RUNNING, true, 0, false, true, true, NOTHING)
  {
    Up();
    hide Run;
    steps := ToReady([BootRead(true)] + [BootClear(true, true)] + [BootUp(true)]);
    steps := ToCreated(steps);
    Extend(steps, Respond(true));
    steps := steps + [Respond(true)];
  }

  lemma Up()
    ensures Run([BootRead(true)] + [BootClear(true, true)] + [BootUp(true)]) == DELIVERED.(power := ON)
  {
    Extend([], BootRead(true));
    Extend([] + [BootRead(true)], BootClear(true, true));
    Extend([] + [BootRead(true)] + [BootClear(true, true)], BootUp(true));
    assert [] + [BootRead(true)] == [BootRead(true)];
  }

  /** Since the last power loss an upload was begun, and then finalized. */
  predicate PreparedSinceBoot(steps: seq<Step>, b: nat, f: nat) {
    && b < f < |steps|
    && steps[b] == Begin(true) && Accepts(steps, b)
    && steps[f].Finalize? && steps[f].ok && Accepts(steps, f)
    && (forall k :: b < k < |steps| ==> !steps[k].PowerLoss?)
  }

  lemma {:induction false} AnnouncedSinceBoot(steps: seq<Step>) returns (b: nat)
    requires Run(steps).announced
    ensures b < |steps| && steps[b] == Begin(true) && Accepts(steps, b)
    ensures forall k :: b < k < |steps| ==> !steps[k].PowerLoss?
  {
    hide Enabled;
    var n := |steps| - 1;
    var init, e := steps[..n], steps[n];
    if e == Begin(true) && Enabled(Run(init), e) {
      b := n;
    } else {
      AnnouncedBefore(Run(init), e);
      b := AnnouncedSinceBoot(init);
      assert init[..b] == steps[..b];
    }
  }

  lemma AnnouncedBefore(s: System, e: Step)
    requires Next(s, e).announced && !(e == Begin(true) && Enabled(s, e))
    ensures s.announced && !e.PowerLoss?
  {}

  lemma VerifiedBefore(s: System, e: Step)
    requires Inv(s) && Next(s, e).verified && !(e.Finalize? && e.ok && Enabled(s, e))
    ensures s.verified && !e.PowerLoss?
  {}

  lemma VerifiedNow(s: System, e: Step)
    requires Inv(s) && e.Finalize? && e.ok && Enabled(s, e)
    ensures s.announced
  {}

  lemma {:induction false} VerifiedSinceBoot(steps: seq<Step>) returns (b: nat, f: nat)
    requires Run(steps).verified
    ensures PreparedSinceBoot(steps, b, f)
  {
    hide Enabled, Inv;
    var n := |steps| - 1;
    var init, e := steps[..n], steps[n];
    RunKeepsInv(init);
    if e.Finalize? && e.ok && Enabled(Run(init), e) {
      VerifiedNow(Run(init), e);
      b := AnnouncedSinceBoot(init);
      f := n;
      assert init[..b] == steps[..b];
    } else {
      VerifiedBefore(Run(init), e);
      b, f := VerifiedSinceBoot(init);
      assert init[..b] == steps[..b] && init[..f] == steps[..f];
    }
  }

  /** No start is accepted that was not preceded, since power came up, by its own begin and successful finalization. */
  lemma NoStartWithoutUpload(steps: seq<Step>) returns (b: nat, f: nat)
    requires Enabled(Run(steps), Prepare)
    ensures PreparedSinceBoot(steps, b, f)
  {
    RunKeepsInv(steps);
    b, f := VerifiedSinceBoot(steps);
  }

  // ---- The task handle ------------------------------------------------------------------------

  /** A task created while no ended task is still finishing is notified through its own handle. */
  lemma {:induction false} HandleIsLive(steps: seq<Step>)
    ensures Run(steps).task == WAITING && !Run(steps).overlap ==>
      Run(steps).handle && Enabled(Run(steps), Respond(true))
  {
    RunKeepsInv(steps);
  }

  lemma {:induction false} OverlapStays(steps: seq<Step>, more: seq<Step>)
    requires !Run(steps).overlap && forall k :: 0 <= k < |more| ==> !more[k].CreateTask?
    ensures !Run(steps + more).overlap
  {
    if more == [] {
      assert steps + more == steps;
    } else {
      var n := |more| - 1;
      OverlapStays(steps, more[..n]);
      assert (steps + more)[..|steps + more| - 1] == steps + more[..n];
      NoNewOverlap(Run(steps + more[..n]), more[n]);
      hide Next;
    }
  }

  lemma NoNewOverlap(s: System, e: Step)
    requires !s.overlap && !e.CreateTask?
    ensures !Next(s, e).overlap
  {}

  /** The created task waits to be notified, and its handle is gone. */
  predicate Orphaned(s: System) { s.task == WAITING && !s.handle }

  /**
   A task being created can come to lose its handle before it is notified if and only if an ended
   task has yet to clear the shared handle: it does so after it has let go of the mutex, so a client
   quick enough to upload and start in between leaves the new task without one.
   */
  lemma {:induction false} HandleLostExactly(steps: seq<Step>)
    requires Enabled(Run(steps), CreateTask(true))
    ensures Run(steps).finishing > 0 <==>
      exists more: seq<Step> ::
        (forall k :: 0 <= k < |more| ==> !more[k].CreateTask?) && Orphaned(Run(steps + [CreateTask(true)] + more))
  {
    var created := steps + [CreateTask(true)];
    Extend(steps, CreateTask(true));
    if Run(steps).finishing > 0 {
      Extend(created, ForgetTask);
      hide Run;
      assert Orphaned(Run(created + [ForgetTask]));
    } else {
      hide Run;
      forall more: seq<Step> | forall k :: 0 <= k < |more| ==> !more[k].CreateTask?
        ensures !Orphaned(Run(created + more))
      {
        OverlapStays(created, more);
        RunKeepsInv(created + more);
      }
    }
  }

  /** And the board can get there: a run ends, and the next job is created before the handle is cleared. */
  lemma HandleCanBeLost()
    ensures exists steps :: Orphaned(Run(steps))
  {
    hide Run;
    var steps := ToRunning();
    Extend(steps, RunEnds);
    steps := steps + [RunEnds];
    Extend(steps, ClearMarker(true, true));
    steps := steps + [ClearMarker(true, true)];
    Extend(steps, Complete(false, true));
    steps := steps + [Complete(false, true)];
    steps := ToReady(steps);
    steps := ToCreated(steps);
    Extend(steps, ForgetTask);
    steps := steps + [ForgetTask];
    assert Orphaned(Run(steps));
  }
}
