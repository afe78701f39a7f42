/**
 One execution of a job as the board remembers it, and what the laws of the executor, the link and the
 tick waits mean for it.
 */
module JobRuns {
  import opened Bytes
  import opened ExecutionTrace
  import opened ExecutionLaws
  import opened Upload
  import opened HidLink
  import ExecutionSafety
  import Schedule
  import ScheduleCodec
  import Fips180
  import TickWait
  import StopRace

  /** What the client announced when it began the upload. */
  datatype Announcement = Announcement(jobId: seq<byte>, size: u32, sha256: seq<byte>)

  const COUNTDOWN_SECONDS: nat := 8

  /** What happened on the link from the acceptance of a start to the end of its run, and what was slept. */
  datatype LinkLog = LinkLog(start: Flags, happenings: seq<Happening>, naps: seq<Nap>)

  /**
   One execution of a job: what was announced and what was staged; the life of the safety machine when
   the start was judged; the executor's record with the ticks slept in each of its calls, the link's log
   and the frame around the executor; whether a stop was accepted before the link was given back; whether
   the crash marker was cleared; and how it ended.
   */
  datatype JobRun = JobRun(announced: Announcement, file: seq<byte>, safety: seq<ExecutionSafety.Event>,
                           trace: seq<Event>, slept: seq<nat>, log: LinkLog, moments: seq<Moment>,
                           stopping: bool, cleared: bool,
                           hidResult: ExecutorError, result: ExecutorError, status: Status)

  /** The keys a record pressed. */
  function Typing(t: seq<Event>): seq<Key> { Pressed(Core(t)) }

  ghost predicate Noted(log: LinkLog, e: LinkEvent) {
    exists j :: 0 <= j < |log.happenings| && log.happenings[j].what == e
  }

  function Seconds(n: nat): (s: seq<Moment>)
    ensures |s| == n
  {
    if n == 0 then [] else Seconds(n - 1) + [Second]
  }

  /** A confirmed release and n whole seconds. */
  function Opening(n: nat): (s: seq<Moment>)
    ensures |s| == n + 1
  {
    [Lift(true)] + Seconds(n)
  }

  /**
   The ways a run with n seconds of countdown can go: not begun, for want of a free link; the first
   release refused; the countdown broken, and then a release; or the whole countdown, the executor, and
   a release whose refusal overrides the executor's result.
   */
  ghost predicate Framed(moments: seq<Moment>, n: nat, result: ExecutorError) {
    || (exists known: nat :: moments == [NotFree(known)] && result == WAIT_FAILED)
    || (moments == [Lift(false)] && result == RELEASE_FAILED)
    || (exists k: nat, known: nat, ok: bool ::
          k < n && moments == Opening(k) + [Broken(known), Lift(ok)] && result in {EXECUTOR_STOPPED, WAIT_FAILED})
    || (exists r: ExecutorError, ok: bool ::
          moments == Opening(n) + [Told, Typed(r), Lift(ok)] && result == if ok then r else RELEASE_FAILED)
  }

  /**
   The log gives the reasons: a link not free was down or taken; when a second was broken there was a stop
   to be seen, and the result says whether it was the stop flag or only the lost link.
   */
  predicate ReasonAt(m: Moment, f: Flags, hs: seq<Happening>, result: ExecutorError) {
    match m
    case NotFree(known) => known <= |hs| && (!After(f, hs[..known]).connected || After(f, hs[..known]).running)
    case Broken(known) =>
      && known <= |hs| && StopSeen(After(f, hs[..known]))
      && (result == EXECUTOR_STOPPED <==> After(f, hs[..known]).stopRequested)
    case _ => true
  }

  predicate Reasoned(moments: seq<Moment>, f: Flags, hs: seq<Happening>, result: ExecutorError) {
    forall i :: 0 <= i < |moments| ==> ReasonAt(moments[i], f, hs, result)
  }

  lemma {:induction false} ReasonedLater(moments: seq<Moment>, f: Flags, hs: seq<Happening>, more: seq<Happening>,
                                         result: ExecutorError)
    requires Reasoned(moments, f, hs, result) && hs <= more
    ensures Reasoned(moments, f, more, result)
  {
    hide After, StopSeen;
    forall i | 0 <= i < |moments| ensures ReasonAt(moments[i], f, more, result) {
      assert ReasonAt(moments[i], f, hs, result);
      match moments[i]
      case NotFree(known) => assert more[..known] == hs[..known];
      case Broken(known) => assert more[..known] == hs[..known];
      case _ =>
    }
  }

  lemma {:induction false} NoReasons(n: nat, f: Flags, hs: seq<Happening>, result: ExecutorError, tail: seq<Moment>)
    requires forall i :: 0 <= i < |tail| ==> ReasonAt(tail[i], f, hs, result)
    ensures Reasoned(Opening(n) + tail, f, hs, result)
  {
    var moments := Opening(n) + tail;
    forall i | 0 <= i < |moments| ensures ReasonAt(moments[i], f, hs, result) {
      if 0 < i <= n { OnlySeconds(n, i - 1); }
    }
  }

  /** The flags when the link has been given back: a run that was refused its first release leaves a stop standing. */
  function GivenBack(f: Flags, moments: seq<Moment>): Flags {
    if moments == [] || moments[0].NotFree? then f
    else f.(running := false, stopRequested := f.stopRequested && moments[0] == Lift(false))
  }

  lemma FrameNotBegun(n: nat, known: nat)
    ensures Framed([NotFree(known)], n, WAIT_FAILED)
    ensures Framed([Lift(false)], n, RELEASE_FAILED)
  {}

  lemma FrameWhole(n: nat, result: ExecutorError, ok: bool)
    ensures var moments := Opening(n) + [Told, Typed(result), Lift(ok)];
      && Framed(moments, n, if ok then result else RELEASE_FAILED)
      && Ran(moments, n) && moments[0] == Lift(true) && moments[n + 2] == Typed(result)
  {
    hide Seconds;
  }

  lemma {:induction false} OnlySeconds(n: nat, i: nat)
    requires i < n
    ensures Seconds(n)[i] == Second
  {
    if i < n - 1 { OnlySeconds(n - 1, i); }
  }

  /** The executor starts after a confirmed release and the whole countdown, and a release comes after it. */
  lemma TypedInFrame(moments: seq<Moment>, n: nat, result: ExecutorError, i: nat)
    requires Framed(moments, n, result) && i < |moments| && moments[i].Typed?
    ensures i == n + 2 && |moments| == n + 4
    ensures moments[0] == Lift(true) && moments[n + 1] == Told && moments[n + 3].Lift?
    ensures forall j :: 0 < j <= n ==> moments[j] == Second
  {
    hide Seconds;
    if k: nat, known: nat, ok: bool :| k < n && moments == Opening(k) + [Broken(known), Lift(ok)] {
      if 0 < i <= k { OnlySeconds(k, i - 1); }
      assert false;
    }
    forall j | 0 < j <= n ensures moments[j] == Second {
      OnlySeconds(n, j - 1);
      assert moments[j] == Seconds(n)[j - 1];
    }
  }

  /** A run that took the link ends with a release. */
  lemma FrameEndsLifting(moments: seq<Moment>, n: nat, result: ExecutorError)
    requires Framed(moments, n, result)
    ensures moments != [] && (moments[|moments| - 1].Lift? <==> !moments[0].NotFree?)
  {
    hide Seconds;
  }

  ghost predicate Accepted(file: seq<byte>) { ScheduleCodec.Conforms(file, Schedule.CAM_LIMITS) }

  lemma AcceptedShape(file: seq<byte>)
    requires Accepted(file)
    ensures |file| >= Schedule.HEADER_BYTES
    ensures |file| == Schedule.HEADER_BYTES
      + Schedule.RECORD_BYTES * Schedule.HeaderFields(file[..Schedule.HEADER_BYTES]).actionCount as nat
  {
    hide Schedule.Decide, Schedule.HeaderFields, Schedule.ValidSchedule, Schedule.Encode, ScheduleCodec.Conforms;
    ScheduleCodec.DecisionIsConformance(file, Schedule.CAM_LIMITS);
    ScheduleCodec.AcceptedIsEncoding(file, Schedule.CAM_LIMITS);
  }

  /** The records of an accepted file, the keys they spell, and the duration its header declares. */
  ghost function Asked(file: seq<byte>): seq<Schedule.Record>
    requires Accepted(file)
  {
    AcceptedShape(file);
    ScheduleCodec.RecordsIn(file)
  }

  ghost function Spelled(file: seq<byte>): seq<Key>
    requires Accepted(file)
  {
    KeysOf(Asked(file))
  }

  ghost function DeclaredUs(file: seq<byte>): nat
    requires Accepted(file)
  {
    AcceptedShape(file);
    Schedule.HeaderFields(file[..Schedule.HEADER_BYTES]).durationUs as nat
  }

  lemma DeclaredIsTotal(file: seq<byte>)
    requires Accepted(file)
    ensures Schedule.TotalUs(Asked(file)) == DeclaredUs(file) && |Asked(file)| >= 3
  {
    AcceptedShape(file);
    ScheduleCodec.DecisionIsConformance(file, Schedule.CAM_LIMITS);
    ScheduleCodec.AcceptedIsEncoding(file, Schedule.CAM_LIMITS);
    hide Schedule.Decide, Schedule.HeaderFields, Schedule.Encode, ScheduleCodec.Conforms, Schedule.TotalUs;
  }

  /**
   An executor run over an accepted file that reports success asked to wait exactly the microseconds
   the file declares, and waited at least as long in ticks, by less than three ticks a record.
   */
  lemma {:induction false} DeclaredTime(file: seq<byte>, t: seq<Event>)
    requires Accepted(file) && Outcome(t, Asked(file), EXECUTOR_OK)
    ensures Waited(Core(t)) == DeclaredUs(file)
    ensures DeclaredUs(file) <= 1000 * TickWait.Ticks(Core(t)) < DeclaredUs(file) + 1000 * (3 * |Asked(file)|)
  {
    hide Outcome, Accepted, Asked, DeclaredUs, Core, Waited, Schedule.TotalUs, TickWait.Ticks;
    DeclaredIsTotal(file);
    SuccessIsComplete(t, Asked(file));
    TickWait.CompletedRunTime(t, Asked(file));
  }

  // ---- What a run leaves behind ---------------------------------------------------------------

  /** The executor ran, after a release and the whole countdown. */
  predicate Ran(moments: seq<Moment>, n: nat) { |moments| == n + 4 && moments[n + 2].Typed? }

  /** The executor ran exactly if the frame says so, and what it recorded is an outcome over the records. */
  ghost predicate Recorded(t: seq<Event>, moments: seq<Moment>, n: nat, rs: seq<Schedule.Record>) {
    if Ran(moments, n) then Outcome(t, rs, moments[n + 2].result) else t == []
  }

  lemma NotRecorded(n: nat, known: nat, rs: seq<Schedule.Record>)
    ensures Recorded([], [Lift(false)], n, rs) && Recorded([], [NotFree(known)], n, rs)
    ensures !Ran([Lift(false)], n) && !Ran([NotFree(known)], n)
  {}

  lemma FrameBroken(k: nat, n: nat, known: nat, ok: bool, rs: seq<Schedule.Record>)
    requires k < n
    ensures Recorded([], Opening(k) + [Broken(known), Lift(ok)], n, rs)
    ensures !Ran(Opening(k) + [Broken(known), Lift(ok)], n)
  {
    hide Opening;
  }

  lemma FrameResult(moments: seq<Moment>, n: nat, result: ExecutorError)
    requires Framed(moments, n, result) && result == EXECUTOR_OK
    ensures |moments| == n + 4 && moments[n + 2] == Typed(EXECUTOR_OK)
  {
    hide Opening;
  }

  lemma {:induction false} OutcomeKeys(t: seq<Event>, rs: seq<Schedule.Record>, error: ExecutorError)
    requires Outcome(t, rs, error)
    ensures Paced(t) && Typing(t) <= KeysOf(rs) && (error == EXECUTOR_OK ==> Typing(t) == KeysOf(rs))
  {
    hide Outcome, Pressed, Core, KeysOf, Waited, Reports, InOrder, Paced, Schedule.TotalUs;
    RunKeepsOrder(t, rs, error);
    StopRace.OutcomeIsPaced(t, rs, error);
    if error == EXECUTOR_OK { SuccessIsComplete(t, rs); }
  }

  /** What a framed and recorded run typed: a beginning of the keys, all of them on success, none outside its frame. */
  lemma {:induction false} RecordedKeys(t: seq<Event>, moments: seq<Moment>, n: nat, result: ExecutorError,
                                        rs: seq<Schedule.Record>)
    requires Framed(moments, n, result) && Recorded(t, moments, n, rs)
    ensures Paced(t) && Typing(t) <= KeysOf(rs) && (result == EXECUTOR_OK ==> Typing(t) == KeysOf(rs))
    ensures Typing(t) != [] ==> Ran(moments, n)
  {
    if result == EXECUTOR_OK { FrameResult(moments, n, result); }
    NothingTyped(KeysOf(rs));
    hide Framed, Outcome, Typing, Paced, KeysOf;
    if Ran(moments, n) { OutcomeKeys(t, rs, moments[n + 2].result); }
  }

  lemma NothingTyped(keys: seq<Key>)
    ensures Typing([]) == [] <= keys && Paced([])
  {}

  function StatusAfter(result: ExecutorError): Status {
    if result == EXECUTOR_OK then COMPLETED else if result == EXECUTOR_STOPPED then STOPPED else ERROR
  }

  /** The file is the announced one and accepted, and what was typed is a beginning of it, or all of it. */
  ghost predicate TypedItsFile(run: JobRun) {
    && |run.file| == run.announced.size as nat
    && Fips180.Sha256(run.file) == run.announced.sha256
    && Accepted(run.file)
    && Typing(run.trace) <= Spelled(run.file)
    && (run.result == EXECUTOR_OK ==> Typing(run.trace) == Spelled(run.file))
  }

  /**
   Anything was typed after the whole countdown only; the executor's record, if it ran, is an outcome over
   the file's records. A marker that was not cleared is the one thing that changes the result of the run,
   and the job's status is that of the result, whether or not a stop was accepted.
   */
  ghost predicate KeptItsFrame(run: JobRun)
    requires Accepted(run.file)
  {
    && Framed(run.moments, COUNTDOWN_SECONDS, run.hidResult)
    && Reasoned(run.moments, run.log.start, run.log.happenings, run.hidResult)
    && Recorded(run.trace, run.moments, COUNTDOWN_SECONDS, Asked(run.file))
    && (Typing(run.trace) != [] ==> Ran(run.moments, COUNTDOWN_SECONDS))
    && run.result == (if run.cleared then run.hidResult else WAIT_FAILED)
    && run.status == StatusAfter(run.result)
  }

  /** Polls told the run what the link's log says; an accepted stop is on that log, and so is the run's own begin. */
  ghost predicate HeededItsLink(run: JobRun) {
    && Heeding(run.trace, run.log.start, run.log.happenings)
    && (run.trace != [] ==> Noted(run.log, OwnBegin))
    && (run.stopping ==> Noted(run.log, StopAsked))
  }

  /**
   The run slept in slices of one to ten ticks, none begun while a stop was to be seen; each granted wait
   took its microseconds rounded up to ticks; and where the executor ran, nothing was slept but the eight
   seconds of the countdown and the executor's waits.
   */
  ghost predicate SleptWell(run: JobRun) {
    && Alert(run.log.start, run.log.happenings, run.log.naps)
    && TickWait.Measured(run.trace, run.slept)
    && (Ran(run.moments, COUNTDOWN_SECONDS) ==> Slept(run.log.naps) == 1000 * COUNTDOWN_SECONDS + Sum(run.slept))
  }

  ghost predicate Faithful(run: JobRun) {
    && TypedItsFile(run) && KeptItsFrame(run) && HeededItsLink(run) && SleptWell(run)
    && ExecutionSafety.Ready(ExecutionSafety.Run(run.safety))
  }

  /**
   Behind every run stands a connection that was authenticated and whose keys were confirmed released:
   the latest link event, its latest authentication, and the release begun and completed for it.
   */
  lemma RunHasSafetyHistory(run: JobRun)
    requires Faithful(run)
    ensures exists c: nat, a: nat, b: nat, d: nat :: ExecutionSafety.ConfirmedHistory(run.safety, c, a, b, d)
  {
    hide *;
    FaithfulIsReady(run);
    ExecutionSafety.ReadyHasHistory(run.safety);
  }

  /**
   A run that reports success asked to wait exactly the microseconds its file declares, and the ticks it
   slept in its waits are at least that long, by less than three ticks a record; with the countdown's
   eight seconds they are all the ticks it slept.
   */
  lemma {:induction false} RunTakesDeclaredTime(run: JobRun)
    requires Faithful(run) && run.result == EXECUTOR_OK
    ensures Outcome(run.trace, Asked(run.file), EXECUTOR_OK)
    ensures Waited(Core(run.trace)) == DeclaredUs(run.file)
    ensures var ticks := 1000 * Sum(run.slept);
      DeclaredUs(run.file) <= ticks < DeclaredUs(run.file) + 1000 * (3 * |Asked(run.file)|)
    ensures Slept(run.log.naps) == 8000 + Sum(run.slept)
  {
    FaithfulIsFramed(run);
    FaithfulSleeps(run);
    FrameResult(run.moments, COUNTDOWN_SECONDS, run.hidResult);
    hide Faithful, Framed, Accepted, Asked, DeclaredUs, Core, Waited, TickWait.Ticks, TickWait.Measured, Sum, Slept,
      Alert, Follows, PerfectRun;
    DeclaredTime(run.file, run.trace);
    StopRace.SuccessMeansGranted(run.trace, Asked(run.file));
    TickWait.SleptIsTicks(run.trace, run.slept);
  }

  lemma FaithfulSleeps(run: JobRun)
    requires Faithful(run)
    ensures SleptWell(run)
  {
    hide TypedItsFile, KeptItsFrame, HeededItsLink, SleptWell;
  }

  /**
   In every run, whatever its end: between two key-downs a release was confirmed, progress counts up,
   each report right after a confirmed release, and a terminal report was made once, at the end.
   */
  lemma RunIsOrderly(run: JobRun, i: nat, j: nat)
    requires Faithful(run)
    ensures var c := Core(run.trace);
      && (i < j < |c| && c[i].KeyDown? && c[j].KeyDown? ==> exists k :: i < k < j && c[k] == Release(true))
      && (i < |c| && c[i].Progress? ==>
            && c[i].completed == Reports(c[..i + 1]) && c[i].total == |Asked(run.file)|
            && i > 0 && c[i - 1] == Release(true))
      && (i < |run.trace| ==> (run.trace[i].Terminal? <==> i == |run.trace| - 1))
  {
    FaithfulIsFramed(run);
    hide Faithful, Framed, Accepted, Asked, Reports;
    var t, rs, c := run.trace, Asked(run.file), Core(run.trace);
    NothingRecorded();
    if t != [] {
      var r := run.moments[COUNTDOWN_SECONDS + 2].result;
      hide Recorded, Outcome, Core;
      OutcomeIsOrderly(t, rs, r, i, j);
    }
  }

  lemma NothingRecorded()
    ensures Core([]) == []
  {}

  lemma {:induction false} OutcomeIsOrderly(t: seq<Event>, rs: seq<Schedule.Record>, error: ExecutorError,
                                            i: nat, j: nat)
    requires Outcome(t, rs, error)
    ensures var c := Core(t);
      && (i < j < |c| && c[i].KeyDown? && c[j].KeyDown? ==> exists k :: i < k < j && c[k] == Release(true))
      && (i < |c| && c[i].Progress? ==>
            c[i].completed == Reports(c[..i + 1]) && c[i].total == |rs| && i > 0 && c[i - 1] == Release(true))
      && (i < |t| ==> (t[i].Terminal? <==> i == |t| - 1))
  {
    hide Outcome, Core, InOrder, Reports, Pressed, Waited, KeysOf, Schedule.TotalUs;
    var c := Core(t);
    RunKeepsOrder(t, rs, error);
    if i < j < |c| && c[i].KeyDown? && c[j].KeyDown? { ReleasedBetween(c, |rs|, i, j); }
    if i < |c| && c[i].Progress? { ProgressCounts(c, |rs|, i); }
    if i < |t| { OneTerminalReport(t, rs, error, i); }
  }

  lemma FaithfulIsFramed(run: JobRun)
    requires Faithful(run)
    ensures Accepted(run.file) && Framed(run.moments, COUNTDOWN_SECONDS, run.hidResult)
    ensures Recorded(run.trace, run.moments, COUNTDOWN_SECONDS, Asked(run.file))
    ensures run.result in {run.hidResult, WAIT_FAILED}
  {
    hide Framed, Recorded, Accepted, Asked, Typing, SleptWell, HeededItsLink, Reasoned;
  }

  lemma FaithfulIsReady(run: JobRun)
    requires Faithful(run)
    ensures ExecutionSafety.Ready(ExecutionSafety.Run(run.safety))
  {
    hide TypedItsFile, KeptItsFrame, HeededItsLink, SleptWell;
  }

  lemma FaithfulHeeds(run: JobRun)
    requires Faithful(run)
    ensures Heeding(run.trace, run.log.start, run.log.happenings)
  {
    hide Heeding, TypedItsFile, KeptItsFrame, SleptWell;
  }

  /** At most one key-down or wait of the run begins after that moment. */
  ghost predicate Halted(run: JobRun, moment: nat) {
    forall a, c :: moment <= a < c < |run.trace| && IsMove(run.trace[a]) ==> !IsMove(run.trace[c])
  }

  /** No slice was begun after the log was so long, and a slice has ten ticks at most. */
  ghost predicate NoMoreSlices(run: JobRun, known: nat) {
    forall k :: 0 <= k < |run.log.naps| ==> run.log.naps[k].known <= known && run.log.naps[k].ticks <= LONGEST_NAP
  }

  /**
   A stop, or a lost link, is obeyed if and as long as no run begins or ends on the link after it: at
   most one key-down or wait begins after it, and no slice of sleep does, so that no more is slept than
   what is left of the one slice the stop may fall into.
   */
  lemma StandingStopHalts(run: JobRun, j: nat)
    requires Faithful(run) && Standing(run.log.happenings, j)
    ensures Halted(run, run.log.happenings[j].at) && NoMoreSlices(run, j)
  {
    FaithfulHeeds(run);
    FaithfulSleeps(run);
    hide Heeding, Faithful, Alert, Standing, TickWait.Measured;
    StopIsHeeded(run.trace, run.log.start, run.log.happenings, j);
    forall k | 0 <= k < |run.log.naps| ensures run.log.naps[k].known <= j && run.log.naps[k].ticks <= LONGEST_NAP {
      NapsBeforeStop(run.log.start, run.log.happenings, run.log.naps, j, k);
    }
  }

  /** A stop asked for after the run took the link is obeyed, if the run had the link alone and kept it. */
  lemma StopInRunHalts(run: JobRun, b: nat, j: nat)
    requires Faithful(run) && b < j < |run.log.happenings|
    requires run.log.happenings[b].what == OwnBegin && run.log.happenings[j].what == StopAsked
    requires After(run.log.start, run.log.happenings[..b]).others == 0
    requires forall i :: b < i < |run.log.happenings| ==> run.log.happenings[i].what != LinkLost
    ensures Halted(run, run.log.happenings[j].at) && NoMoreSlices(run, j)
  {
    FaithfulIsPossible(run);
    hide *;
    StopStands(run.log.start, run.log.happenings, b, j);
    StandingStopHalts(run, j);
  }

  lemma {:induction false} StopStands(f: Flags, hs: seq<Happening>, b: nat, j: nat)
    requires Possible(f, hs) && b < j < |hs| && hs[b].what == OwnBegin && hs[j].what == StopAsked
    requires After(f, hs[..b]).others == 0 && forall i :: b < i < |hs| ==> hs[i].what != LinkLost
    ensures Standing(hs, j)
  {
    hide After, Possible, Clears;
    NoClearsWithoutLoss(f, hs, b);
  }

  lemma FaithfulIsPossible(run: JobRun)
    requires Faithful(run)
    ensures Possible(run.log.start, run.log.happenings)
  {
    FaithfulHeeds(run);
    hide Faithful, Paced, PollsTell, Timed, Possible;
  }

  lemma FaithfulParts(run: JobRun)
    requires |run.file| == run.announced.size as nat && Fips180.Sha256(run.file) == run.announced.sha256
    requires Accepted(run.file)
    requires Typing(run.trace) <= Spelled(run.file)
    requires (run.result == EXECUTOR_OK ==> Typing(run.trace) == Spelled(run.file))
    requires KeptItsFrame(run) && HeededItsLink(run) && SleptWell(run)
    requires ExecutionSafety.Ready(ExecutionSafety.Run(run.safety))
    ensures Faithful(run)
  {
    hide KeptItsFrame, HeededItsLink, SleptWell, Typing, Spelled, Accepted, Fips180.Sha256, ExecutionSafety.Run;
  }
}
