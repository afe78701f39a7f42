/**
 What a stop raised before the executor's first call decides. Every schedule has a calm run, so a run
 can be completed exactly when the flags are clear at its start; a stop that was accepted before the
 run cleared the flag is therefore lost.
 */
module StopRace {
  import opened Bytes
  import opened Schedule
  import opened ExecutionTrace
  import opened ExecutionLaws
  import opened Executor
  import opened HidLink

  // ---- A run in which nothing goes wrong ------------------------------------------------------

  function CalmWait(delayUs: u32): seq<Event> {
    if delayUs == 0 then [] else [Poll(false), Clock(0), Wait(delayUs, true), Clock(0)]
  }

  function CalmPress(r: Record): seq<Event> {
    [Poll(false)] + CalmWait(r.waitBefore) + [Poll(false)] + [KeyDown(r.modifier, r.keycode, true)]
  }

  function CalmLift(r: Record, k: nat, n: nat): seq<Event> {
    [Release(true)] + [Progress(r.sourceIndex, k, n)] + [Poll(false)]
  }

  function CalmRecord(r: Record, k: nat, n: nat): seq<Event> {
    CalmPress(r) + CalmWait(r.hold) + CalmLift(r, k, n) + CalmWait(r.waitAfter)
  }

  function CalmPrefix(rs: seq<Record>, i: nat): seq<Event>
    requires i <= |rs|
  {
    if i == 0 then [] else CalmPrefix(rs, i - 1) + CalmRecord(rs[i - 1], i, |rs|)
  }

  function CalmRun(rs: seq<Record>): seq<Event> {
    CalmPrefix(rs, |rs|) + [Release(true)] + [Terminal(TERMINAL_COMPLETED, EXECUTOR_OK, OK)]
  }

  lemma CalmWaitIsClean(t: seq<Event>, body: seq<Event>, delayUs: u32)
    requires Clean(t, body)
    ensures Clean(t + CalmWait(delayUs), body + WaitCalls(delayUs))
  {
    hide Clean;
    if delayUs == 0 {
      assert t + [] == t && body + [] == body;
    } else {
      CleanObservation(t, body, Poll(false));
      CleanObservation(t + [Poll(false)], body, Clock(0));
      var u := t + [Poll(false)] + [Clock(0)];
      CleanWait(u, body, 0, delayUs, 0);
      assert t + CalmWait(delayUs) == u + [Wait(delayUs, true)] + [Clock(0)];
    }
  }

  lemma CalmPressIsClean(t: seq<Event>, body: seq<Event>, r: Record)
    requires Clean(t, body)
    ensures Clean(t + CalmPress(r), body + UpToKeyDown(r))
  {
    hide Clean, CalmWait, WaitCalls;
    CleanObservation(t, body, Poll(false));
    CalmWaitIsClean(t + [Poll(false)], body, r.waitBefore);
    var u, c := t + [Poll(false)] + CalmWait(r.waitBefore), body + WaitCalls(r.waitBefore);
    CleanObservation(u, c, Poll(false));
    CleanAction(u + [Poll(false)], c, KeyDown(r.modifier, r.keycode, true));
    assert t + CalmPress(r) == u + [Poll(false)] + [KeyDown(r.modifier, r.keycode, true)];
    assert body + UpToKeyDown(r) == c + [KeyDown(r.modifier, r.keycode, true)];
  }

  lemma CalmLiftIsClean(t: seq<Event>, body: seq<Event>, r: Record, k: nat, n: nat)
    requires Clean(t, body)
    ensures Clean(t + CalmLift(r, k, n), body + [Release(true), Progress(r.sourceIndex, k, n)])
  {
    hide Clean;
    CleanAction(t, body, Release(true));
    CleanProgress(t + [Release(true)], body + [Release(true)], Progress(r.sourceIndex, k, n), false);
    assert t + CalmLift(r, k, n) == t + [Release(true)] + [Progress(r.sourceIndex, k, n)] + [Poll(false)];
    assert body + [Release(true), Progress(r.sourceIndex, k, n)] == body + [Release(true)]
      + [Progress(r.sourceIndex, k, n)];
  }

  lemma CalmRecordIsClean(t: seq<Event>, c: seq<Event>, r: Record, k: nat, n: nat)
    requires Clean(t, c)
    ensures Clean(t + CalmRecord(r, k, n), c + RecordCalls(r, k, n))
  {
    hide Clean, CalmPress, CalmWait, CalmLift, WaitCalls;
    CalmPressIsClean(t, c, r);
    var t1, c1 := t + CalmPress(r), c + UpToKeyDown(r);
    CalmWaitIsClean(t1, c1, r.hold);
    var t2, c2 := t1 + CalmWait(r.hold), c1 + WaitCalls(r.hold);
    CalmLiftIsClean(t2, c2, r, k, n);
    var t3, c3 := t2 + CalmLift(r, k, n), c2 + [Release(true), Progress(r.sourceIndex, k, n)];
    CalmWaitIsClean(t3, c3, r.waitAfter);
    assert t3 + CalmWait(r.waitAfter) == t + CalmRecord(r, k, n);
    assert c3 + WaitCalls(r.waitAfter) == c + RecordCalls(r, k, n);
  }

  lemma {:induction false} CalmPrefixIsClean(rs: seq<Record>, i: nat)
    requires i <= |rs|
    ensures Clean(CalmPrefix(rs, i), PerfectPrefix(rs, i))
  {
    if i == 0 {
      NothingYet(rs);
    } else {
      CalmPrefixIsClean(rs, i - 1);
      CalmRecordIsClean(CalmPrefix(rs, i - 1), PerfectPrefix(rs, i - 1), rs[i - 1], i, |rs|);
      hide Clean, CalmRecord, RecordCalls;
    }
  }

  /** Every schedule can be typed in full. */
  lemma CalmRunCompletes(rs: seq<Record>)
    ensures Outcome(CalmRun(rs), rs, EXECUTOR_OK)
  {
    hide Clean, Stalled, Ended, Outcome, Follows, PerfectRun;
    var t := CalmPrefix(rs, |rs|);
    CalmPrefixIsClean(rs, |rs|);
    CleanIsStalled(t, PerfectPrefix(rs, |rs|));
    WholeRun(rs);
    EndOfRun(t, PerfectRun(rs), EXECUTOR_OK, true, TERMINAL_COMPLETED, EXECUTOR_OK, OK);
    OutcomeOf(CalmRun(rs), PerfectRun(rs), true, TERMINAL_COMPLETED, EXECUTOR_OK, OK, rs);
  }

  // ---- What the flags at the start decide ----------------------------------------------------

  lemma {:induction false} UntilAll(hs: seq<Happening>, k: nat)
    requires Timed(hs, 0)
    ensures Until(hs, k) == hs
  {}

  lemma {:induction false} CoreIsPart(t: seq<Event>, k: nat) returns (i: nat)
    requires k < |Core(t)|
    ensures i < |t| && t[i] == Core(t)[k]
  {
    var init := t[..|t| - 1];
    if k < |Core(init)| { i := CoreIsPart(init, k); } else { i := |t| - 1; }
  }

  lemma {:induction false} FirstKeyDown(rs: seq<Record>, i: nat) returns (k: nat)
    requires 0 < i <= |rs|
    ensures k < |PerfectPrefix(rs, i)| && PerfectPrefix(rs, i)[k].KeyDown?
  {
    var r := rs[i - 1];
    k := |PerfectPrefix(rs, i - 1)| + |WaitCalls(r.waitBefore)|;
    hide PerfectPrefix, WaitCalls;
    assert RecordCalls(r, i, |rs|)[|WaitCalls(r.waitBefore)|].KeyDown?;
    PrefixEnds(rs, i);
  }

  lemma PrefixEnds(rs: seq<Record>, i: nat)
    requires 0 < i <= |rs|
    ensures PerfectPrefix(rs, i) == PerfectPrefix(rs, i - 1) + RecordCalls(rs[i - 1], i, |rs|)
  {
    hide RecordCalls;
  }

  /** A run that completes was told at least once to go on. */
  lemma CompletedWasPolled(t: seq<Event>, rs: seq<Record>) returns (p: nat)
    requires Outcome(t, rs, EXECUTOR_OK) && rs != []
    ensures p < |t| && t[p] == Poll(false)
  {
    var k := FirstKeyDown(rs, |rs|);
    hide Core, Follows, PerfectPrefix, Explained, QuietAfterStop;
    assert Core(t)[k].KeyDown?;
    var i := CoreIsPart(t, k);
    assert FitsAt(t, i);
    p := i - 1;
  }

  /**
   Of everything that happened before the executor's first call, and with nothing after it, only the
   flags count: a run that completes is possible if and only if no stop stands and the link is up.
   */
  lemma {:induction false} StartFlagsDecide(rs: seq<Record>, f: Flags, hs: seq<Happening>)
    requires rs != [] && Timed(hs, 0)
    ensures !StopSeen(After(f, hs)) <==> exists t :: Outcome(t, rs, EXECUTOR_OK) && PollsTell(t, f, hs)
  {
    hide Outcome, After, StopSeen, Timed;
    if !StopSeen(After(f, hs)) {
      var t := CalmRun(rs);
      CalmRunCompletes(rs);
      SuccessMeansNoStop(t, rs);
      forall k | 0 <= k < |t| && t[k].Poll? ensures t[k].stop == StopSeen(After(f, Until(hs, k))) {
        UntilAll(hs, k);
      }
      assert PollsTell(t, f, hs);
    }
    if t :| Outcome(t, rs, EXECUTOR_OK) && PollsTell(t, f, hs) {
      var p := CompletedWasPolled(t, rs);
      UntilAll(hs, p);
    }
  }

  lemma SuccessMeansNoStop(t: seq<Event>, rs: seq<Record>)
    requires Outcome(t, rs, EXECUTOR_OK)
    ensures forall k :: 0 <= k < |t| && t[k].Poll? ==> !t[k].stop
  {
    hide Core, Follows, PerfectRun, Paced, Reported;
  }

  lemma SuccessMeansGranted(t: seq<Event>, rs: seq<Record>)
    requires Outcome(t, rs, EXECUTOR_OK)
    ensures forall i :: 0 <= i < |t| && t[i].Wait? ==> t[i].ok
  {
    hide Core, Follows, PerfectRun, Paced, Reported;
  }

  /** A stop accepted before the run clears the flag, on an idle link with a host. */
  const LOST_STOP: seq<Happening> := [Happening(0, StopAsked), Happening(0, OwnBegin)]
  const IDLE_LINK := Flags(true, false, false, 0)

  /** It is lost: whatever the schedule, a run can go on to type all of it. */
  lemma {:induction false} StopCanBeLost(rs: seq<Record>)
    requires rs != []
    ensures Possible(IDLE_LINK, LOST_STOP)
    ensures exists t :: Outcome(t, rs, EXECUTOR_OK) && Heeding(t, IDLE_LINK, LOST_STOP)
  {
    LostStopFlags();
    hide Outcome, PollsTell, After, StopSeen, Possible;
    StartFlagsDecide(rs, IDLE_LINK, LOST_STOP);
    var t :| Outcome(t, rs, EXECUTOR_OK) && PollsTell(t, IDLE_LINK, LOST_STOP);
    OutcomeIsPaced(t, rs, EXECUTOR_OK);
    assert Heeding(t, IDLE_LINK, LOST_STOP);
  }

  lemma OutcomeIsPaced(t: seq<Event>, rs: seq<Record>, error: ExecutorError)
    requires Outcome(t, rs, error)
    ensures Paced(t)
  {
    hide Paced, Core, Follows, PerfectRun, Reported, Explained;
  }

  lemma {:induction false} LostStopFlags()
    ensures Possible(IDLE_LINK, LOST_STOP) && !StopSeen(After(IDLE_LINK, LOST_STOP)) && Timed(LOST_STOP, 0)
  {
    NothingHappened(IDLE_LINK);
    hide After, Possible;
    var asked, begun := Happening(0, StopAsked), Happening(0, OwnBegin);
    Logging(IDLE_LINK, [], asked);
    Logging(IDLE_LINK, [] + [asked], begun);
    assert LOST_STOP == [] + [asked] + [begun];
  }

  lemma {:induction false} NothingHappened(f: Flags)
    ensures After(f, []) == f && Possible(f, [])
  {}
}
