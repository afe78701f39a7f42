/** What the outcome of a run means for keys, releases, progress, stopping and time. */
module ExecutionLaws {
  import opened Bytes
  import opened Schedule
  import opened ExecutionTrace
  import opened HidLink

  /** A key stroke: HID modifier and keycode. */
  datatype Key = Key(modifier: byte, keycode: byte)

  function KeyOf(r: Record): Key { Key(r.modifier, r.keycode) }

  function KeysOf(rs: seq<Record>): (keys: seq<Key>)
    ensures |keys| == |rs|
  {
    if rs == [] then [] else KeysOf(rs[..|rs| - 1]) + [KeyOf(rs[|rs| - 1])]
  }

  /** The keys a run tried to press, in order. */
  function Pressed(c: seq<Event>): seq<Key> {
    if c == [] then []
    else Pressed(c[..|c| - 1]) + (var e := c[|c| - 1]; if e.KeyDown? then [Key(e.modifier, e.keycode)] else [])
  }

  /** The time a run asked to wait. */
  function Waited(c: seq<Event>): nat {
    if c == [] then 0 else Waited(c[..|c| - 1]) + (var e := c[|c| - 1]; if e.Wait? then e.delayUs as nat else 0)
  }

  /** The progress reports a run made. */
  function Reports(c: seq<Event>): nat {
    if c == [] then 0 else Reports(c[..|c| - 1]) + (if c[|c| - 1].Progress? then 1 else 0)
  }

  /** A key went down and no release has been confirmed since. */
  function Held(c: seq<Event>): bool {
    if c == [] then false
    else
      var e := c[|c| - 1];
      if e.KeyDown? then true else if e == Release(true) then false else Held(c[..|c| - 1])
  }

  predicate StepInOrder(c: seq<Event>, e: Event, n: nat) {
    && (e.KeyDown? ==> !Held(c))
    && (e.Progress? ==> e.completed == Reports(c) + 1 && e.total == n && c != [] && c[|c| - 1] == Release(true))
  }

  /** No key goes down while one is held; reports count 1, 2, 3, ... of n, each right after a confirmed release. */
  predicate InOrder(c: seq<Event>, n: nat) {
    c != [] ==> InOrder(c[..|c| - 1], n) && StepInOrder(c[..|c| - 1], c[|c| - 1], n)
  }

  lemma {:induction false} Append(c: seq<Event>, e: Event, n: nat)
    ensures Pressed(c + [e]) == Pressed(c) + (if e.KeyDown? then [Key(e.modifier, e.keycode)] else [])
    ensures Waited(c + [e]) == Waited(c) + (if e.Wait? then e.delayUs as nat else 0)
    ensures Reports(c + [e]) == Reports(c) + (if e.Progress? then 1 else 0)
    ensures Held(c + [e]) == (if e.KeyDown? then true else if e == Release(true) then false else Held(c))
    ensures InOrder(c + [e], n) <==> InOrder(c, n) && StepInOrder(c, e, n)
  {
    assert (c + [e])[..|c|] == c;
  }

  lemma {:induction false} AppendWait(c: seq<Event>, delayUs: u32, n: nat)
    ensures var d := c + WaitCalls(delayUs);
      && Pressed(d) == Pressed(c) && Waited(d) == Waited(c) + delayUs as nat && Reports(d) == Reports(c)
        && Held(d) == Held(c)
      && (InOrder(d, n) <==> InOrder(c, n))
  {
    hide Pressed, Waited, Reports, Held, InOrder;
    if delayUs == 0 {
      assert c + [] == c;
    } else {
      Append(c, Wait(delayUs, true), n);
      assert Pressed(c) + [] == Pressed(c);
    }
  }

  /** A record without incident presses its key once, releases it, reports once and waits its time. */
  lemma {:induction false} AppendRecord(c: seq<Event>, r: Record, k: nat, n: nat)
    requires InOrder(c, n) && !Held(c) && Reports(c) + 1 == k
    ensures var d := c + RecordCalls(r, k, n);
      && Pressed(d) == Pressed(c) + [KeyOf(r)] && Waited(d) == Waited(c) + RecordUs(r) && Reports(d) == k && !Held(d)
        && InOrder(d, n)
  {
    hide Pressed, Waited, Reports, Held, InOrder, WaitCalls;
    AppendWait(c, r.waitBefore, n);
    var c1 := c + WaitCalls(r.waitBefore);
    Append(c1, KeyDown(r.modifier, r.keycode, true), n);
    var c2 := c1 + [KeyDown(r.modifier, r.keycode, true)];
    AppendWait(c2, r.hold, n);
    var c3 := c2 + WaitCalls(r.hold);
    Append(c3, Release(true), n);
    var c4 := c3 + [Release(true)];
    Append(c4, Progress(r.sourceIndex, k, n), n);
    var c5 := c4 + [Progress(r.sourceIndex, k, n)];
    AppendWait(c5, r.waitAfter, n);
    assert c + RecordCalls(r, k, n) == c5 + WaitCalls(r.waitAfter);
  }

  lemma {:induction false} PerfectPrefixMeaning(rs: seq<Record>, i: nat)
    requires i <= |rs|
    ensures var c := PerfectPrefix(rs, i);
      && Pressed(c) == KeysOf(rs[..i]) && Waited(c) == TotalUs(rs[..i]) && Reports(c) == i && !Held(c)
        && InOrder(c, |rs|)
  {
    hide Pressed, Waited, Reports, Held, InOrder, RecordCalls;
    if i == 0 {
      NothingMeaning(|rs|);
    } else {
      PerfectPrefixMeaning(rs, i - 1);
      AppendRecord(PerfectPrefix(rs, i - 1), rs[i - 1], i, |rs|);
      assert rs[..i][..i - 1] == rs[..i - 1];
    }
  }

  lemma {:induction false} NothingMeaning(n: nat)
    ensures Pressed([]) == [] && Waited([]) == 0 && Reports([]) == 0 && !Held([]) && InOrder([], n)
  {}

  lemma {:induction false} PerfectRunMeaning(rs: seq<Record>)
    ensures var c := PerfectRun(rs);
      && Pressed(c) == KeysOf(rs) && Waited(c) == TotalUs(rs) && Reports(c) == |rs| && !Held(c) && InOrder(c, |rs|)
  {
    hide Pressed, Waited, Reports, Held, InOrder, PerfectPrefix;
    PerfectPrefixMeaning(rs, |rs|);
    assert rs[..|rs|] == rs;
  }

  // ---- Prefixes and refusals ---------------------------------------------------------

  lemma {:induction false} PrefixMeaning(c: seq<Event>, d: seq<Event>, n: nat)
    requires c <= d
    ensures Pressed(c) <= Pressed(d) && Waited(c) <= Waited(d) && Reports(c) <= Reports(d)
    ensures InOrder(d, n) ==> InOrder(c, n)
    decreases |d|
  {
    hide StepInOrder, Held;
    if |c| < |d| {
      var e := d[..|d| - 1];
      assert c == d[..|c|] == e[..|c|];
      PrefixMeaning(c, e, n);
    } else {
      assert c == d;
    }
  }

  /** A refused call is attempted in the same place as the call it stands for. */
  lemma {:induction false} RefusedMeaning(c: seq<Event>, e: Event, n: nat)
    ensures Pressed(c + [Refused(e)]) == Pressed(c + [e]) && Waited(c + [Refused(e)]) == Waited(c + [e])
    ensures Reports(c + [Refused(e)]) == Reports(c + [e])
    ensures InOrder(c + [e], n) ==> InOrder(c + [Refused(e)], n)
  {
    hide Pressed, Waited, Reports, Held, InOrder;
    Append(c, e, n);
    Append(c, Refused(e), n);
  }

  lemma {:induction false} FollowsMeaning(body: seq<Event>, full: seq<Event>, n: nat)
    requires Follows(body, full) && InOrder(full, n)
    ensures InOrder(body, n) && Pressed(body) <= Pressed(full) && Waited(body) <= Waited(full)
    ensures Reports(body) <= Reports(full)
  {
    hide Pressed, Waited, Reports, InOrder;
    if body <= full {
      PrefixMeaning(body, full, n);
    } else {
      var m := |body| - 1;
      var plain := full[..m] + [full[m]];
      assert body == full[..m] + [Refused(full[m])];
      assert plain == full[..m + 1];
      PrefixMeaning(plain, full, n);
      RefusedMeaning(full[..m], full[m], n);
    }
  }

  /** The acting calls of a run before its last release and report. */
  function Body(t: seq<Event>): seq<Event>
    requires |Core(t)| >= 2
  {
    Core(t)[..|Core(t)| - 2]
  }

  lemma {:induction false} OutcomeSplit(t: seq<Event>, rs: seq<Record>, error: ExecutorError)
    requires Outcome(t, rs, error)
    ensures |Core(t)| >= 2 && Follows(Body(t), PerfectRun(rs))
    ensures var c := Core(t); c == Body(t) + [c[|c| - 2]] + [c[|c| - 1]] && c[|c| - 2].Release? && c[|c| - 1].Terminal?
  {
    hide Core, Follows, PerfectRun, Explained;
  }

  /**
   Over every run: the keys pressed are the first keys of the schedule, in order; no key goes down
   before the one before it was released for certain; progress counts up by one, after each release;
   and no more time is asked for than the schedule's.
   */
  lemma {:induction false} RunKeepsOrder(t: seq<Event>, rs: seq<Record>, error: ExecutorError)
    requires Outcome(t, rs, error)
    ensures InOrder(Core(t), |rs|)
    ensures Pressed(Core(t)) <= KeysOf(rs)
    ensures Waited(Core(t)) <= TotalUs(rs)
    ensures Reports(Core(t)) <= |rs|
  {
    hide Pressed, Waited, Reports, Held, InOrder, Core, Body, Follows, PerfectRun, Outcome;
    OutcomeSplit(t, rs, error);
    var c, body := Core(t), Body(t);
    PerfectRunMeaning(rs);
    FollowsMeaning(body, PerfectRun(rs), |rs|);
    Append(body, c[|c| - 2], |rs|);
    Append(body + [c[|c| - 2]], c[|c| - 1], |rs|);
    assert Pressed(body) + [] + [] == Pressed(body);
  }

  /** A run that reports success pressed every key, and asked to wait exactly the schedule's total. */
  lemma {:induction false} SuccessIsComplete(t: seq<Event>, rs: seq<Record>)
    requires Outcome(t, rs, EXECUTOR_OK)
    ensures Pressed(Core(t)) == KeysOf(rs) && Waited(Core(t)) == TotalUs(rs) && Reports(Core(t)) == |rs|
  {
    hide Pressed, Waited, Reports, Held, InOrder, Core, PerfectRun, Follows, Explained;
    var last := Terminal(TERMINAL_COMPLETED, EXECUTOR_OK, Schedule.OK);
    PerfectRunMeaning(rs);
    Append(PerfectRun(rs), Release(true), |rs|);
    Append(PerfectRun(rs) + [Release(true)], last, |rs|);
    assert Core(t) == PerfectRun(rs) + [Release(true)] + [last];
    assert KeysOf(rs) + [] + [] == KeysOf(rs);
  }

  // ---- The same, position by position -------------------------------------------------

  lemma {:induction false} HeldUntilReleased(c: seq<Event>, i: nat)
    requires i < |c| && c[i].KeyDown? && !Held(c)
    ensures exists k :: i < k < |c| && c[k] == Release(true)
  {
    var last := |c| - 1;
    if c[last] != Release(true) {
      HeldUntilReleased(c[..last], i);
      var k :| i < k < |c[..last]| && c[..last][k] == Release(true);
      assert c[k] == Release(true);
    } else {
      assert i < last;
    }
  }

  /** Between any two key-downs of a run there is a confirmed release. */
  lemma {:induction false} ReleasedBetween(c: seq<Event>, n: nat, i: nat, j: nat)
    requires InOrder(c, n) && i < j < |c| && c[i].KeyDown? && c[j].KeyDown?
    ensures exists k :: i < k < j && c[k] == Release(true)
  {
    var last := |c| - 1;
    if j == last {
      HeldUntilReleased(c[..last], i);
      var k :| i < k < |c[..last]| && c[..last][k] == Release(true);
      assert c[k] == Release(true);
    } else {
      ReleasedBetween(c[..last], n, i, j);
      var k :| i < k < j && c[..last][k] == Release(true);
      assert c[k] == Release(true);
    }
  }

  /** Every progress report of a run carries its own number, right after a confirmed release. */
  lemma {:induction false} ProgressCounts(c: seq<Event>, n: nat, i: nat)
    requires InOrder(c, n) && i < |c| && c[i].Progress?
    ensures c[i].completed == Reports(c[..i + 1]) && c[i].total == n && i > 0 && c[i - 1] == Release(true)
  {
    hide Held;
    var last := |c| - 1;
    if i == last {
      assert c[..i + 1] == c;
    } else {
      ProgressCounts(c[..last], n, i);
      assert c[..last][..i + 1] == c[..i + 1];
    }
  }

  /** Something that takes time or types: what a stop has to hold back. */
  predicate IsMove(e: Event) { e.KeyDown? || e.Wait? }

  /** Between any two moves of a run there is a poll that said go on. */
  lemma PolledBetween(t: seq<Event>, i: nat, j: nat) returns (k: nat)
    requires Paced(t) && i < j < |t| && IsMove(t[i]) && IsMove(t[j])
    ensures i < k < j && t[k] == Poll(false)
  {
    assert FitsAt(t, j);
    k := if t[j].KeyDown? then j - 1 else j - 2;
  }

  /** If every poll from some moment on answers stop, at most one key-down or wait is still begun after it. */
  lemma StopIsPrompt(t: seq<Event>, moment: nat)
    requires Paced(t)
    requires forall k :: moment <= k < |t| && t[k].Poll? ==> t[k].stop
    ensures forall i, j :: moment <= i < j < |t| && IsMove(t[i]) ==> !IsMove(t[j])
  {
    if i, j :| moment <= i < j < |t| && IsMove(t[i]) && IsMove(t[j]) {
      var k := PolledBetween(t, i, j);
    }
  }

  // ---- Stops, as the link tells of them --------------------------------------------------

  /** Every poll was answered by the flags as events had left them by then. */
  predicate PollsTell(t: seq<Event>, f: Flags, hs: seq<Happening>) {
    forall k :: 0 <= k < |t| && t[k].Poll? ==> t[k].stop == StopSeen(After(f, Until(hs, k)))
  }

  lemma {:induction false} PollsTellCall(t: seq<Event>, f: Flags, hs: seq<Happening>, e: Event)
    requires PollsTell(t, f, hs) && Timed(hs, |t|) && (e.Poll? ==> e.stop == StopSeen(After(f, hs)))
    ensures PollsTell(t + [e], f, hs)
  {
    hide After, StopSeen;
    UntilNow(hs, |t|);
    hide Until;
  }

  lemma PollsTellLater(t: seq<Event>, f: Flags, hs: seq<Happening>, more: seq<Happening>)
    requires PollsTell(t, f, hs) && hs <= more && forall i :: |hs| <= i < |more| ==> more[i].at == |t|
    ensures PollsTell(t, f, more)
  {
    hide After, StopSeen, Until;
    forall k | 0 <= k < |t| ensures Until(more, k) == Until(hs, k) {
      UntilStays(hs, more, k);
    }
  }

  /** The trace of a run together with what happened on the link meanwhile. */
  ghost predicate Heeding(t: seq<Event>, f: Flags, hs: seq<Happening>) {
    Paced(t) && PollsTell(t, f, hs) && Timed(hs, |t|) && Possible(f, hs)
  }

  /** A stop that stands, once raised, lets at most one key-down or wait still begin. */
  lemma StopIsHeeded(t: seq<Event>, f: Flags, hs: seq<Happening>, j: nat)
    requires Heeding(t, f, hs) && Standing(hs, j)
    ensures forall a, b :: hs[j].at <= a < b < |t| && IsMove(t[a]) ==> !IsMove(t[b])
  {
    hide Paced, Possible, After, Until;
    forall k | hs[j].at <= k < |t| && t[k].Poll? ensures t[k].stop {
      var past := Until(hs, k);
      UntilHolds(hs, k, |t|, j);
      assert past == hs[..|past|];
      StandingStops(f, hs, j, |past|);
    }
    StopIsPrompt(t, hs[j].at);
  }

  /**
   So is every stop asked for after a run began, if no other run was on the link when it began and the
   link was not lost since.
   */
  lemma {:induction false} StopAfterBeginIsHeeded(t: seq<Event>, f: Flags, hs: seq<Happening>, b: nat, j: nat)
    requires Heeding(t, f, hs) && b < j < |hs| && hs[b].what == OwnBegin && hs[j].what == StopAsked
    requires After(f, hs[..b]).others == 0 && forall i :: b < i < |hs| ==> hs[i].what != LinkLost
    ensures forall a, c :: hs[j].at <= a < c < |t| && IsMove(t[a]) ==> !IsMove(t[c])
  {
    hide Paced, PollsTell, Timed;
    NoClearsWithoutLoss(f, hs, b);
    StopIsHeeded(t, f, hs, j);
  }

  lemma {:induction false} CoreMembers(t: seq<Event>, i: nat) returns (k: nat)
    requires i < |t| && !IsObservation(t[i])
    ensures k < |Core(t)| && Core(t)[k] == t[i]
    ensures i < |t| - 1 && !IsObservation(t[|t| - 1]) ==> k < |Core(t)| - 1
  {
    var last := |t| - 1;
    if i == last {
      k := |Core(t)| - 1;
    } else {
      k := CoreMembers(t[..last], i);
    }
  }

  lemma {:induction false} PerfectHasNoTerminal(rs: seq<Record>, i: nat, k: nat)
    requires i <= |rs| && k < |PerfectPrefix(rs, i)|
    ensures !PerfectPrefix(rs, i)[k].Terminal?
  {
    if i > 0 && k < |PerfectPrefix(rs, i - 1)| { PerfectHasNoTerminal(rs, i - 1, k); }
  }

  /** The terminal report is made once, at the very end. */
  lemma OneTerminalReport(t: seq<Event>, rs: seq<Record>, error: ExecutorError, i: nat)
    requires Outcome(t, rs, error) && i < |t|
    ensures t[i].Terminal? <==> i == |t| - 1
  {
    hide Core, PerfectRun, PerfectPrefix, Explained;
    var c := Core(t);
    if t[i].Terminal? && i < |t| - 1 {
      var k := CoreMembers(t, i);
      var body := c[..|c| - 2];
      assert k < |body|;
      assert body[k].Terminal?;
      FollowsNoTerminal(body, rs, k);
    }
  }

  lemma FollowsNoTerminal(body: seq<Event>, rs: seq<Record>, k: nat)
    requires Follows(body, PerfectRun(rs)) && k < |body|
    ensures !body[k].Terminal?
  {
    hide PerfectPrefix;
    var full := PerfectRun(rs);
    PerfectHasNoTerminal(rs, |rs|, k);
    if !(body <= full) && k < |body| - 1 {
      assert body[k] == body[..|body| - 1][k] == full[k];
    }
  }

  /**
   A verified run whose records could all be read succeeds if and only if no poll answered stop,
   nothing was refused and no wait turned the clock back.
   */
  lemma UndisturbedExactly(t: seq<Event>, rs: seq<Record>, error: ExecutorError)
    requires Outcome(t, rs, error) && error !in {EXECUTOR_NOT_VERIFIED, PROTOCOL_READ_FAILED}
    ensures error == EXECUTOR_OK <==> Undisturbed(t)
  {
    hide Core, Follows, PerfectRun, Paced, Reported;
  }
}
