/** Waiting in scheduler ticks: exact rounding, interruptible slices, and the time a completed run takes. */
module TickWait {
  import opened Bytes
  import opened Schedule
  import opened ExecutionTrace
  import opened ExecutionLaws
  import opened HidLink

  const TICK_RATE_HZ: nat := 1000

  /** Milliseconds to ticks as the scheduler's macro rounds them: down. */
  function PdMsToTicks(ms: nat, hz: nat): nat { ms * hz / 1000 }

  /** The longest wait between two looks at the stop flag. */
  function MaxSlice(hz: nat): nat { PdMsToTicks(10, hz) }

  /** Microseconds to ticks, rounded up. */
  function CeilTicks(us: nat, hz: nat): nat { (us * hz + 999_999) / 1_000_000 }

  /** The slice loop makes progress exactly when the tick rate is at least 100 per second. */
  lemma SliceIsPositive(hz: nat)
    ensures MaxSlice(hz) > 0 <==> hz >= 100
    ensures MaxSlice(TICK_RATE_HZ) == LONGEST_NAP
  {}

  /** A wait of some ticks, cut into slices: full ones, and the rest. */
  function Sliced(total: nat): seq<nat> {
    if total == 0 then []
    else if total <= MaxSlice(TICK_RATE_HZ) then [total]
    else SliceIsPositive(TICK_RATE_HZ); [MaxSlice(TICK_RATE_HZ)] + Sliced(total - MaxSlice(TICK_RATE_HZ))
  }

  lemma {:induction false} SlicedMeaning(total: nat)
    ensures Sum(Sliced(total)) == total
    ensures forall k :: 0 <= k < |Sliced(total)| ==> 1 <= Sliced(total)[k] <= MaxSlice(TICK_RATE_HZ)
  {
    var slice := MaxSlice(TICK_RATE_HZ);
    if total <= slice {
      OneSum(total);
    } else {
      SlicedMeaning(total - slice);
      SumOfBoth([slice], Sliced(total - slice));
      OneSum(slice);
    }
  }

  lemma {:induction false} OneSum(n: nat)
    ensures Sum([n]) == n && Sum([]) == 0
  {}

  lemma {:induction false} PrefixSum(a: seq<nat>, b: seq<nat>)
    requires a <= b
    ensures Sum(a) <= Sum(b)
  {
    assert b == a + b[|a|..];
    SumOfBoth(a, b[|a|..]);
  }

  lemma {:induction false} SlicedPrefix(total: nat, slices: seq<nat>)
    requires slices <= Sliced(total)
    ensures Sum(slices) <= total && (slices == Sliced(total) ==> Sum(slices) == total)
    ensures forall k :: 0 <= k < |slices| ==> 1 <= slices[k] <= MaxSlice(TICK_RATE_HZ)
  {
    SlicedMeaning(total);
    PrefixSum(slices, Sliced(total));
    hide Sliced, Sum, MaxSlice;
  }

  lemma SlicedNext(left: nat)
    requires left > 0
    ensures var slice := if left > MaxSlice(TICK_RATE_HZ) then MaxSlice(TICK_RATE_HZ) else left;
      Sliced(left) == [slice] + Sliced(left - slice)
  {}

  /**
   The board's wait: ten ticks at a time, with a look at the flags before each slice. Callbacks,
   requests and other runs change them while it sleeps. What was slept are the first slices of the
   wait, each begun with the flags clear, and all of them if it is granted.
   */
  method SchedulerWaitTicks(link: Link, total: nat) returns (ok: bool, ghost slices: seq<nat>)
    requires link.Valid()
    modifies link.Repr()
    ensures link.Valid() && link.Elapsed()
    ensures ok <==> !StopSeen(link.View())
    ensures ok ==> slices == Sliced(total) && Sum(slices) == total
    ensures slices <= Sliced(total) && Sum(slices) <= total
    ensures forall k :: 0 <= k < |slices| ==> 1 <= slices[k] <= MaxSlice(TICK_RATE_HZ)
    ensures old(link.naps) <= link.naps && Durations(link.naps) == old(Durations(link.naps)) + slices
  {
    SliceIsPositive(TICK_RATE_HZ);
    NothingSliced();
    hide MaxSlice, Sliced, Durations, Sum, link.Valid, StopSeen;
    var maxSlice := MaxSlice(TICK_RATE_HZ);
    var left: nat := total;
    slices := [];
    assert Durations(link.naps) + [] == Durations(link.naps);
    assert [] + Sliced(total) == Sliced(total);
    while left > 0
      invariant link.Valid() && link.Elapsed()
      invariant Sliced(total) == slices + Sliced(left)
      invariant old(link.naps) <= link.naps && Durations(link.naps) == old(Durations(link.naps)) + slices
      decreases left
    {
      SlicedPrefix(total, slices);
      SlicedNext(left);
      var slice := if left > maxSlice then maxSlice else left;
      if link.SeesStop() { return false, slices; }
      DurationsNext(link.naps, Nap(|link.happenings|, slice));
      link.Doze(slice);
      slices := slices + [slice];
      left := left - slice;
    }
    SlicedPrefix(total, slices);
    return !link.SeesStop(), slices;
  }

  lemma NothingSliced()
    ensures Sliced(0) == []
  {}

  /** A wait that is not cut short lasts exactly its duration in ticks, rounded up. */
  method ExecutorWaitUs(link: Link, delayUs: u32) returns (ok: bool, ghost slices: seq<nat>)
    requires link.Valid()
    modifies link.Repr()
    ensures link.Valid() && link.Elapsed()
    ensures ok <==> delayUs == 0 || !StopSeen(link.View())
    ensures slices <= Sliced(CeilTicks(delayUs as nat, TICK_RATE_HZ))
    ensures ok ==> Sum(slices) == CeilTicks(delayUs as nat, TICK_RATE_HZ)
    ensures Sum(slices) <= CeilTicks(delayUs as nat, TICK_RATE_HZ)
    ensures forall k :: 0 <= k < |slices| ==> 1 <= slices[k] <= 10
    ensures old(link.naps) <= link.naps && Durations(link.naps) == old(Durations(link.naps)) + slices
  {
    hide link.Valid, StopSeen, Sliced, Durations;
    slices := [];
    if delayUs == 0 {
      OneSum(0);
      NothingSliced();
      assert Durations(link.naps) + [] == Durations(link.naps);
      return true, slices;
    }
    var scaledTicks: u64 := delayUs as nat * TICK_RATE_HZ;
    var ticks: u32 := (scaledTicks as nat + 999_999) / 1_000_000 % 0x1_0000_0000;
    ok, slices := SchedulerWaitTicks(link, if ticks == 0 then 1 else ticks as nat);
  }

  /** A pause of a whole number of milliseconds. */
  method WaitMs(link: Link, delayMs: nat) returns (ok: bool, ghost slices: seq<nat>)
    requires link.Valid()
    modifies link.Repr()
    ensures link.Valid() && link.Elapsed()
    ensures ok <==> delayMs == 0 || !StopSeen(link.View())
    ensures slices <= Sliced(PdMsToTicks(delayMs, TICK_RATE_HZ))
    ensures ok ==> Sum(slices) == PdMsToTicks(delayMs, TICK_RATE_HZ)
    ensures Sum(slices) <= PdMsToTicks(delayMs, TICK_RATE_HZ)
    ensures old(link.naps) <= link.naps && Durations(link.naps) == old(Durations(link.naps)) + slices
  {
    hide link.Valid, StopSeen, Sliced, Durations;
    slices := [];
    if delayMs == 0 {
      OneSum(0);
      NothingSliced();
      assert Durations(link.naps) + [] == Durations(link.naps);
      return true, slices;
    }
    var ticks := PdMsToTicks(delayMs, TICK_RATE_HZ);
    ok, slices := SchedulerWaitTicks(link, if ticks == 0 then 1 else ticks);
  }

  // ---- The duration of a whole run ------------------------------------------------------------

  function Waits(c: seq<Event>): nat {
    if c == [] then 0 else Waits(c[..|c| - 1]) + (if c[|c| - 1].Wait? then 1 else 0)
  }

  /** The ticks the waits of a run take when none is cut short. */
  function Ticks(c: seq<Event>): nat {
    if c == [] then 0
    else Ticks(c[..|c| - 1]) + (var e := c[|c| - 1]; if e.Wait? then CeilTicks(e.delayUs as nat, TICK_RATE_HZ) else 0)
  }

  /**
   What may have been slept during a call: a granted wait its microseconds rounded up, a broken one no
   more, anything else nothing.
   */
  predicate MeasuredAt(e: Event, ticks: nat) {
    match e
    case Wait(us, ok) =>
      ticks <= CeilTicks(us as nat, TICK_RATE_HZ) && (ok ==> ticks == CeilTicks(us as nat, TICK_RATE_HZ))
    case _ => ticks == 0
  }

  predicate Measured(t: seq<Event>, slept: seq<nat>) {
    |slept| == |t| && forall i :: 0 <= i < |t| ==> MeasuredAt(t[i], slept[i])
  }

  lemma MeasuredNext(t: seq<Event>, slept: seq<nat>, e: Event, ticks: nat)
    requires Measured(t, slept) && MeasuredAt(e, ticks)
    ensures Measured(t + [e], slept + [ticks])
  {
    hide MeasuredAt;
  }

  /** Where every wait was granted, what was slept is what the acting calls ask for. */
  lemma {:induction false} SleptIsTicks(t: seq<Event>, slept: seq<nat>)
    requires Measured(t, slept) && forall i :: 0 <= i < |t| && t[i].Wait? ==> t[i].ok
    ensures Sum(slept) == Ticks(Core(t))
  {
    if t != [] {
      var n := |t| - 1;
      assert Measured(t[..n], slept[..n]);
      SleptIsTicks(t[..n], slept[..n]);
      assert MeasuredAt(t[n], slept[n]);
      hide CeilTicks;
      if !IsObservation(t[n]) { AppendedTick(Core(t[..n]), t[n]); } else { assert Core(t[..n]) + [] == Core(t[..n]); }
    }
  }

  lemma {:induction false} AppendedTick(c: seq<Event>, e: Event)
    ensures Ticks(c + [e]) == Ticks(c) + (if e.Wait? then CeilTicks(e.delayUs as nat, TICK_RATE_HZ) else 0)
  {
    assert (c + [e])[..|c|] == c;
  }

  lemma CeilBounds(us: nat)
    ensures us <= 1000 * CeilTicks(us, TICK_RATE_HZ) <= us + 999
  {}

  /** Rounding never shortens a run, and adds less than a millisecond to each wait. */
  lemma {:induction false} RoundingBounds(c: seq<Event>)
    ensures Waited(c) <= 1000 * Ticks(c) <= Waited(c) + 999 * Waits(c)
  {
    hide CeilTicks;
    if c != [] {
      RoundingBounds(c[..|c| - 1]);
      if c[|c| - 1].Wait? { CeilBounds(c[|c| - 1].delayUs as nat); }
    }
  }

  lemma {:induction false} AppendedWaits(c: seq<Event>, e: Event)
    ensures Waits(c + [e]) == Waits(c) + (if e.Wait? then 1 else 0)
  {
    assert (c + [e])[..|c|] == c;
  }

  lemma {:induction false} AppendedWaitCalls(c: seq<Event>, delayUs: u32)
    ensures Waits(c + WaitCalls(delayUs)) <= Waits(c) + 1
  {
    if delayUs == 0 { assert c + [] == c; } else { AppendedWaits(c, Wait(delayUs, true)); }
  }

  lemma {:induction false} WaitsOfRecord(c: seq<Event>, r: Record, k: nat, n: nat)
    ensures Waits(c + RecordCalls(r, k, n)) <= Waits(c) + 3
  {
    hide Waits, WaitCalls;
    var c1 := c + WaitCalls(r.waitBefore);
    var c2 := c1 + [KeyDown(r.modifier, r.keycode, true)];
    var c3 := c2 + WaitCalls(r.hold);
    var c4 := c3 + [Release(true)];
    var c5 := c4 + [Progress(r.sourceIndex, k, n)];
    AppendedWaitCalls(c, r.waitBefore);
    AppendedWaits(c1, KeyDown(r.modifier, r.keycode, true));
    AppendedWaitCalls(c2, r.hold);
    AppendedWaits(c3, Release(true));
    AppendedWaits(c4, Progress(r.sourceIndex, k, n));
    AppendedWaitCalls(c5, r.waitAfter);
    assert c + RecordCalls(r, k, n) == c5 + WaitCalls(r.waitAfter);
  }

  lemma {:induction false} WaitsOfRun(rs: seq<Record>, i: nat)
    requires i <= |rs|
    ensures Waits(PerfectPrefix(rs, i)) <= 3 * i
  {
    hide RecordCalls;
    if i > 0 {
      WaitsOfRun(rs, i - 1);
      WaitsOfRecord(PerfectPrefix(rs, i - 1), rs[i - 1], i, |rs|);
    }
  }

  /**
   At 1000 ticks a second, a run of n records that completes waits at least the schedule's declared
   duration, and less than 3n ticks more.
   */
  lemma {:induction false} CompletedRunTime(t: seq<Event>, rs: seq<Record>)
    requires Outcome(t, rs, EXECUTOR_OK) && rs != []
    ensures TotalUs(rs) <= 1000 * Ticks(PerfectRun(rs)) < TotalUs(rs) + 1000 * (3 * |rs|)
    ensures Ticks(Core(t)) == Ticks(PerfectRun(rs))
  {
    hide Core, Waited, Waits, Follows, Explained, PerfectPrefix, TotalUs;
    var c := PerfectRun(rs);
    PerfectRunMeaning(rs);
    RoundingBounds(c);
    WaitsOfRun(rs, |rs|);
    AppendedTicks(c, Release(true));
    AppendedTicks(c + [Release(true)], Terminal(TERMINAL_COMPLETED, EXECUTOR_OK, Schedule.OK));
    assert Core(t) == c + [Release(true)] + [Terminal(TERMINAL_COMPLETED, EXECUTOR_OK, Schedule.OK)];
  }

  lemma {:induction false} AppendedTicks(c: seq<Event>, e: Event)
    requires !e.Wait?
    ensures Ticks(c + [e]) == Ticks(c)
  {
    assert (c + [e])[..|c|] == c;
  }
}
