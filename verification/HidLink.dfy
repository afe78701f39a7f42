/**
 The Bluetooth side of the board: its flags, which callbacks, requests and runs change while a run is
 on, the safety machine beside them, and what the flags say about the events that led to them.
 */
module HidLink {
  import opened Bytes
  import ExecutionSafety

  datatype LinkEvent =
    | StopAsked     // by a request, the console or a restart
    | LinkLost
    | LinkUp
    | OwnBegin      // the run this log belongs to takes the link and clears the stop flag
    | OtherBegins   // another run takes it: only an idle, connected link can be taken
    | OtherEnds
    | OtherGivesUp

  /** An event, and the number of calls the run had made when it happened. */
  datatype Happening = Happening(at: nat, what: LinkEvent)

  datatype Flags = Flags(connected: bool, running: bool, stopRequested: bool, others: nat)

  function Apply(f: Flags, e: LinkEvent): Flags {
    match e
    case StopAsked => f.(stopRequested := true)
    case LinkLost => f.(connected := false, running := false, stopRequested := true)
    case LinkUp => f.(connected := true)
    case OwnBegin => f.(running := true, stopRequested := false)
    case OtherBegins => f.(running := true, stopRequested := false, others := f.others + 1)
    case OtherEnds => f.(running := false, stopRequested := false, others := if f.others > 0 then f.others - 1 else 0)
    case OtherGivesUp => f.(running := false, others := if f.others > 0 then f.others - 1 else 0)
  }

  function After(f: Flags, hs: seq<Happening>): Flags {
    if hs == [] then f else Apply(After(f, hs[..|hs| - 1]), hs[|hs| - 1].what)
  }

  /** A run asks this before each move. */
  predicate StopSeen(f: Flags) { f.stopRequested || !f.connected }

  predicate Raises(e: LinkEvent) { e == StopAsked || e == LinkLost }
  predicate Clears(e: LinkEvent) { e == OwnBegin || e == OtherBegins || e == OtherEnds }
  predicate ByOther(e: LinkEvent) { e == OtherBegins || e == OtherEnds || e == OtherGivesUp }

  predicate MayHappen(f: Flags, e: LinkEvent) {
    && (e == OwnBegin || e == OtherBegins ==> f.connected && !f.running)
    && (e == OtherEnds || e == OtherGivesUp ==> f.others > 0)
  }

  predicate Possible(f: Flags, hs: seq<Happening>) {
    forall j :: 0 <= j < |hs| ==> MayHappen(After(f, hs[..j]), hs[j].what)
  }

  /** In the order of time, none later than now. */
  predicate Timed(hs: seq<Happening>, now: nat) {
    && (forall i, j :: 0 <= i <= j < |hs| ==> hs[i].at <= hs[j].at)
    && (forall i :: 0 <= i < |hs| ==> hs[i].at <= now)
  }

  /** What had happened by a given call. */
  function Until(hs: seq<Happening>, k: nat): seq<Happening> {
    if hs == [] || hs[|hs| - 1].at <= k then hs else Until(hs[..|hs| - 1], k)
  }

  lemma {:induction false} Logging(f: Flags, hs: seq<Happening>, h: Happening)
    ensures After(f, hs + [h]) == Apply(After(f, hs), h.what)
    ensures Possible(f, hs + [h]) <==> Possible(f, hs) && MayHappen(After(f, hs), h.what)
  {
    hide MayHappen, Apply;
    var more := hs + [h];
    assert more[..|hs|] == hs;
    assert forall j :: 0 <= j < |hs| ==> more[..j] == hs[..j];
  }

  lemma {:induction false} UntilNow(hs: seq<Happening>, now: nat)
    requires Timed(hs, now)
    ensures Until(hs, now) == hs
  {}

  /** Later happenings do not change what had happened before. */
  lemma {:induction false} UntilStays(hs: seq<Happening>, more: seq<Happening>, k: nat)
    requires hs <= more && forall i :: |hs| <= i < |more| ==> more[i].at > k
    ensures Until(more, k) == Until(hs, k)
  {
    if |more| > |hs| {
      var init := more[..|more| - 1];
      assert init[..|hs|] == hs;
      UntilStays(hs, init, k);
    } else {
      assert more == hs;
    }
  }

  lemma {:induction false} UntilHolds(hs: seq<Happening>, k: nat, now: nat, j: nat)
    requires Timed(hs, now) && j < |hs| && hs[j].at <= k
    ensures Until(hs, k) <= hs && j < |Until(hs, k)|
  {
    if hs[|hs| - 1].at > k { UntilHolds(hs[..|hs| - 1], k, now, j); }
  }

  // ---- What the stop flag says ------------------------------------------------------------

  /** Event j raised the stop flag and nothing lowered it since. */
  predicate Standing(hs: seq<Happening>, j: nat) {
    j < |hs| && Raises(hs[j].what) && forall i :: j < i < |hs| ==> !Clears(hs[i].what)
  }

  /** The stop flag is up if and only if a stop or a lost link was not followed by a run's begin or end. */
  lemma {:induction false} StopHoldsExactly(f: Flags, hs: seq<Happening>)
    ensures After(f, hs).stopRequested <==>
      (exists j: nat :: Standing(hs, j)) || (f.stopRequested && forall i :: 0 <= i < |hs| ==> !Clears(hs[i].what))
  {
    if hs != [] {
      var n := |hs| - 1;
      var init := hs[..n];
      StopHoldsExactly(f, init);
      forall j: nat | j < n ensures Standing(hs, j) <==> Standing(init, j) && !Clears(hs[n].what) {}
      if Raises(hs[n].what) { assert Standing(hs, n); }
      hide Standing;
      assert forall j: nat :: Standing(hs, j) ==> j <= n by { StandingBound(hs); }
    }
  }

  lemma StandingBound(hs: seq<Happening>)
    ensures forall j: nat :: Standing(hs, j) ==> j < |hs|
  {}

  lemma {:induction false} StandingStops(f: Flags, hs: seq<Happening>, j: nat, n: nat)
    requires Standing(hs, j) && j < n <= |hs|
    ensures After(f, hs[..n]).stopRequested
  {
    assert Standing(hs[..n], j);
    StopHoldsExactly(f, hs[..n]);
  }

  /** No other run can touch the flags of a run that is on, unless the link is lost. */
  lemma {:induction false} OthersNeedLoss(f: Flags, hs: seq<Happening>)
    requires f.running && f.others == 0 && Possible(f, hs)
    requires forall i :: 0 <= i < |hs| ==> hs[i].what != LinkLost
    ensures After(f, hs).running && After(f, hs).others == 0
    ensures forall i :: 0 <= i < |hs| ==> !ByOther(hs[i].what) && !Clears(hs[i].what)
  {
    if hs != [] {
      var init := hs[..|hs| - 1];
      assert hs == init + [hs[|hs| - 1]];
      Logging(f, init, hs[|hs| - 1]);
      OthersNeedLoss(f, init);
      OneWithoutLoss(After(f, init), hs[|hs| - 1].what);
      hide After, Possible, MayHappen, Apply;
    }
  }

  lemma OneWithoutLoss(f: Flags, e: LinkEvent)
    requires f.running && f.others == 0 && MayHappen(f, e) && e != LinkLost
    ensures Apply(f, e).running && Apply(f, e).others == 0 && !ByOther(e) && !Clears(e)
  {}

  lemma {:induction false} AfterSplit(f: Flags, hs: seq<Happening>, n: nat)
    requires n <= |hs|
    ensures After(f, hs) == After(After(f, hs[..n]), hs[n..])
  {
    if n == |hs| {
      assert hs[..n] == hs && hs[n..] == [];
    } else {
      var init := hs[..|hs| - 1];
      AfterSplit(f, init, n);
      assert init[..n] == hs[..n] && hs[n..][..|hs[n..]| - 1] == init[n..];
      hide Apply;
    }
  }

  lemma {:induction false} PossibleFrom(f: Flags, hs: seq<Happening>, n: nat)
    requires n <= |hs| && Possible(f, hs)
    ensures Possible(After(f, hs[..n]), hs[n..])
  {
    hide After, MayHappen;
    var rest := hs[n..];
    forall j | 0 <= j < |rest| ensures MayHappen(After(After(f, hs[..n]), rest[..j]), rest[j].what) {
      AfterSplit(f, hs[..n + j], n);
      assert hs[..n + j][..n] == hs[..n] && hs[..n + j][n..] == rest[..j];
    }
  }

  /** The log from a run's begin on starts from flags that are the run's own. */
  lemma {:induction false} BegunFlags(f: Flags, hs: seq<Happening>, b: nat)
    requires Possible(f, hs) && b < |hs| && hs[b].what == OwnBegin
    ensures After(f, hs[..b + 1]).running && After(f, hs[..b + 1]).others == After(f, hs[..b]).others
  {
    assert hs[..b + 1] == hs[..b] + [hs[b]];
    Logging(f, hs[..b], hs[b]);
    hide After, Possible;
  }

  /** After a run's begin with no other run about, nothing lowers the flag as long as the link is not lost. */
  lemma {:induction false} NoClearsWithoutLoss(f: Flags, hs: seq<Happening>, b: nat)
    requires Possible(f, hs) && b < |hs| && hs[b].what == OwnBegin && After(f, hs[..b]).others == 0
    requires forall i :: b < i < |hs| ==> hs[i].what != LinkLost
    ensures forall i :: b < i < |hs| ==> !Clears(hs[i].what)
  {
    hide Possible, After, Clears, ByOther;
    BegunFlags(f, hs, b);
    PossibleFrom(f, hs, b + 1);
    var rest := hs[b + 1..];
    OthersNeedLoss(After(f, hs[..b + 1]), rest);
    forall i | b < i < |hs| ensures !Clears(hs[i].what) {
      assert hs[i] == rest[i - b - 1];
    }
  }

  lemma LinkStays(l: ExecutionSafety.Link, e: ExecutionSafety.Event)
    requires !ExecutionSafety.IsLinkEvent(e)
    ensures ExecutionSafety.Step(l, e).connected == l.connected
  {}

  // ---- What was slept ------------------------------------------------------------------------

  /** One delay of the scheduler: how long the log was when it began, and its length in ticks. */
  datatype Nap = Nap(known: nat, ticks: nat)

  function Sum(ns: seq<nat>): nat {
    if ns == [] then 0 else Sum(ns[..|ns| - 1]) + ns[|ns| - 1]
  }

  function Durations(naps: seq<Nap>): (ns: seq<nat>)
    ensures |ns| == |naps|
  {
    if naps == [] then [] else Durations(naps[..|naps| - 1]) + [naps[|naps| - 1].ticks]
  }

  /** All the ticks slept. */
  function Slept(naps: seq<Nap>): nat { Sum(Durations(naps)) }

  lemma {:induction false} SumNext(ns: seq<nat>, n: nat)
    ensures Sum(ns + [n]) == Sum(ns) + n
  {
    assert (ns + [n])[..|ns|] == ns;
  }

  lemma {:induction false} SumOfBoth(a: seq<nat>, b: seq<nat>)
    ensures Sum(a + b) == Sum(a) + Sum(b)
  {
    if b == [] {
      assert a + b == a;
    } else {
      assert (a + b)[..|a + b| - 1] == a + b[..|b| - 1];
      SumOfBoth(a, b[..|b| - 1]);
    }
  }

  lemma {:induction false} DurationsNext(naps: seq<Nap>, nap: Nap)
    ensures Durations(naps + [nap]) == Durations(naps) + [nap.ticks]
  {
    assert (naps + [nap])[..|naps|] == naps;
  }

  lemma {:induction false} DurationAt(naps: seq<Nap>, k: nat)
    requires k < |naps|
    ensures Durations(naps)[k] == naps[k].ticks
  {
    if k < |naps| - 1 { DurationAt(naps[..|naps| - 1], k); }
  }

  /** The longest nap, in ticks. */
  const LONGEST_NAP: nat := 10

  /** The naps are short and in the order of the log, and none was begun while a stop could be seen. */
  predicate Alert(f: Flags, hs: seq<Happening>, naps: seq<Nap>) {
    && (forall i, k :: 0 <= i <= k < |naps| ==> naps[i].known <= naps[k].known)
    && (forall k :: 0 <= k < |naps| ==> 1 <= naps[k].ticks <= LONGEST_NAP)
    && (forall k :: 0 <= k < |naps| ==> naps[k].known <= |hs| && !StopSeen(After(f, hs[..naps[k].known])))
  }

  lemma {:induction false} AlertLater(f: Flags, hs: seq<Happening>, more: seq<Happening>, naps: seq<Nap>)
    requires Alert(f, hs, naps) && hs <= more
    ensures Alert(f, more, naps)
  {
    hide After, StopSeen;
    forall k | 0 <= k < |naps| ensures !StopSeen(After(f, more[..naps[k].known])) {
      assert more[..naps[k].known] == hs[..naps[k].known];
    }
  }

  lemma {:induction false} AlertNext(f: Flags, hs: seq<Happening>, naps: seq<Nap>, ticks: nat)
    requires Alert(f, hs, naps) && !StopSeen(After(f, hs)) && 1 <= ticks <= LONGEST_NAP
    ensures Alert(f, hs, naps + [Nap(|hs|, ticks)])
  {
    hide After, StopSeen;
    assert hs[..|hs|] == hs;
  }

  /** Once a stop stands, no nap begins: those of a wait it falls into began before it. */
  lemma {:induction false} NapsBeforeStop(f: Flags, hs: seq<Happening>, naps: seq<Nap>, j: nat, k: nat)
    requires Alert(f, hs, naps) && Standing(hs, j) && k < |naps|
    ensures naps[k].known <= j && naps[k].ticks <= LONGEST_NAP
  {
    if naps[k].known > j { StandingStops(f, hs, j, naps[k].known); }
    hide After;
  }

  // ---- The object ---------------------------------------------------------------------------

  class Link {
    var connected: bool
    var running: bool
    var stopRequested: bool
    const safety: ExecutionSafety.Safety
    /** How many other tasks think they have the link. */
    var others: nat
    /** The number of calls so far, and the log since `start`. */
    ghost var now: nat
    ghost var start: Flags
    ghost var happenings: seq<Happening>
    /** The delays of the run, since `start` too. */
    ghost var naps: seq<Nap>
    ghost var safetyLog: seq<ExecutionSafety.Event>
    /** The flags just before a run last gave the link back. */
    ghost var last: Flags

    function Repr(): set<object> { {this, safety} }

    function View(): Flags
      reads this
    {
      Flags(connected, running, stopRequested, others)
    }

    predicate SeesStop()
      reads this
      ensures SeesStop() <==> StopSeen(View())
    {
      stopRequested || !connected
    }

    /** The flags are what the log makes them, and both objects agree about the connection. */
    ghost predicate Valid()
      reads this, safety
    {
      && View() == After(start, happenings) && Possible(start, happenings) && Timed(happenings, now)
      && Alert(start, happenings, naps)
      && SafetyLogged()
    }

    ghost predicate SafetyLogged()
      reads this`connected, this`safetyLog, safety
    {
      safety.View() == ExecutionSafety.Run(safetyLog) && connected == safety.connected
    }

    constructor ()
      ensures Valid() && fresh(safety) && !running && happenings == []
    {
      connected, running, stopRequested := false, false, false;
      safety := new ExecutionSafety.Safety();
      others, now, happenings, naps, safetyLog := 0, 0, [], [], [];
      start, last := Flags(false, false, false, 0), Flags(false, false, false, 0);
    }

    /** One more event on the log. */
    twostate predicate Logged(e: LinkEvent)
      reads this
    {
      unchanged(`start) && unchanged(`now) && unchanged(`naps) && happenings == old(happenings) + [Happening(now, e)]
    }

    /** Only others' events were added, and now. */
    twostate predicate Elapsed()
      reads this
    {
      && unchanged(`start) && unchanged(`now) && old(happenings) <= happenings
      && forall i :: |old(happenings)| <= i < |happenings| ==> happenings[i].at == now && happenings[i].what != OwnBegin
    }

    twostate lemma LogGrows(e: LinkEvent)
      requires old(Valid()) && Logged(e) && SafetyLogged()
      requires MayHappen(old(View()), e) && View() == Apply(old(View()), e)
      ensures Valid()
    {
      hide After, Apply, MayHappen, ExecutionSafety.Run;
      AlertLater(start, old(happenings), happenings, naps);
      Logging(start, old(happenings), Happening(now, e));
    }

    method RequestStop()
      requires Valid()
      modifies this
      ensures Valid() && Logged(StopAsked)
    {
      stopRequested := true;
      happenings := happenings + [Happening(now, StopAsked)];
      LogGrows(StopAsked);
    }

    /** The host connected: both objects are told. */
    method HostConnected()
      requires Valid()
      modifies Repr()
      ensures Valid() && Logged(LinkUp) && safetyLog == old(safetyLog) + [ExecutionSafety.Connect]
    {
      hide After, ExecutionSafety.Run;
      ExecutionSafety.RunStep(safetyLog, ExecutionSafety.Connect);
      connected := true;
      var generation := safety.OnConnected();
      safetyLog := safetyLog + [ExecutionSafety.Connect];
      happenings := happenings + [Happening(now, LinkUp)];
      LogGrows(LinkUp);
    }

    method HostDisconnected()
      requires Valid()
      modifies Repr()
      ensures Valid() && Logged(LinkLost) && safetyLog == old(safetyLog) + [ExecutionSafety.Disconnect]
    {
      hide After, ExecutionSafety.Run;
      ExecutionSafety.RunStep(safetyLog, ExecutionSafety.Disconnect);
      safety.OnDisconnected();
      stopRequested := true;
      connected, stopRequested, running := false, true, false;
      safetyLog := safetyLog + [ExecutionSafety.Disconnect];
      happenings := happenings + [Happening(now, LinkLost)];
      LogGrows(LinkLost);
    }

    /** Authentication and the safety release: nothing here touches the flags. */
    method SafetyEvent()
      requires Valid()
      modifies this`safetyLog, safety
      ensures Valid()
    {
      hide After, ExecutionSafety.Run, Possible, Timed;
      var e: ExecutionSafety.Event := *;
      if !ExecutionSafety.IsLinkEvent(e) {
        LinkStays(safety.View(), e);
        ExecutionSafety.RunStep(safetyLog, e);
        safety.Perform(e);
        safetyLog := safetyLog + [e];
      }
    }

    /** Another run begins, ends or gives up, as far as the flags let it. */
    method OtherRun()
      requires Valid()
      modifies this
      ensures Valid() && Elapsed() && unchanged(`naps)
    {
      hide After, Possible, Timed, Alert, ExecutionSafety.Run;
      var kind: nat := *;
      var e := if kind == 0 then OtherBegins else if kind == 1 then OtherEnds else OtherGivesUp;
      if MayHappen(View(), e) {
        if kind == 0 {
          running, stopRequested, others := true, false, others + 1;
        } else if kind == 1 {
          running, stopRequested, others := false, false, others - 1;
        } else {
          running, others := false, others - 1;
        }
        happenings := happenings + [Happening(now, e)];
        LogGrows(e);
      }
    }

    /** Time passes: any number of events of any kind. */
    method Elapse()
      requires Valid()
      modifies Repr()
      ensures Valid() && Elapsed() && unchanged(`naps)
    {
      hide Valid, MayHappen, Apply;
      var events: nat := *;
      while events > 0
        invariant Valid() && Elapsed() && unchanged(`naps)
      {
        var kind: nat := *;
        if kind == 0 { RequestStop(); }
        else if kind == 1 { HostConnected(); }
        else if kind == 2 { HostDisconnected(); }
        else if kind == 3 { SafetyEvent(); }
        else { OtherRun(); }
        events := events - 1;
      }
    }

    /** The run sleeps for some ticks, having looked at the flags; time passes meanwhile. */
    method Doze(ticks: nat)
      requires Valid() && !StopSeen(View()) && 1 <= ticks <= LONGEST_NAP
      modifies Repr()
      ensures Valid() && Elapsed() && naps == old(naps) + [Nap(|old(happenings)|, ticks)]
    {
      hide After, Possible, Timed, Alert, StopSeen;
      AlertNext(start, happenings, naps, ticks);
      naps := naps + [Nap(|happenings|, ticks)];
      Elapse();
    }

    /** A run takes the link. */
    method BeginRun()
      requires Valid() && connected && !running
      modifies this
      ensures Valid() && Logged(OwnBegin) && connected
    {
      running, stopRequested := true, false;
      happenings := happenings + [Happening(now, OwnBegin)];
      LogGrows(OwnBegin);
    }

    /** The run lets go of it; what happened during it is its own log, and a new one begins. */
    method EndRun(clear: bool)
      requires Valid()
      modifies this
      ensures Valid() && happenings == [] && naps == [] && now == 0
      ensures last == old(View()) && View() == last.(running := false, stopRequested := last.stopRequested && !clear)
    {
      last := View();
      running := false;
      if clear { stopRequested := false; }
      Restart();
    }

    ghost method Restart()
      requires SafetyLogged()
      modifies this`start, this`happenings, this`naps, this`now
      ensures Valid() && happenings == [] && naps == [] && now == 0 && start == View()
    {
      start, happenings, naps, now := View(), [], [], 0;
    }

    /** The run made one more call. */
    ghost method Tick()
      requires Valid()
      modifies this`now
      ensures Valid() && now == old(now) + 1
    {
      now := now + 1;
    }
  }
}
