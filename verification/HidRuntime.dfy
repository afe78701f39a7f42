/** The calibration runner: short test runs on the HID link, under any behaviour of the link and of other tasks. */
module HidRuntime {
  import opened Bytes
  import opened HidLink
  import TickWait

  const RELEASE_MAX_ATTEMPTS: nat := 3
  const MAX_CHARACTERS: nat := 1080
  const SETTLE_MS: nat := 60
  const CALIBRATION_PATTERN: string := "abcdefghijklmnopqrstuvwxyz0123456789"
  const SHIFT_SEQUENCE: string := "Aa!_{}"

  datatype HidResult = HID_OK | HID_DISCONNECTED | HID_BUSY | HID_INVALID_ARGUMENT | HID_SEND_FAILED | HID_WAIT_FAILED
    | HID_STOPPED

  /** A keyboard report; the other six bytes are zero. */
  datatype Report = Report(modifier: byte, keycode: byte)

  const RELEASED := Report(0, 0)

  /** A report handed to the link, a report that found the link down, a look at the flags, or a pause. */
  datatype Event = Sent(report: Report, accepted: bool) | LinkDown | Looked(verdict: HidResult)
    | Paused(ms: nat, ok: bool)

  /** What came of an event: a report the link took, a pause, or a pause that was cut short. */
  datatype Action = Taken(report: Report) | Rested(ms: nat) | CutShort(ms: nat)

  datatype MaybeReport = NoReport | Some(report: Report)

  function CharacterReport(c: char): MaybeReport {
    if 'a' <= c <= 'z' then Some(Report(0, 4 + (c as int - 'a' as int)))
    else if 'A' <= c <= 'Z' then Some(Report(2, 4 + (c as int - 'A' as int)))
    else if '1' <= c <= '9' then Some(Report(0, 0x1e + (c as int - '1' as int)))
    else if c == '0' then Some(Report(0, 0x27))
    else if c == '!' then Some(Report(2, 0x1e))
    else if c == '_' then Some(Report(2, 0x2d))
    else if c == '{' then Some(Report(2, 0x2f))
    else if c == '}' then Some(Report(2, 0x30))
    else NoReport
  }

  predicate HoldSupported(holdMs: nat) { holdMs in {8, 12, 16, 20, 30} }

  // ---- What a trace says -------------------------------------------------------------------------

  predicate IsPress(e: Event) { e.Sent? && e.report != RELEASED }
  predicate IsRelease(e: Event) { e.Sent? && e.report == RELEASED }

  function DoneBy(e: Event): seq<Action> {
    match e
    case Sent(report, accepted) => if accepted then [Taken(report)] else []
    case LinkDown => []
    case Looked(_) => []
    case Paused(ms, ok) => if ok then [Rested(ms)] else [CutShort(ms)]
  }

  /** The reports the link took and the pauses between them, in order. */
  function Done(t: seq<Event>): seq<Action> {
    if t == [] then [] else Done(t[..|t| - 1]) + DoneBy(t[|t| - 1])
  }

  /** The keys the run tried to press, in order. */
  function Presses(t: seq<Event>): seq<Report> {
    if t == [] then []
    else Presses(t[..|t| - 1]) + (var e := t[|t| - 1]; if IsPress(e) then [e.report] else [])
  }

  /** Since the last key, if any, an all-zero report was taken. */
  function Lifted(t: seq<Event>): bool {
    if t == [] then true
    else
      var e := t[|t| - 1];
      if IsPress(e) then false else if e == Sent(RELEASED, true) then true else Lifted(t[..|t| - 1])
  }

  predicate Ordered(t: seq<Event>) {
    t != [] ==> Ordered(t[..|t| - 1]) && (IsPress(t[|t| - 1]) ==> Lifted(t[..|t| - 1]))
  }

  /** Each key and each pause comes right after a look at the flags that said to go on. */
  predicate Asked(t: seq<Event>) { forall i :: 0 <= i < |t| ==> AskedAt(t, i) }

  predicate AskedAt(t: seq<Event>, i: nat)
    requires i < |t|
  {
    IsPress(t[i]) || t[i].Paused? ==> i > 0 && t[i - 1] == Looked(HID_OK)
  }

  predicate GoingOn(t: seq<Event>) { t != [] && t[|t| - 1] == Looked(HID_OK) }

  lemma AskedNext(t: seq<Event>, e: Event)
    requires Asked(t) && (IsPress(e) || e.Paused? ==> GoingOn(t))
    ensures Asked(t + [e])
  {
    var more := t + [e];
    forall i | 0 <= i < |more| ensures AskedAt(more, i) {
      if i < |t| { assert AskedAt(t, i); }
    }
  }

  /** The looks that said to stop, and why. */
  function Stops(t: seq<Event>): seq<HidResult> {
    if t == [] then []
    else
      Stops(t[..|t| - 1])
      + (var e := t[|t| - 1]; if e.Looked? && e.verdict != HID_OK then [e.verdict] else [])
  }

  /** Nothing was refused, cut short or stopped. */
  predicate Calm(t: seq<Event>) {
    forall i :: 0 <= i < |t| ==> t[i] in {Looked(HID_OK)} || (t[i].Sent? && t[i].accepted) || (t[i].Paused? && t[i].ok)
  }

  /** The result of a run is that of the look that stopped it, if one did, and bad only if something went wrong. */
  predicate Explained(t: seq<Event>, result: HidResult) {
    && (Stops(t) == [] || Stops(t) == [result])
    && (result == HID_STOPPED ==> Stops(t) == [result])
    && (result != HID_OK ==> !Calm(t))
  }

  /** The last thing tried on the link, if anything, was to let go of all keys. */
  predicate EndsReleasing(t: seq<Event>) {
    t != [] ==>
      var e := t[|t| - 1];
      if e.Paused? || e.Looked? then EndsReleasing(t[..|t| - 1]) else IsRelease(e) || e.LinkDown?
  }

  lemma {:induction false} Append(t: seq<Event>, e: Event)
    ensures Done(t + [e]) == Done(t) + DoneBy(e)
    ensures Presses(t + [e]) == Presses(t) + (if IsPress(e) then [e.report] else [])
    ensures Lifted(t + [e]) == (if IsPress(e) then false else if e == Sent(RELEASED, true) then true else Lifted(t))
    ensures Ordered(t + [e]) <==> Ordered(t) && (IsPress(e) ==> Lifted(t))
    ensures Stops(t + [e]) == Stops(t) + (if e.Looked? && e.verdict != HID_OK then [e.verdict] else [])
    ensures !Calm(t) ==> !Calm(t + [e])
    ensures e.LinkDown? || (e.Sent? && !e.accepted) || (e.Paused? && !e.ok) || (e.Looked? && e.verdict != HID_OK) ==>
      !Calm(t + [e])
    ensures EndsReleasing(t + [e]) <==> if e.Paused? || e.Looked? then EndsReleasing(t) else IsRelease(e) || e.LinkDown?
  {
    assert (t + [e])[..|t|] == t;
    if !Calm(t) {
      var i :| 0 <= i < |t|
        && !(t[i] in {Looked(HID_OK)} || (t[i].Sent? && t[i].accepted) || (t[i].Paused? && t[i].ok));
      assert (t + [e])[i] == t[i];
    }
    assert (t + [e])[|t|] == e;
  }

  /** Between two key reports of a run an all-zero report was taken. */
  lemma {:induction false} ReleasedBetween(t: seq<Event>, i: nat, j: nat)
    requires Ordered(t) && i < j < |t| && IsPress(t[i]) && IsPress(t[j])
    ensures exists k :: i < k < j && t[k] == Sent(RELEASED, true)
  {
    var last := |t| - 1;
    var init := t[..last];
    if j == last {
      LiftedMeans(init, i);
      var k :| i < k < |init| && init[k] == Sent(RELEASED, true);
      assert t[k] == Sent(RELEASED, true);
    } else {
      ReleasedBetween(init, i, j);
      var k :| i < k < j && init[k] == Sent(RELEASED, true);
      assert t[k] == Sent(RELEASED, true);
    }
  }

  lemma {:induction false} LiftedMeans(t: seq<Event>, i: nat)
    requires Lifted(t) && i < |t| && IsPress(t[i])
    ensures exists k :: i < k < |t| && t[k] == Sent(RELEASED, true)
  {
    var last := |t| - 1;
    if t[last] != Sent(RELEASED, true) {
      LiftedMeans(t[..last], i);
      var k :| i < k < last && t[..last][k] == Sent(RELEASED, true);
      assert t[k] == Sent(RELEASED, true);
    }
  }

  /** One character without incident: down, held, up, settled. */
  function Stroke(key: Report, holdMs: nat): seq<Action> {
    [Taken(key), Rested(holdMs), Taken(RELEASED), Rested(SETTLE_MS)]
  }

  function Strokes(keys: seq<Report>, holdMs: nat): seq<Action> {
    if keys == [] then [] else Strokes(keys[..|keys| - 1], holdMs) + Stroke(keys[|keys| - 1], holdMs)
  }

  /** The first release and n seconds of the countdown. */
  function Opening(n: nat): seq<Action> { if n == 0 then [Taken(RELEASED)] else Opening(n - 1) + [Rested(1000)] }

  /** A whole test without incident. */
  function Script(keys: seq<Report>, holdMs: nat): seq<Action> {
    Opening(5) + Strokes(keys, holdMs) + [Taken(RELEASED)]
  }

  function Reports(d: seq<Action>): nat {
    if d == [] then 0 else Reports(d[..|d| - 1]) + (if d[|d| - 1].Taken? then 1 else 0)
  }

  lemma {:induction false} ReportsStep(d: seq<Action>, a: Action)
    ensures Reports(d + [a]) == Reports(d) + (if a.Taken? then 1 else 0)
  {
    assert (d + [a])[..|d|] == d;
  }

  lemma {:induction false} OpeningReports(n: nat)
    ensures Reports(Opening(n)) == 1
  {
    hide Reports;
    if n == 0 {
      FirstReport();
    } else {
      OpeningReports(n - 1);
      ReportsStep(Opening(n - 1), Rested(1000));
    }
  }

  lemma FirstReport()
    ensures Reports([Taken(RELEASED)]) == 1
  {}

  lemma {:induction false} StrokeReports(d: seq<Action>, key: Report, holdMs: nat)
    ensures Reports(d + Stroke(key, holdMs)) == Reports(d) + 2
  {
    hide Reports;
    var d1 := d + [Taken(key)];
    var d2 := d1 + [Rested(holdMs)];
    var d3 := d2 + [Taken(RELEASED)];
    ReportsStep(d, Taken(key));
    ReportsStep(d1, Rested(holdMs));
    ReportsStep(d2, Taken(RELEASED));
    ReportsStep(d3, Rested(SETTLE_MS));
    assert d + Stroke(key, holdMs) == d3 + [Rested(SETTLE_MS)];
  }

  lemma {:induction false} StrokesReports(d: seq<Action>, keys: seq<Report>, holdMs: nat)
    ensures Reports(d + Strokes(keys, holdMs)) == Reports(d) + 2 * |keys|
  {
    hide Reports, Stroke;
    if keys == [] {
      assert d + [] == d;
    } else {
      var init, last := keys[..|keys| - 1], keys[|keys| - 1];
      StrokesReports(d, init, holdMs);
      StrokeReports(d + Strokes(init, holdMs), last, holdMs);
      assert d + Strokes(keys, holdMs) == d + Strokes(init, holdMs) + Stroke(last, holdMs);
    }
  }

  /** A test of n characters without incident has the link take 2n + 2 reports. */
  lemma ScriptReports(keys: seq<Report>, holdMs: nat)
    ensures Reports(Script(keys, holdMs)) == 2 * |keys| + 2
  {
    hide Reports, Opening, Strokes;
    OpeningReports(5);
    StrokesReports(Opening(5), keys, holdMs);
    ReportsStep(Opening(5) + Strokes(keys, holdMs), Taken(RELEASED));
  }

  /** The milliseconds of all pauses, those cut short counted whole or not at all. */
  function Pauses(d: seq<Action>, whole: bool): nat {
    if d == [] then 0
    else
      Pauses(d[..|d| - 1], whole)
      + (match d[|d| - 1] case Taken(_) => 0 case Rested(ms) => ms case CutShort(ms) => if whole then ms else 0)
  }

  lemma {:induction false} PausesStep(d: seq<Action>, a: Action, whole: bool)
    ensures Pauses(d + [a], whole) ==
      Pauses(d, whole) + (match a case Taken(_) => 0 case Rested(ms) => ms case CutShort(ms) => if whole then ms else 0)
  {
    assert (d + [a])[..|d|] == d;
  }

  lemma {:induction false} OpeningPauses(n: nat, whole: bool)
    ensures Pauses(Opening(n), whole) == 1000 * n
  {
    hide Pauses;
    if n == 0 {
      NoPauses(whole);
      PausesStep([], Taken(RELEASED), whole);
      assert [] + [Taken(RELEASED)] == [Taken(RELEASED)];
    } else {
      OpeningPauses(n - 1, whole);
      PausesStep(Opening(n - 1), Rested(1000), whole);
    }
  }

  lemma {:induction false} NoPauses(whole: bool)
    ensures Pauses([], whole) == 0
  {}

  lemma {:induction false} StrokePauses(d: seq<Action>, key: Report, holdMs: nat, whole: bool)
    ensures Pauses(d + Stroke(key, holdMs), whole) == Pauses(d, whole) + holdMs + 60
  {
    hide Pauses;
    var d1 := d + [Taken(key)];
    var d2 := d1 + [Rested(holdMs)];
    var d3 := d2 + [Taken(RELEASED)];
    PausesStep(d, Taken(key), whole);
    PausesStep(d1, Rested(holdMs), whole);
    PausesStep(d2, Taken(RELEASED), whole);
    PausesStep(d3, Rested(SETTLE_MS), whole);
    assert d + Stroke(key, holdMs) == d3 + [Rested(SETTLE_MS)];
  }

  lemma {:induction false} StrokesPauses(d: seq<Action>, keys: seq<Report>, holdMs: nat, whole: bool)
    ensures Pauses(d + Strokes(keys, holdMs), whole) == Pauses(d, whole) + |keys| * (holdMs + 60)
  {
    hide Pauses, Stroke;
    if keys == [] {
      assert d + [] == d;
    } else {
      var init, last := keys[..|keys| - 1], keys[|keys| - 1];
      StrokesPauses(d, init, holdMs, whole);
      StrokePauses(d + Strokes(init, holdMs), last, holdMs, whole);
      assert d + Strokes(keys, holdMs) == d + Strokes(init, holdMs) + Stroke(last, holdMs);
      OneMore(|init|, holdMs + 60);
    }
  }

  lemma OneMore(n: nat, m: nat)
    ensures (n + 1) * m == n * m + m
  {}

  /** A test of n characters without incident pauses five seconds, and the hold and sixty milliseconds for each. */
  lemma {:induction false} ScriptPauses(keys: seq<Report>, holdMs: nat, whole: bool)
    ensures Pauses(Script(keys, holdMs), whole) == 5000 + |keys| * (holdMs + 60)
  {
    hide Pauses, Opening, Strokes;
    OpeningPauses(5, whole);
    StrokesPauses(Opening(5), keys, holdMs, whole);
    PausesStep(Opening(5) + Strokes(keys, holdMs), Taken(RELEASED), whole);
  }

  /** Every character of the text has a key. */
  predicate Typable(text: string) { forall i :: 0 <= i < |text| ==> CharacterReport(text[i]).Some? }

  function KeysFor(text: string): (keys: seq<Report>)
    requires Typable(text)
    ensures |keys| == |text|
  {
    if text == "" then [] else KeysFor(text[..|text| - 1]) + [CharacterReport(text[|text| - 1]).report]
  }

  /** The first n characters of the pattern repeated. */
  function Pattern(n: nat): (text: string)
    ensures |text| == n
  {
    seq(n, i requires 0 <= i < n => CALIBRATION_PATTERN[i % 36])
  }

  class Runtime {
    const link: Link
    ghost var trace: seq<Event>
    /** The ticks slept since the test began. */
    ghost var ticks: nat

    constructor (link: Link)
      ensures this.link == link && trace == [] && ticks == 0
    {
      this.link := link;
      trace, ticks := [], 0;
    }

    /** What was slept is what the pauses asked for, and at most that in those cut short. */
    ghost predicate Clocked()
      reads this
    {
      Pauses(Done(trace), false) <= ticks <= Pauses(Done(trace), true)
    }

    /** A run that is over and still connected tried an all-zero report last, if it tried anything. */
    ghost predicate LetGo()
      reads this, link
    {
      trace != [] && link.connected ==> IsRelease(trace[|trace| - 1])
    }

    method SendReport(report: Report) returns (accepted: bool)
      requires link.Valid() && Clocked()
      modifies this`trace, link.Repr()
      ensures trace == old(trace) + [Sent(report, accepted)]
      ensures link.Valid() && link.Elapsed() && Clocked()
      ensures Asked(old(trace)) && (report == RELEASED || GoingOn(old(trace))) ==> Asked(trace)
      ensures Stops(trace) == Stops(old(trace)) && (!Calm(old(trace)) || !accepted ==> !Calm(trace))
    {
      hide link.Valid, Done, Pauses, Asked, Stops, Calm, Presses, Lifted, Ordered, EndsReleasing;
      link.Elapse();
      accepted := *;
      Append(trace, Sent(report, accepted));
      if Asked(trace) && (report == RELEASED || GoingOn(trace)) { AskedNext(trace, Sent(report, accepted)); }
      SendingTakesNoTime(report, accepted);
      trace := trace + [Sent(report, accepted)];
      link.Elapse();
    }

    lemma SendingTakesNoTime(report: Report, accepted: bool)
      ensures Pauses(Done(trace + [Sent(report, accepted)]), true) == Pauses(Done(trace), true)
      ensures Pauses(Done(trace + [Sent(report, accepted)]), false) == Pauses(Done(trace), false)
    {
      hide Done, Pauses;
      Append(trace, Sent(report, accepted));
      assert Done(trace) + [] == Done(trace);
      PausesStep(Done(trace), Taken(report), true);
      PausesStep(Done(trace), Taken(report), false);
    }

    method Look() returns (verdict: HidResult)
      requires link.Valid() && Clocked()
      modifies this`trace, link.Repr()
      ensures link.Valid() && link.Elapsed() && Clocked() && trace == old(trace) + [Looked(verdict)]
      ensures verdict == if !link.connected then HID_DISCONNECTED else if link.stopRequested then HID_STOPPED
        else HID_OK
      ensures Presses(trace) == Presses(old(trace)) && (Ordered(old(trace)) ==> Ordered(trace))
      ensures Lifted(trace) == Lifted(old(trace)) && EndsReleasing(trace) == EndsReleasing(old(trace))
      ensures Done(trace) == Done(old(trace)) && (Asked(old(trace)) ==> Asked(trace))
      ensures Stops(trace) == Stops(old(trace)) + (if verdict == HID_OK then [] else [verdict])
      ensures !Calm(old(trace)) || verdict != HID_OK ==> !Calm(trace)
    {
      hide link.Valid, Done, Presses, Lifted, Ordered, EndsReleasing, Pauses, Asked, Stops, Calm;
      link.Elapse();
      verdict := HID_OK;
      if link.stopRequested || !link.connected { verdict := if link.connected then HID_STOPPED else HID_DISCONNECTED; }
      Append(trace, Looked(verdict));
      if Asked(trace) { AskedNext(trace, Looked(verdict)); }
      assert Done(trace) + [] == Done(trace) && Presses(trace) + [] == Presses(trace);
      trace := trace + [Looked(verdict)];
    }

    method WaitMs(delayMs: nat) returns (result: HidResult)
      requires link.Valid() && Clocked()
      modifies this`trace, this`ticks, link.Repr()
      ensures result in {HID_OK, HID_STOPPED, HID_DISCONNECTED, HID_WAIT_FAILED}
      ensures old(trace) <= trace && Presses(trace) == Presses(old(trace)) && (Ordered(old(trace)) ==> Ordered(trace))
      ensures Lifted(trace) == Lifted(old(trace)) && EndsReleasing(trace) == EndsReleasing(old(trace))
      ensures Done(trace) == Done(old(trace))
        + (if result == HID_OK then [Rested(delayMs)] else if result == HID_WAIT_FAILED then [CutShort(delayMs)]
          else [])
      ensures link.Valid() && link.Elapsed() && Clocked() && (Asked(old(trace)) ==> Asked(trace))
      ensures Stops(trace) == Stops(old(trace)) + (if result in {HID_STOPPED, HID_DISCONNECTED} then [result] else [])
      ensures !Calm(old(trace)) || result != HID_OK ==> !Calm(trace)
    {
      hide link.Valid, Done, Presses, Lifted, Ordered, EndsReleasing, Pauses, Sum, Asked, Stops, Calm;
      result := Look();
      assert Done(trace) + [] == Done(trace);
      assert Stops(trace) + [] == Stops(trace);
      if result != HID_OK { return result; }
      ghost var slices: seq<nat>;
      var waited: bool;
      waited, slices := TickWait.WaitMs(link, delayMs);
      NotePause(delayMs, waited, Sum(slices));
      return if waited then HID_OK else HID_WAIT_FAILED;
    }

    ghost method NotePause(ms: nat, ok: bool, slept: nat)
      requires Clocked() && slept <= ms && (ok ==> slept == ms)
      modifies this`trace, this`ticks
      ensures Clocked() && trace == old(trace) + [Paused(ms, ok)] && ticks == old(ticks) + slept
      ensures Done(trace) == Done(old(trace)) + [if ok then Rested(ms) else CutShort(ms)]
      ensures Presses(trace) == Presses(old(trace)) && (Ordered(old(trace)) ==> Ordered(trace))
      ensures Lifted(trace) == Lifted(old(trace)) && EndsReleasing(trace) == EndsReleasing(old(trace))
      ensures Stops(trace) == Stops(old(trace)) && (!Calm(old(trace)) || !ok ==> !Calm(trace))
      ensures Asked(old(trace)) && GoingOn(old(trace)) ==> Asked(trace)
    {
      hide Done, Presses, Lifted, Ordered, EndsReleasing, Pauses, Asked, Stops, Calm;
      Append(trace, Paused(ms, ok));
      if Asked(trace) && GoingOn(trace) { AskedNext(trace, Paused(ms, ok)); }
      assert Presses(trace) + [] == Presses(trace) && Stops(trace) + [] == Stops(trace);
      PausesStep(Done(trace), if ok then Rested(ms) else CutShort(ms), false);
      PausesStep(Done(trace), if ok then Rested(ms) else CutShort(ms), true);
      trace, ticks := trace + [Paused(ms, ok)], ticks + slept;
    }

    method KeyDown(report: Report) returns (result: HidResult)
      requires link.Valid() && Clocked() && IsPress(Sent(report, true))
      modifies this`trace, link.Repr()
      ensures result in {HID_OK, HID_DISCONNECTED, HID_SEND_FAILED}
      ensures result == HID_DISCONNECTED <==> !old(link.connected)
      ensures trace == old(trace) + [if result == HID_DISCONNECTED then LinkDown else Sent(report, result == HID_OK)]
      ensures link.Valid() && link.Elapsed() && Clocked()
      ensures Asked(old(trace)) && GoingOn(old(trace)) ==> Asked(trace)
      ensures Stops(trace) == Stops(old(trace)) && (!Calm(old(trace)) || result != HID_OK ==> !Calm(trace))
    {
      hide link.Valid, Done, Pauses, Asked, Stops, Calm, Presses, Lifted, Ordered, EndsReleasing;
      if !link.connected {
        FoundDown();
        return HID_DISCONNECTED;
      }
      var accepted := SendReport(report);
      return if accepted then HID_OK else HID_SEND_FAILED;
    }

    ghost method FoundDown()
      requires Clocked()
      modifies this`trace
      ensures Clocked() && trace == old(trace) + [LinkDown] && Done(trace) == Done(old(trace))
      ensures Presses(trace) == Presses(old(trace)) && (Ordered(old(trace)) ==> Ordered(trace)) && EndsReleasing(trace)
      ensures Stops(trace) == Stops(old(trace)) && !Calm(trace) && (Asked(old(trace)) ==> Asked(trace))
    {
      hide Done, Pauses, Asked, Stops, Calm, Presses, Lifted, Ordered, EndsReleasing;
      if Asked(trace) { AskedNext(trace, LinkDown); }
      Append(trace, LinkDown);
      assert Done(trace) + [] == Done(trace) && Stops(trace) + [] == Stops(trace);
      assert Presses(trace) + [] == Presses(trace);
      trace := trace + [LinkDown];
    }

    /** Up to three all-zero reports, until one is taken. */
    method ReleaseAll() returns (result: HidResult)
      requires link.Valid() && Clocked()
      modifies this`trace, link.Repr()
      ensures result in {HID_OK, HID_DISCONNECTED, HID_SEND_FAILED}
      ensures old(trace) < trace && |trace| <= |old(trace)| + RELEASE_MAX_ATTEMPTS && EndsReleasing(trace)
      ensures Presses(trace) == Presses(old(trace)) && (Ordered(old(trace)) ==> Ordered(trace))
      ensures Done(trace) == Done(old(trace)) + (if result == HID_OK then [Taken(RELEASED)] else [])
      ensures result == HID_OK ==> Lifted(trace)
      ensures forall i :: |old(trace)| <= i < |trace| - 1 ==> trace[i] == Sent(RELEASED, false)
      ensures trace[|trace| - 1] == if result == HID_DISCONNECTED then LinkDown else Sent(RELEASED, result == HID_OK)
      ensures result == HID_DISCONNECTED ==> |trace| == |old(trace)| + 1
      ensures result == HID_DISCONNECTED <==> !old(link.connected)
      ensures Stops(trace) == Stops(old(trace)) && (!Calm(old(trace)) || result != HID_OK ==> !Calm(trace))
      ensures result == HID_SEND_FAILED ==> |trace| == |old(trace)| + 3
      ensures LetGo()
      ensures link.Valid() && link.Elapsed() && Clocked() && (Asked(old(trace)) ==> Asked(trace))
    {
      hide link.Valid, Done, Presses, Lifted, Ordered, EndsReleasing, Pauses, Asked,
        Stops, Calm;
      if !link.connected {
        FoundDown();
        return HID_DISCONNECTED;
      }
      for attempt := 0 to RELEASE_MAX_ATTEMPTS
        invariant old(trace) <= trace && |trace| == |old(trace)| + attempt
        invariant attempt > 0 ==> EndsReleasing(trace)
        invariant Presses(trace) == Presses(old(trace)) && (Ordered(old(trace)) ==> Ordered(trace))
        invariant Done(trace) == Done(old(trace))
        invariant link.Valid() && link.Elapsed() && Clocked() && (Asked(old(trace)) ==> Asked(trace))
        invariant forall i :: |old(trace)| <= i < |trace| ==> trace[i] == Sent(RELEASED, false)
        invariant Stops(trace) == Stops(old(trace)) && (!Calm(old(trace)) || attempt > 0 ==> !Calm(trace))
      {
        ghost var t := trace;
        var accepted := SendReport(RELEASED);
        Append(t, Sent(RELEASED, accepted));
        if accepted { return HID_OK; }
      }
      return HID_SEND_FAILED;
    }

    /** Press, hold, release, settle; whatever goes wrong, a further release. */
    method SendCharacter(c: char, holdMs: nat) returns (result: HidResult)
      requires link.Valid() && Clocked() && Asked(trace)
      requires Ordered(trace) && Lifted(trace) && GoingOn(trace)
      modifies this`trace, this`ticks, link.Repr()
      ensures old(trace) <= trace && Ordered(trace)
      ensures CharacterReport(c).NoReport? ==> result == HID_INVALID_ARGUMENT && trace == old(trace)
      ensures result == HID_OK ==> Lifted(trace)
      ensures result == HID_OK ==> Done(trace) == Done(old(trace)) + Stroke(CharacterReport(c).report, holdMs)
      ensures result == HID_OK ==> Presses(trace) == Presses(old(trace)) + [CharacterReport(c).report]
      ensures CharacterReport(c).Some? ==> Presses(trace) <= Presses(old(trace)) + [CharacterReport(c).report]
      ensures Presses(old(trace)) <= Presses(trace)
      ensures link.Valid() && Clocked() && Asked(trace)
      ensures CharacterReport(c).Some? ==> result != HID_INVALID_ARGUMENT && result != HID_BUSY
      ensures Stops(trace) == Stops(old(trace)) || (Stops(trace) == Stops(old(trace)) + [result] && result != HID_OK)
      ensures result == HID_STOPPED ==> Stops(trace) == Stops(old(trace)) + [result]
      ensures CharacterReport(c).Some? && result != HID_OK ==> !Calm(trace) && EndsReleasing(trace) && LetGo()
    {
      hide link.Valid, Done, Opening, Stroke, Script, Reports, Presses, Lifted, Ordered, EndsReleasing, Pauses, Asked,
        CharacterReport, Stops, Calm;
      if CharacterReport(c).NoReport? { return HID_INVALID_ARGUMENT; }
      KeyIsPress(c);
      result := TypeKey(CharacterReport(c).report, holdMs);
      if result != HID_OK { var ignored := ReleaseAll(); }
    }

    /** The four steps, up to the first that goes wrong. */
    method TypeKey(key: Report, holdMs: nat) returns (result: HidResult)
      requires link.Valid() && Clocked() && Asked(trace)
      requires Ordered(trace) && Lifted(trace) && GoingOn(trace) && IsPress(Sent(key, true))
      modifies this`trace, this`ticks, link.Repr()
      ensures old(trace) <= trace && Ordered(trace)
      ensures result == HID_OK ==> Lifted(trace) && Done(trace) == Done(old(trace)) + Stroke(key, holdMs)
      ensures result == HID_OK ==> Presses(trace) == Presses(old(trace)) + [key]
      ensures Presses(old(trace)) <= Presses(trace) <= Presses(old(trace)) + [key]
      ensures link.Valid() && Clocked() && Asked(trace)
      ensures result != HID_INVALID_ARGUMENT && result != HID_BUSY
      ensures Stops(trace) == Stops(old(trace)) || (Stops(trace) == Stops(old(trace)) + [result] && result != HID_OK)
      ensures result == HID_STOPPED ==> Stops(trace) == Stops(old(trace)) + [result]
      ensures result != HID_OK ==> !Calm(trace)
    {
      hide link.Valid, Done, Opening, Stroke, Script, Reports, Presses, Lifted, Ordered, EndsReleasing, Pauses, Asked,
        Stops, Calm;
      ghost var t := trace;
      assert t + [] == t;
      StrokeParts(Done(t), key, holdMs);
      Append(t, Sent(key, true));
      Append(t, Sent(key, false));
      Append(t, LinkDown);
      link.Elapse();
      result := KeyDown(key);
      if result != HID_OK { return result; }
      result := WaitMs(holdMs);
      if result != HID_OK { return result; }
      result := ReleaseAll();
      if result != HID_OK { return result; }
      result := WaitMs(SETTLE_MS);
    }

    /** The first release and the five-second countdown. */
    method BeginTest() returns (result: HidResult)
      requires link.Valid() && Clocked() && Asked(trace)
      requires trace == []
      modifies this, link.Repr()
      ensures Ordered(trace) && Presses(trace) == [] && EndsReleasing(trace)
      ensures result == HID_OK ==> Lifted(trace) && Done(trace) == Opening(5) && Stops(trace) == []
      ensures result == HID_OK ==>
        old(link.happenings) + [Happening(old(link.now), OwnBegin)] <= link.happenings && link.start == old(link.start)
      ensures result != HID_OK ==> LetGo()
      ensures trace == [] <==> !old(link.connected) || old(link.running)
      ensures trace == [] ==> result == if old(link.connected) then HID_BUSY else HID_DISCONNECTED
      ensures trace != [] ==> Explained(trace, result) && result !in {HID_BUSY, HID_INVALID_ARGUMENT}
      ensures trace != [] && result != HID_OK ==> link.View() == link.last.(running := false)
      ensures link.Valid() && Clocked() && Asked(trace)
    {
      hide link.Valid, Done, Opening, Stroke, Script, Reports, Presses, Lifted, Ordered, EndsReleasing, Pauses, Asked,
        Stops, Calm;
      NothingSent();
      if !link.connected { return HID_DISCONNECTED; }
      if link.running { return HID_BUSY; }
      link.BeginRun();
      link.Elapse();
      result := ReleaseAll();
      if result != HID_OK {
        link.EndRun(false);
        return result;
      }
      FirstSecond();
      result := FiveSeconds();
    }

    /** The countdown; a broken second ends in a release. */
    method FiveSeconds() returns (result: HidResult)
      requires link.Valid() && Clocked() && Asked(trace)
      requires Ordered(trace) && Presses(trace) == [] && EndsReleasing(trace) && Lifted(trace)
      requires trace != [] && Done(trace) == Opening(0) && Stops(trace) == []
      modifies this, link.Repr()
      ensures Ordered(trace) && Presses(trace) == [] && EndsReleasing(trace)
      ensures result == HID_OK ==> Lifted(trace) && Done(trace) == Opening(5) && Stops(trace) == [] && link.Elapsed()
      ensures Explained(trace, result) && result !in {HID_BUSY, HID_INVALID_ARGUMENT}
      ensures trace != [] && (result != HID_OK ==> LetGo() && link.View() == link.last.(running := false))
      ensures link.Valid() && Clocked() && Asked(trace)
    {
      hide link.Valid, Done, Opening, Stroke, Script, Reports, Presses, Lifted, Ordered, EndsReleasing, Pauses, Asked,
        Stops, Calm;
      FirstSecond();
      for seconds := 5 downto 0
        invariant Ordered(trace) && Presses(trace) == [] && EndsReleasing(trace) && Lifted(trace)
        invariant Done(trace) == Opening(5 - seconds)
        invariant trace != [] && Stops(trace) == []
        invariant link.Valid() && link.Elapsed() && Clocked() && Asked(trace)
      {
        result := WaitMs(1000);
        if result != HID_OK {
          var ignored := ReleaseAll();
          link.EndRun(false);
          return result;
        }
      }
      return HID_OK;
    }

    method FinishTest(error: HidResult) returns (result: HidResult)
      requires link.Valid() && Clocked()
      modifies this, link.Repr()
      ensures old(trace) < trace && |trace| <= |old(trace)| + RELEASE_MAX_ATTEMPTS && EndsReleasing(trace)
      ensures Presses(trace) == Presses(old(trace)) && (Ordered(old(trace)) ==> Ordered(trace))
      ensures result == HID_OK ==> error == HID_OK && Done(trace) == Done(old(trace)) + [Taken(RELEASED)]
      ensures error != HID_OK ==> result == error
      ensures result in {error, HID_SEND_FAILED, HID_DISCONNECTED}
      ensures Stops(trace) == Stops(old(trace)) && (!Calm(old(trace)) || result != error ==> !Calm(trace))
      ensures !link.running && !link.stopRequested
      ensures LetGo()
      ensures link.Valid() && Clocked() && (Asked(old(trace)) ==> Asked(trace))
    {
      hide link.Valid, Done, Opening, Stroke, Script, Reports, Presses, Lifted, Ordered, EndsReleasing, Pauses, Asked,
        Stops, Calm;
      var releaseError := ReleaseAll();
      link.EndRun(true);
      if error == HID_OK && releaseError != HID_OK { return releaseError; }
      return error;
    }

    /** The character loop of both tests. */
    method TypeText(text: string, holdMs: nat) returns (result: HidResult)
      requires link.Valid() && Clocked() && Asked(trace)
      requires Typable(text) && Stops(trace) == []
      requires Ordered(trace) && Lifted(trace) && Presses(trace) == [] && Done(trace) == Opening(5)
      modifies this, link.Repr()
      ensures Ordered(trace) && trace != [] && EndsReleasing(trace)
      ensures Presses(trace) <= KeysFor(text) && !link.running && !link.stopRequested
      ensures result == HID_OK ==> Done(trace) == Script(KeysFor(text), holdMs)
      ensures LetGo() && Explained(trace, result) && result !in {HID_BUSY, HID_INVALID_ARGUMENT}
      ensures link.Valid() && Clocked() && Asked(trace)
    {
      hide link.Valid, Done, Opening, Stroke, Script, Reports, Presses, Lifted, Ordered, EndsReleasing, Pauses, Asked,
        CharacterReport, KeysFor, Strokes, Stops, Calm;
      NothingTyped(text, holdMs);
      for index := 0 to |text|
        invariant Ordered(trace) && Lifted(trace) && Presses(trace) == KeysFor(text[..index])
        invariant Done(trace) == Opening(5) + Strokes(KeysFor(text[..index]), holdMs)
        invariant link.Valid() && Clocked() && Asked(trace) && Stops(trace) == []
      {
        KeysForNext(text, index, holdMs);
        ghost var key := CharacterReport(text[index]).report;
        assert Opening(5) + Strokes(KeysFor(text[..index]), holdMs) + Stroke(key, holdMs)
          == Opening(5) + (Strokes(KeysFor(text[..index]), holdMs) + Stroke(key, holdMs));
        result := Look();
        if result != HID_OK {
          result := FinishTest(result);
          return result;
        }
        result := SendCharacter(text[index], holdMs);
        if result != HID_OK {
          result := FinishTest(result);
          return result;
        }
      }
      assert text[..|text|] == text;
      ScriptParts(KeysFor(text), holdMs);
      result := FinishTest(HID_OK);
    }

    method RunTest(holdMs: nat, characterCount: nat) returns (result: HidResult)
      requires link.Valid()
      modifies this, link.Repr()
      ensures Ordered(trace) && EndsReleasing(trace)
      ensures result == HID_INVALID_ARGUMENT <==>
        holdMs !in {8, 12, 16, 20, 30} || characterCount == 0 || characterCount > 1080
      ensures trace == [] <==> result == HID_INVALID_ARGUMENT || !old(link.connected) || old(link.running)
      ensures trace != [] ==> Explained(trace, result) && !link.running
      ensures Typable(Pattern(characterCount)) && Presses(trace) <= KeysFor(Pattern(characterCount))
      ensures result == HID_OK ==>
        Done(trace) == Script(KeysFor(Pattern(characterCount)), holdMs)
          && Reports(Done(trace)) == 2 * characterCount + 2
          && ticks == 5000 + characterCount * (holdMs + 60)
      ensures LetGo()
      ensures link.Valid() && Asked(trace)
    {
      hide link.Valid, Done, Opening, Stroke, Script, Reports, Presses, Lifted, Ordered, EndsReleasing,
        CharacterReport, Strokes, KeysFor, Pauses, Asked, Stops, Calm;
      trace, ticks := [], 0;
      NothingSent();
      NoPauses(true);
      NoPauses(false);
      PatternTypable(characterCount);
      if !HoldSupported(holdMs) || characterCount == 0 || characterCount > MAX_CHARACTERS {
        return HID_INVALID_ARGUMENT;
      }
      result := BeginTest();
      if result != HID_OK { return result; }
      ScriptReports(KeysFor(Pattern(characterCount)), holdMs);
      ScriptPauses(KeysFor(Pattern(characterCount)), holdMs, true);
      ScriptPauses(KeysFor(Pattern(characterCount)), holdMs, false);
      result := TypeText(Pattern(characterCount), holdMs);
    }

    method RunShiftTest(holdMs: nat) returns (result: HidResult)
      requires link.Valid()
      modifies this, link.Repr()
      ensures Ordered(trace) && EndsReleasing(trace)
      ensures result == HID_INVALID_ARGUMENT <==> holdMs !in {8, 12, 16, 20, 30}
      ensures trace == [] <==> result == HID_INVALID_ARGUMENT || !old(link.connected) || old(link.running)
      ensures trace != [] ==> Explained(trace, result) && !link.running
      ensures Typable(SHIFT_SEQUENCE) && Presses(trace) <= KeysFor(SHIFT_SEQUENCE)
      ensures result == HID_OK ==>
        Done(trace) == Script(KeysFor(SHIFT_SEQUENCE), holdMs) && Reports(Done(trace)) == 14
          && ticks == 5000 + 6 * (holdMs + 60)
      ensures LetGo()
      ensures link.Valid() && Asked(trace)
    {
      ShiftTypable();
      hide link.Valid, Done, Opening, Stroke, Script, Reports, Presses, Lifted, Ordered, EndsReleasing,
        CharacterReport, Strokes, KeysFor, Pauses, Asked, Stops, Calm;
      trace, ticks := [], 0;
      NothingSent();
      NoPauses(true);
      NoPauses(false);
      if !HoldSupported(holdMs) { return HID_INVALID_ARGUMENT; }
      result := BeginTest();
      if result != HID_OK { return result; }
      ScriptReports(KeysFor(SHIFT_SEQUENCE), holdMs);
      ScriptPauses(KeysFor(SHIFT_SEQUENCE), holdMs, true);
      ScriptPauses(KeysFor(SHIFT_SEQUENCE), holdMs, false);
      result := TypeText(SHIFT_SEQUENCE, holdMs);
    }
  }

  lemma KeyIsPress(c: char)
    requires CharacterReport(c).Some?
    ensures IsPress(Sent(CharacterReport(c).report, true)) && IsPress(Sent(CharacterReport(c).report, false))
  {}

  lemma NothingSent()
    ensures Done([]) == [] && Presses([]) == [] && Lifted([]) && Ordered([]) && EndsReleasing([])
      && Asked([]) && Stops([]) == []
  {}

  lemma {:induction false} ScriptParts(keys: seq<Report>, holdMs: nat)
    ensures Script(keys, holdMs) == Opening(5) + Strokes(keys, holdMs) + [Taken(RELEASED)]
  {}

  lemma StrokeParts(d: seq<Action>, key: Report, holdMs: nat)
    ensures d + [Taken(key)] + [Rested(holdMs)] + [Taken(RELEASED)] + [Rested(SETTLE_MS)] == d + Stroke(key, holdMs)
  {}

  lemma FirstSecond()
    ensures Opening(0) == [Taken(RELEASED)]
    ensures forall n :: n > 0 ==> Opening(n) == Opening(n - 1) + [Rested(1000)]
  {}

  lemma {:induction false} NothingTyped(text: string, holdMs: nat)
    requires Typable(text)
    ensures KeysFor(text[..0]) == [] && Strokes([], holdMs) == [] && Opening(5) + [] == Opening(5)
  {}

  lemma PatternTypable(n: nat)
    ensures Typable(Pattern(n))
  {
    hide CharacterReport;
    forall i | 0 <= i < n ensures CharacterReport(Pattern(n)[i]).Some? {
      PatternCharKey(i % 36);
    }
  }

  /** The pattern is typed with the usages of the letters in order, then those of the digits, 0 first. */
  lemma PatternKey(n: nat, i: nat)
    requires i < n
    ensures CharacterReport(Pattern(n)[i]) ==
      Some(Report(0, if i % 36 < 26 then 0x04 + i % 36 else if i % 36 == 26 then 0x27 else 0x1e + (i % 36 - 27)))
  {
    PatternCharKey(i % 36);
    hide CharacterReport;
  }

  lemma PatternCharKey(i: nat)
    requires i < 36
    ensures CharacterReport(CALIBRATION_PATTERN[i]) ==
      Some(Report(0, if i < 26 then 0x04 + i else if i == 26 then 0x27 else 0x1e + (i - 27)))
  {}

  /** Shift for the capital, the exclamation mark, the underscore and the braces. */
  lemma ShiftKeys()
    ensures Typable(SHIFT_SEQUENCE) && |SHIFT_SEQUENCE| == 6
    ensures KeysFor(SHIFT_SEQUENCE) ==
      [Report(2, 0x04), Report(0, 0x04), Report(2, 0x1e), Report(2, 0x2d), Report(2, 0x2f), Report(2, 0x30)]
  {
    assert |SHIFT_SEQUENCE| == 6;
    KeyAt(SHIFT_SEQUENCE, 0);
    KeyAt(SHIFT_SEQUENCE, 1);
    KeyAt(SHIFT_SEQUENCE, 2);
    KeyAt(SHIFT_SEQUENCE, 3);
    KeyAt(SHIFT_SEQUENCE, 4);
    KeyAt(SHIFT_SEQUENCE, 5);
    hide KeysFor;
  }

  lemma {:induction false} KeyAt(text: string, i: nat)
    requires Typable(text) && i < |text|
    ensures KeysFor(text)[i] == CharacterReport(text[i]).report
  {
    hide CharacterReport;
    if i < |text| - 1 {
      KeyAt(text[..|text| - 1], i);
      assert KeysFor(text)[i] == KeysFor(text[..|text| - 1])[i];
    }
  }

  lemma ShiftTypable()
    ensures Typable(SHIFT_SEQUENCE) && |SHIFT_SEQUENCE| == 6
  {}

  lemma {:induction false} KeysForPrefix(text: string, i: nat)
    requires Typable(text) && i <= |text|
    ensures Typable(text[..i]) && KeysFor(text[..i]) <= KeysFor(text)
    decreases |text| - i
  {
    hide CharacterReport;
    if i < |text| {
      KeysForPrefix(text, i + 1);
      assert text[..i + 1][..i] == text[..i];
    } else {
      assert text[..i] == text;
    }
  }

  lemma {:induction false} KeysForNext(text: string, i: nat, holdMs: nat)
    requires Typable(text) && i < |text|
    ensures Typable(text[..i]) && Typable(text[..i + 1])
    ensures KeysFor(text[..i + 1]) == KeysFor(text[..i]) + [CharacterReport(text[i]).report]
    ensures KeysFor(text[..i + 1]) <= KeysFor(text) && KeysFor(text[..i]) <= KeysFor(text)
    ensures Strokes(KeysFor(text[..i + 1]), holdMs) == Strokes(KeysFor(text[..i]), holdMs)
      + Stroke(CharacterReport(text[i]).report, holdMs)
  {
    hide CharacterReport;
    KeysForPrefix(text, i);
    KeysForPrefix(text, i + 1);
    assert text[..i + 1][..i] == text[..i];
    var keys := KeysFor(text[..i + 1]);
    assert keys[..i] == KeysFor(text[..i]);
  }
}
