/**
 The safety-release machine of the HID link: after a connection nothing may be typed until both
 reports were released for it. Values specify the object; runs of events are runs on values.
 */
module ExecutionSafety {
  import opened Bytes

  const MAX_ATTEMPTS: nat := 6
  const GENERATIONS: nat := 0xffff_ffff

  datatype HidState = DISCONNECTED | WAITING_FOR_AUTH | WAITING_FOR_REPORT_PATH | RELEASING | CONFIRMED
    | FAILED_RETRYABLE

  datatype HidError =
    | NO_ERROR | HID_NOT_CONNECTED | AUTH_PENDING | AUTH_FAILED | REPORT_PATH_PENDING
    | KEYBOARD_REPORT_FAILED | CONSUMER_REPORT_FAILED | REPORTS_FAILED

  datatype Link = Link(connected: bool, authenticated: bool, state: HidState, error: HidError, attempts: nat,
    generation: u32)

  datatype Event =
    | Connect
    | Disconnect
    | Authenticate(success: bool)
    | BeginRelease(generation: u32)
    | CompleteRelease(generation: u32, keyboard: bool, consumer: bool)
    | Retry

  const BOOTED := Link(false, false, DISCONNECTED, HID_NOT_CONNECTED, 0, 0)

  /** A 32-bit increment that skips zero. */
  function NextGeneration(g: u32): (next: u32)
    ensures next != 0
  {
    var wrapped := (g as nat + 1) % 0x1_0000_0000;
    if wrapped == 0 then 1 else wrapped
  }

  predicate MayBegin(l: Link, generation: u32) {
    && l.connected && l.authenticated && generation != 0 && generation == l.generation
    && l.attempts < MAX_ATTEMPTS && (l.state == WAITING_FOR_REPORT_PATH || l.state == FAILED_RETRYABLE)
  }

  predicate MayComplete(l: Link, generation: u32) {
    generation != 0 && generation == l.generation && l.connected && l.authenticated && l.state == RELEASING
  }

  predicate MayRetry(l: Link) { l.connected && l.authenticated && l.state != RELEASING }

  function Step(l: Link, e: Event): Link {
    match e
    case Connect => Link(true, false, WAITING_FOR_AUTH, AUTH_PENDING, 0, NextGeneration(l.generation))
    case Disconnect => Link(false, false, DISCONNECTED, HID_NOT_CONNECTED, 0, NextGeneration(l.generation))
    case Authenticate(success) =>
      if !l.connected then l
      else if success then l.(authenticated := true, attempts := 0, state := WAITING_FOR_REPORT_PATH,
        error := REPORT_PATH_PENDING)
      else l.(authenticated := false, attempts := 0, state := FAILED_RETRYABLE, error := AUTH_FAILED)
    case BeginRelease(g) => if MayBegin(l, g) then l.(attempts := l.attempts + 1, state := RELEASING) else l
    case CompleteRelease(g, keyboard, consumer) =>
      if !MayComplete(l, g) then l
      else if keyboard && consumer then l.(state := CONFIRMED, error := NO_ERROR)
      else l.(state := FAILED_RETRYABLE,
              error := if !keyboard && !consumer then REPORTS_FAILED
                       else if !keyboard then KEYBOARD_REPORT_FAILED else CONSUMER_REPORT_FAILED)
    case Retry =>
      if !MayRetry(l) || l.state == CONFIRMED then l
      else l.(attempts := 0, state := WAITING_FOR_REPORT_PATH, error := REPORT_PATH_PENDING)
  }

  /** The link after a run of events from boot. */
  function Run(es: seq<Event>): Link {
    if es == [] then BOOTED else Step(Run(es[..|es| - 1]), es[|es| - 1])
  }

  predicate Ready(l: Link) { l.connected && l.authenticated && l.state == CONFIRMED }

  /** How a release task ends: refused an attempt, with the release confirmed, or by giving up. */
  datatype ReleaseEnd = REFUSED | RELEASED | GAVE_UP

  predicate EndedAs(l: Link, generation: u32, end: ReleaseEnd) {
    match end
    case REFUSED => !MayBegin(l, generation)
    case RELEASED => Ready(l)
    case GAVE_UP => !Ready(l) && (l.generation != generation || !l.connected || l.attempts >= MAX_ATTEMPTS)
  }

  /** Undisturbed, the attempt after `sent` others is on. */
  predicate UnderWay(l0: Link, l: Link, generation: u32, sent: nat) {
    && MayBegin(l0, generation) && MayComplete(l, generation)
    && l.attempts == l0.attempts + sent + 1 <= MAX_ATTEMPTS
  }

  /** What an undisturbed task does to the link. */
  predicate Quietly(l0: Link, l: Link, generation: u32, sent: nat, end: ReleaseEnd) {
    && (sent > 0 <==> MayBegin(l0, generation))
    && (sent == 0 ==> l == l0)
    && (sent > 0 ==>
          && l.attempts == l0.attempts + sent <= MAX_ATTEMPTS
          && l.state == (if end == RELEASED then CONFIRMED else FAILED_RETRYABLE)
          && (end != RELEASED ==> l.attempts == MAX_ATTEMPTS))
  }

  lemma QuietStart(l: Link, generation: u32)
    ensures if MayBegin(l, generation) then UnderWay(l, Step(l, BeginRelease(generation)), generation, 0)
            else Quietly(l, Step(l, BeginRelease(generation)), generation, 0, REFUSED)
  {}

  lemma QuietTurn(l0: Link, l: Link, generation: u32, sent: nat, keyboard: bool, consumer: bool)
    requires UnderWay(l0, l, generation, sent)
    ensures var done := Step(l, CompleteRelease(generation, keyboard, consumer));
      if Ready(done) then Quietly(l0, done, generation, sent + 1, RELEASED)
      else if done.generation != generation || !done.connected || done.attempts >= MAX_ATTEMPTS then
        Quietly(l0, done, generation, sent + 1, GAVE_UP)
      else
        MayBegin(done, generation) && UnderWay(l0, Step(done, BeginRelease(generation)), generation, sent + 1)
  {}

  lemma AttemptsOfBegin(l: Link, generation: u32)
    ensures Step(l, BeginRelease(generation)).attempts == l.attempts + (if MayBegin(l, generation) then 1 else 0)
  {}

  lemma AttemptsOfOwn(l: Link, generation: u32, keyboard: bool, consumer: bool)
    ensures Step(l, CompleteRelease(generation, keyboard, consumer)).attempts == l.attempts
  {}

  /** A refused begin changes nothing, so it is still refused. */
  lemma RefusedStays(l: Link, generation: u32)
    ensures !MayBegin(l, generation) ==> Step(l, BeginRelease(generation)) == l
  {}

  lemma AttemptsStep(l: Link, e: Event)
    requires l.attempts <= MAX_ATTEMPTS
    ensures if Resets(l, e) then Step(l, e).attempts == 0 else Step(l, e).attempts >= l.attempts
  {}

  // ---- The object -----------------------------------------------------------------------

  class Safety {
    var connected: bool
    var authenticated: bool
    var hidState: HidState
    var hidError: HidError
    var releaseAttempts: nat
    var connectionGeneration: u32

    function View(): Link
      reads this
    {
      Link(connected, authenticated, hidState, hidError, releaseAttempts, connectionGeneration)
    }

    constructor ()
      ensures View() == BOOTED
    {
      connected, authenticated, releaseAttempts, connectionGeneration := false, false, 0, 0;
      hidState, hidError := DISCONNECTED, HID_NOT_CONNECTED;
    }

    method BumpGeneration()
      modifies this`connectionGeneration
      ensures connectionGeneration == NextGeneration(old(connectionGeneration))
    {
      connectionGeneration := (connectionGeneration as nat + 1) % 0x1_0000_0000;
      if connectionGeneration == 0 {
        connectionGeneration := (connectionGeneration as nat + 1) % 0x1_0000_0000;
      }
    }

    method OnConnected() returns (generation: u32)
      modifies this
      ensures View() == Step(old(View()), Connect) && generation == View().generation
    {
      BumpGeneration();
      connected, authenticated, releaseAttempts := true, false, 0;
      hidState, hidError := WAITING_FOR_AUTH, AUTH_PENDING;
      return connectionGeneration;
    }

    method OnDisconnected()
      modifies this
      ensures View() == Step(old(View()), Disconnect)
    {
      BumpGeneration();
      connected, authenticated, releaseAttempts := false, false, 0;
      hidState, hidError := DISCONNECTED, HID_NOT_CONNECTED;
    }

    method OnAuthenticated(success: bool)
      modifies this
      ensures View() == Step(old(View()), Authenticate(success))
    {
      if !connected { return; }
      authenticated, releaseAttempts := success, 0;
      hidState := if success then WAITING_FOR_REPORT_PATH else FAILED_RETRYABLE;
      hidError := if success then REPORT_PATH_PENDING else AUTH_FAILED;
    }

    method TryBeginRelease(generation: u32) returns (accepted: bool)
      modifies this
      ensures accepted == MayBegin(old(View()), generation)
      ensures View() == Step(old(View()), BeginRelease(generation))
    {
      if !connected || !authenticated || generation == 0 || generation != connectionGeneration ||
         releaseAttempts >= MAX_ATTEMPTS || (hidState != WAITING_FOR_REPORT_PATH && hidState != FAILED_RETRYABLE) {
        return false;
      }
      releaseAttempts := releaseAttempts + 1;
      hidState := RELEASING;
      return true;
    }

    method TryCompleteRelease(generation: u32, keyboardReleased: bool, consumerReleased: bool) returns (confirmed: bool)
      modifies this
      ensures confirmed == (MayComplete(old(View()), generation) && keyboardReleased && consumerReleased)
      ensures View() == Step(old(View()), CompleteRelease(generation, keyboardReleased, consumerReleased))
    {
      if generation == 0 || generation != connectionGeneration || !connected || !authenticated
        || hidState != RELEASING {
        return false;
      }
      if keyboardReleased && consumerReleased {
        hidState, hidError := CONFIRMED, NO_ERROR;
        return true;
      }
      hidState := FAILED_RETRYABLE;
      hidError := if !keyboardReleased && !consumerReleased then REPORTS_FAILED
                  else if !keyboardReleased then KEYBOARD_REPORT_FAILED else CONSUMER_REPORT_FAILED;
      return false;
    }

    method RequestRetry() returns (accepted: bool)
      modifies this
      ensures accepted == MayRetry(old(View()))
      ensures View() == Step(old(View()), Retry)
    {
      if !connected || !authenticated || hidState == RELEASING { return false; }
      if hidState == CONFIRMED { return true; }
      releaseAttempts, hidState, hidError := 0, WAITING_FOR_REPORT_PATH, REPORT_PATH_PENDING;
      return true;
    }

    // ---- The release task, with other tasks about ------------------------------------------

    /** Any call by another task. */
    method Perform(e: Event)
      modifies this
      ensures View() == Step(old(View()), e)
    {
      match e
      case Connect => var generation := OnConnected();
      case Disconnect => OnDisconnected();
      case Authenticate(success) => OnAuthenticated(success);
      case BeginRelease(generation) => var accepted := TryBeginRelease(generation);
      case CompleteRelease(generation, keyboard, consumer) =>
        var confirmed := TryCompleteRelease(generation, keyboard, consumer);
      case Retry => var retried := RequestRetry();
    }

    /** The log follows the machine, and of `budget` events that start the attempts over `left` are left. */
    ghost predicate Tracked(es: seq<Event>, log: seq<Event>, budget: nat, left: nat)
      reads this
    {
      View() == Run(log) && es <= log && left <= budget && ResetCount(log) == ResetCount(es) + budget - left
    }

    /** What the task can still send: six attempts for each event to come, and what is left of this six. */
    function Potential(left: nat): int
      reads this
    {
      MAX_ATTEMPTS * left - releaseAttempts
    }

    method Interfere(ghost es: seq<Event>, budget: nat) returns (ghost log: seq<Event>, left: nat)
      requires View() == Run(es)
      modifies this
      ensures Tracked(es, log, budget, left) && Potential(left) <= old(Potential(budget))
    {
      log, left := es, budget;
      var events: nat := *;
      while events > 0
        invariant Tracked(es, log, budget, left) && Potential(left) <= old(Potential(budget))
      {
        var e: Event := *;
        hide Run, ResetCount;
        if !Resets(View(), e) || left > 0 {
          RunIsSound(log);
          RunStep(log, e);
          CountStep(log, e);
          AttemptsStep(View(), e);
          hide Resets, Step;
          if Resets(View(), e) { left := left - 1; }
          Perform(e);
          log := log + [e];
        }
        events := events - 1;
      }
    }

    /** The task begins an attempt, or is refused. */
    method Begin(generation: u32, ghost es: seq<Event>) returns (begun: bool, ghost log: seq<Event>)
      requires View() == Run(es)
      modifies this
      ensures View() == Run(log) && log == es + [BeginRelease(generation)] && ResetCount(log) == ResetCount(es)
      ensures begun == MayBegin(old(View()), generation) && View() == Step(old(View()), BeginRelease(generation))
    {
      hide Run, ResetCount;
      RunStep(es, BeginRelease(generation));
      CountStep(es, BeginRelease(generation));
      log := es + [BeginRelease(generation)];
      begun := TryBeginRelease(generation);
    }

    /** Both reports are sent, and the attempt is concluded with whatever came of them. */
    method Conclude(generation: u32, ghost es: seq<Event>)
      returns (keyboard: bool, consumer: bool, ghost log: seq<Event>)
      requires View() == Run(es)
      modifies this
      ensures View() == Run(log) && log == es + [CompleteRelease(generation, keyboard, consumer)]
      ensures ResetCount(log) == ResetCount(es)
      ensures View() == Step(old(View()), CompleteRelease(generation, keyboard, consumer))
    {
      hide Run, ResetCount;
      keyboard, consumer := *, *;
      RunStep(es, CompleteRelease(generation, keyboard, consumer));
      CountStep(es, CompleteRelease(generation, keyboard, consumer));
      log := es + [CompleteRelease(generation, keyboard, consumer)];
      var confirmed := TryCompleteRelease(generation, keyboard, consumer);
    }

    /**
     One turn of the loop, an attempt being on: others, the reports, a look at the machine, others, the
     next attempt.
     */
    method Turn(generation: u32, ghost es: seq<Event>, budget: nat, ghost l0: Link, ghost sent: nat)
      returns (again: bool, end: ReleaseEnd, ghost log: seq<Event>, left: nat, ghost quiet: bool)
      requires View() == Run(es)
      modifies this
      ensures Tracked(es, log, budget, left) && Potential(left) + (if again then 1 else 0) <= old(Potential(budget))
      ensures !again ==> EndedAs(View(), generation, end)
      ensures quiet && UnderWay(l0, old(View()), generation, sent) ==>
        if again then UnderWay(l0, View(), generation, sent + 1) else Quietly(l0, View(), generation, sent + 1, end)
    {
      hide Run, ResetCount, Step, MayBegin, UnderWay, Quietly;
      log, left := Interfere(es, budget);
      quiet := log == es;
      ghost var was := View();
      var keyboard, consumer: bool;
      keyboard, consumer, log := Conclude(generation, log);
      AttemptsOfOwn(was, generation, keyboard, consumer);
      if UnderWay(l0, was, generation, sent) { QuietTurn(l0, was, generation, sent, keyboard, consumer); }
      end := REFUSED;
      if Ready(View()) { return false, RELEASED, log, left, quiet; }
      if connectionGeneration != generation || !connected || releaseAttempts >= MAX_ATTEMPTS {
        return false, GAVE_UP, log, left, quiet;
      }
      ghost var middle := log;
      log, left := Interfere(log, left);
      quiet := quiet && log == middle;
      AttemptsOfBegin(View(), generation);
      RefusedStays(View(), generation);
      again, log := Begin(generation, log);
    }

    /**
     The release task of one connection, with other tasks at work at every turn: it sends both all-zero
     reports until both are taken, the attempts run out or the connection is another. It ends, whatever
     the others do, after at most what is left of its six attempts and six more for each time the
     others start them over; with nobody else about, a link that lets it begin is left confirmed, or
     with all six attempts spent.
     */
    method ReleaseTask(generation: u32, ghost es: seq<Event>, budget: nat)
      returns (sent: nat, end: ReleaseEnd, ghost log: seq<Event>, left: nat, ghost quiet: bool)
      requires View() == Run(es)
      modifies this
      ensures Tracked(es, log, budget, left)
      ensures sent + old(releaseAttempts) <= MAX_ATTEMPTS * (budget - left) + releaseAttempts
      ensures EndedAs(View(), generation, end)
      ensures quiet ==> Quietly(old(View()), View(), generation, sent, end)
    {
      hide Run, ResetCount, Step, MayBegin, UnderWay, Quietly;
      ghost var l0 := View();
      log, left := Interfere(es, budget);
      quiet := log == es;
      AttemptsOfBegin(View(), generation);
      QuietStart(View(), generation);
      var begun: bool;
      RefusedStays(View(), generation);
      begun, log := Begin(generation, log);
      sent, end := 0, REFUSED;
      while begun
        invariant Tracked(es, log, budget, left)
        invariant sent + (if begun then 1 else 0) + Potential(left) <= old(Potential(budget))
        invariant !begun ==> EndedAs(View(), generation, end)
        invariant quiet ==> if begun then UnderWay(l0, View(), generation, sent)
          else Quietly(l0, View(), generation, sent, end)
        decreases begun, Potential(left) + MAX_ATTEMPTS
      {
        RunIsSound(log);
        ghost var calm: bool;
        begun, end, log, left, calm := Turn(generation, log, left, l0, sent);
        quiet := quiet && calm;
        sent := sent + 1;
      }
    }
  }

  // ---- Over every run from boot -----------------------------------------------------------

  lemma {:induction false} RunStep(es: seq<Event>, e: Event)
    ensures Run(es + [e]) == Step(Run(es), e)
  {
    assert (es + [e])[..|es|] == es;
  }

  /** What holds of the link after any run. */
  predicate Sound(l: Link) {
    && l.attempts <= MAX_ATTEMPTS
    && (l.authenticated ==> l.connected)
    && (l.connected ==> l.generation != 0)
    && (l.state in {RELEASING, CONFIRMED, WAITING_FOR_REPORT_PATH} ==> l.authenticated)
    && (l.state == DISCONNECTED <==> !l.connected)
  }

  lemma {:induction false} RunIsSound(es: seq<Event>)
    ensures Sound(Run(es))
  {
    if es != [] { RunIsSound(es[..|es| - 1]); }
  }

  /** Ready means confirmed, on every run. */
  lemma {:induction false} ReadyIsConfirmed(es: seq<Event>)
    ensures Ready(Run(es)) <==> Run(es).state == CONFIRMED
  {
    RunIsSound(es);
  }

  predicate IsLinkEvent(e: Event) { e.Connect? || e.Disconnect? }

  /**
   The history of a confirmed link: the last connection event a connect, a successful authentication
   with none after it, an accepted begin, and its completion with both reports taken.
   */
  predicate ConfirmedHistory(es: seq<Event>, c: nat, a: nat, b: nat, d: nat) {
    && c < a < b < d < |es|
    && es[c].Connect? && (forall k :: c < k < |es| ==> !IsLinkEvent(es[k]))
    && es[a] == Authenticate(true) && (forall k :: a < k < |es| ==> !es[k].Authenticate?)
    && es[b] == BeginRelease(Run(es).generation) && MayBegin(Run(es[..b]), Run(es).generation)
    && es[d] == CompleteRelease(Run(es).generation, true, true)
    && (forall k :: b < k < d && es[k].CompleteRelease? ==> es[k].generation != Run(es).generation)
  }

  lemma {:induction false} LastConnect(es: seq<Event>) returns (c: nat)
    requires Run(es).connected
    ensures c < |es| && es[c].Connect? && forall k :: c < k < |es| ==> !IsLinkEvent(es[k])
  {
    var n := |es| - 1;
    if es[n].Connect? { c := n; } else { c := LastConnect(es[..n]); }
  }

  lemma {:induction false} LastAuthentication(es: seq<Event>) returns (c: nat, a: nat)
    requires Run(es).authenticated
    ensures c < a < |es| && es[c].Connect? && (forall k :: c < k < |es| ==> !IsLinkEvent(es[k]))
    ensures es[a] == Authenticate(true) && forall k :: a < k < |es| ==> !es[k].Authenticate?
  {
    var n := |es| - 1;
    RunIsSound(es[..n]);
    if es[n].Authenticate? && Run(es[..n]).connected {
      c := LastConnect(es[..n]);
      a := n;
    } else {
      c, a := LastAuthentication(es[..n]);
    }
  }

  predicate ReleasingHistory(es: seq<Event>, c: nat, a: nat, b: nat) {
    && c < a < b < |es|
    && es[c].Connect? && (forall k :: c < k < |es| ==> !IsLinkEvent(es[k]))
    && es[a] == Authenticate(true) && (forall k :: a < k < |es| ==> !es[k].Authenticate?)
    && es[b] == BeginRelease(Run(es).generation) && MayBegin(Run(es[..b]), Run(es).generation)
    && (forall k :: b < k < |es| && es[k].CompleteRelease? ==> es[k].generation != Run(es).generation)
  }

  lemma {:induction false} ReleasingHasHistory(es: seq<Event>) returns (c: nat, a: nat, b: nat)
    requires Run(es).state == RELEASING
    ensures ReleasingHistory(es, c, a, b)
  {
    var n := |es| - 1;
    var init := es[..n];
    RunIsSound(init);
    if Run(init).state == RELEASING {
      c, a, b := ReleasingHasHistory(init);
      assert init[..b] == es[..b];
    } else {
      c, a := LastAuthentication(init);
      b := n;
    }
  }

  /** A confirmed link has its history behind it. */
  lemma {:induction false} ConfirmedHasHistory(es: seq<Event>) returns (c: nat, a: nat, b: nat, d: nat)
    requires Run(es).state == CONFIRMED
    ensures ConfirmedHistory(es, c, a, b, d)
  {
    var n := |es| - 1;
    var init := es[..n];
    RunIsSound(init);
    if Run(init).state == CONFIRMED {
      c, a, b, d := ConfirmedHasHistory(init);
      assert init[..b] == es[..b];
    } else {
      c, a, b := ReleasingHasHistory(init);
      d := n;
      assert init[..b] == es[..b];
    }
  }

  /** From an accepted begin to its completion the link stays as it was. */
  lemma {:induction false} StaysReleasing(es: seq<Event>, g: u32, b: nat, k: nat)
    requires b < k <= |es| && es[b] == BeginRelease(g) && MayBegin(Run(es[..b]), g)
    requires forall j :: b < j < k ==>
      !IsLinkEvent(es[j]) && !es[j].Authenticate? && (es[j].CompleteRelease? ==> es[j].generation != g)
    ensures var l := Run(es[..k]); l.state == RELEASING && l.connected && l.authenticated && l.generation == g
  {
    assert es[..k][..k - 1] == es[..k - 1];
    if k - 1 > b { StaysReleasing(es, g, b, k - 1); }
  }

  lemma {:induction false} StaysConfirmed(es: seq<Event>, d: nat)
    requires d <= |es| && Ready(Run(es[..d]))
    requires forall j :: d <= j < |es| ==> !IsLinkEvent(es[j]) && !es[j].Authenticate?
    ensures Ready(Run(es))
    decreases |es|
  {
    if d < |es| {
      var init := es[..|es| - 1];
      assert init[..d] == es[..d];
      StaysConfirmed(init, d);
    } else {
      assert es[..d] == es;
    }
  }

  /** Ready, if and only if there is such a history. */
  lemma {:induction false} ReadyHasHistory(es: seq<Event>)
    ensures Ready(Run(es)) <==> exists c: nat, a: nat, b: nat, d: nat :: ConfirmedHistory(es, c, a, b, d)
  {
    if Ready(Run(es)) {
      var c, a, b, d := ConfirmedHasHistory(es);
    }
    if c: nat, a: nat, b: nat, d: nat :| ConfirmedHistory(es, c, a, b, d) {
      StaysReleasing(es, Run(es).generation, b, d);
      assert es[..d + 1][..d] == es[..d];
      StaysConfirmed(es, d + 1);
    }
  }

  // ---- Generations ---------------------------------------------------------------------------

  function LinkEvents(es: seq<Event>): nat {
    if es == [] then 0 else LinkEvents(es[..|es| - 1]) + (if IsLinkEvent(es[|es| - 1]) then 1 else 0)
  }

  /** The generation numbers connection events 1, 2, 3, ... and starts over after 2^32 - 1 of them. */
  lemma {:induction false} GenerationCounts(es: seq<Event>)
    ensures Run(es).generation as nat == if LinkEvents(es) == 0 then 0 else (LinkEvents(es) - 1) % GENERATIONS + 1
  {
    if es != [] {
      GenerationCounts(es[..|es| - 1]);
      NextCounts(LinkEvents(es[..|es| - 1]), Run(es[..|es| - 1]).generation);
    }
  }

  lemma NextCounts(n: nat, g: u32)
    requires g as nat == if n == 0 then 0 else (n - 1) % GENERATIONS + 1
    ensures NextGeneration(g) as nat == n % GENERATIONS + 1
  {
    if n > 0 { ModSuccessor(n - 1); }
  }

  lemma ModSuccessor(m: nat)
    ensures (m + 1) % GENERATIONS == if m % GENERATIONS == GENERATIONS - 1 then 0 else m % GENERATIONS + 1
  {}

  lemma {:induction false} LinkEventsConcat(es: seq<Event>, later: seq<Event>)
    ensures LinkEvents(es + later) == LinkEvents(es) + LinkEvents(later)
  {
    if later == [] {
      assert es + later == es;
    } else {
      LinkEventsConcat(es, later[..|later| - 1]);
      assert (es + later)[..|es + later| - 1] == es + later[..|later| - 1];
    }
  }

  /**
   A generation handed out earlier is the current one again exactly when the number of connection
   events since is a multiple of 2^32 - 1; short of that, a release under it changes nothing.
   */
  lemma {:induction false} StaleGeneration(es: seq<Event>, later: seq<Event>, keyboard: bool, consumer: bool)
    requires LinkEvents(es) > 0
    ensures Run(es + later).generation == Run(es).generation <==> LinkEvents(later) % GENERATIONS == 0
    ensures 0 < LinkEvents(later) < GENERATIONS ==>
      var g, now := Run(es).generation, Run(es + later);
      && !MayBegin(now, g) && Step(now, BeginRelease(g)) == now
      && !MayComplete(now, g) && Step(now, CompleteRelease(g, keyboard, consumer)) == now
  {
    hide Run, LinkEvents;
    LinkEventsConcat(es, later);
    GenerationCounts(es);
    GenerationCounts(es + later);
    SameResidue(LinkEvents(es) - 1, LinkEvents(later));
  }

  lemma SameResidue(m: nat, k: nat)
    ensures (m + k) % GENERATIONS == m % GENERATIONS <==> k % GENERATIONS == 0
  {}

  // ---- Bounded retries --------------------------------------------------------------------------

  /** Events that grant a fresh set of attempts. */
  predicate Resets(l: Link, e: Event) {
    IsLinkEvent(e) || (e.Authenticate? && l.connected) || (e.Retry? && MayRetry(l) && l.state != CONFIRMED)
  }

  function ResetCount(es: seq<Event>): nat {
    if es == [] then 0 else ResetCount(es[..|es| - 1]) + (if Resets(Run(es[..|es| - 1]), es[|es| - 1]) then 1 else 0)
  }

  lemma {:induction false} CountStep(es: seq<Event>, e: Event)
    ensures ResetCount(es + [e]) == ResetCount(es) + (if Resets(Run(es), e) then 1 else 0)
  {
    hide Run;
    assert (es + [e])[..|es|] == es;
  }

  /** The begins that were accepted, each of which sends one pair of release reports. */
  function BeginCount(es: seq<Event>): nat {
    if es == [] then 0
    else
      var e := es[|es| - 1];
      BeginCount(es[..|es| - 1]) + (if e.BeginRelease? && MayBegin(Run(es[..|es| - 1]), e.generation) then 1 else 0)
  }

  lemma {:induction false} AttemptsAccounted(es: seq<Event>)
    ensures var spare := if ResetCount(es) == 0 then 0 else MAX_ATTEMPTS - Run(es).attempts;
      BeginCount(es) + spare <= MAX_ATTEMPTS * ResetCount(es)
    ensures ResetCount(es) == 0 ==> !Run(es).connected && Run(es).attempts == 0
  {
    RunIsSound(es);
    if es != [] {
      AttemptsAccounted(es[..|es| - 1]);
      RunIsSound(es[..|es| - 1]);
    }
  }

  /** Over any run, at most six pairs of reports are sent for each connection event, authentication or retry. */
  lemma {:induction false} RetriesAreBounded(es: seq<Event>)
    ensures Run(es).attempts <= 6 && BeginCount(es) <= 6 * ResetCount(es)
  {
    RunIsSound(es);
    AttemptsAccounted(es);
  }
}
