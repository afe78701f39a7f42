/**
 The simulated battery of the BLE identity: one percent for each interval of active typing, from the
 maximum down to the minimum and round again, whatever the pattern of reports.
 */
module Battery {
  import opened Bytes

  const MINUTE_MS: nat := 60_000
  const MAX_INTERVAL_MINUTES: nat := 1440
  const WRAP: nat := 0x1_0000_0000_0000_0000

  datatype Config = Config(enabled: bool, minimum: byte, maximum: byte, current: byte, dropMinutes: u16)

  datatype Validation = BATTERY_VALID | INVALID_RANGE | INVALID_CURRENT | INVALID_INTERVAL

  /** The battery part of the configuration check, in its order. */
  function Validate(c: Config): Validation {
    if c.minimum > 99 || c.maximum < 1 || c.maximum > 100 || c.minimum >= c.maximum then INVALID_RANGE
    else if c.current < c.minimum || c.current > c.maximum then INVALID_CURRENT
    else if c.dropMinutes < 1 || c.dropMinutes as nat > MAX_INTERVAL_MINUTES then INVALID_INTERVAL
    else BATTERY_VALID
  }

  /**
   Valid: a proper range of percents with the current level inside, and between a minute and a day for
   each percent.
   */
  lemma ValidMeans(c: Config)
    ensures Validate(c) == BATTERY_VALID <==>
      c.minimum < c.maximum <= 100 && c.minimum <= c.current <= c.maximum && 1 <= c.dropMinutes <= 24 * 60
  {}

  function IntervalMs(c: Config): (ms: nat)
    requires c.dropMinutes > 0
    ensures ms > 0
  {
    c.dropMinutes as nat * MINUTE_MS
  }

  function Quotient(x: nat, n: nat): nat
    requires n > 0
  {
    x / n
  }

  /** Whole intervals in a stretch of active time, and what is left over. */
  function Intervals(c: Config, ms: nat): nat
    requires c.dropMinutes > 0
  {
    Quotient(ms, IntervalMs(c))
  }

  function LeftOver(c: Config, ms: nat): nat
    requires c.dropMinutes > 0
  {
    ms % IntervalMs(c)
  }

  /** One percent down, or back to the top from the bottom. */
  function Drop(c: Config, level: byte): byte {
    if level <= c.minimum then c.maximum else level as nat - 1
  }

  /** The level k drops later: counting down from the maximum, round a cycle of all the levels. */
  function Dropped(c: Config, level: byte, k: nat): nat
    requires Validate(c) == BATTERY_VALID && c.minimum <= level <= c.maximum
  {
    c.maximum as nat - (c.maximum as nat - level as nat + k) % Levels(c)
  }

  function Levels(c: Config): (n: nat)
    requires c.minimum <= c.maximum
    ensures n > 0
  {
    c.maximum as nat - c.minimum as nat + 1
  }

  lemma DroppedInRange(c: Config, level: byte, k: nat)
    requires Validate(c) == BATTERY_VALID && c.minimum <= level <= c.maximum
    ensures c.minimum as nat <= Dropped(c, level, k) <= c.maximum as nat
  {
    ModBound(c.maximum as nat - level as nat + k, Levels(c));
  }

  lemma ModBound(x: nat, n: nat)
    requires n > 0
    ensures 0 <= x % n < n
  {}

  lemma ModNext(x: nat, n: nat)
    requires n > 0
    ensures (x + 1) % n == if x % n == n - 1 then 0 else x % n + 1
  {
    var q, r := x / n, x % n;
    DivMod(x, n);
    if r == n - 1 {
      ModUnique(x + 1, n, q + 1, 0);
    } else {
      ModUnique(x + 1, n, q, r + 1);
    }
  }

  lemma DivMod(x: nat, n: nat)
    requires n > 0
    ensures x == n * (x / n) + x % n
  {}

  /** Quotient and remainder are the only such pair. */
  lemma ModUnique(x: nat, n: nat, q: nat, r: nat)
    requires n > 0 && r < n && x == n * q + r
    ensures x % n == r && x / n == q
  {
    DivMod(x, n);
    var p := x / n;
    if p < q {
      MulStep(n, p, q);
    } else if p > q {
      MulStep(n, q, p);
    }
  }

  lemma MulStep(n: nat, p: nat, q: nat)
    requires p < q
    ensures n * p + n <= n * q
  {
    assert n * q == n * p + n * (q - p);
    MulAtLeast(n, q - p);
  }

  lemma MulAtLeast(n: nat, k: nat)
    requires k >= 1
    ensures n * k >= n
  {}

  lemma DropOnce(c: Config, level: byte, k: nat)
    requires Validate(c) == BATTERY_VALID && c.minimum <= level <= c.maximum
    ensures c.minimum as nat <= Dropped(c, level, k) <= c.maximum as nat
    ensures Drop(c, Dropped(c, level, k)) as nat == Dropped(c, level, k + 1)
  {
    DroppedInRange(c, level, k);
    ModNext(c.maximum as nat - level as nat + k, Levels(c));
  }

  lemma NoDrop(c: Config, level: byte)
    requires Validate(c) == BATTERY_VALID && c.minimum <= level <= c.maximum
    ensures Dropped(c, level, 0) == level as nat
  {
    ModUnique(c.maximum as nat - level as nat, Levels(c), 0, c.maximum as nat - level as nat);
  }

  lemma ModAdd(x: nat, k: nat, n: nat)
    requires n > 0
    ensures (x % n + k) % n == (x + k) % n
  {
    DivMod(x, n);
    DivMod(x % n + k, n);
    var q, r := x / n + (x % n + k) / n, (x % n + k) % n;
    assert n * (x / n) + n * ((x % n + k) / n) == n * q;
    ModUnique(x + k, n, q, r);
  }

  /** Drops add up. */
  lemma DropsCompose(c: Config, level: byte, j: nat, k: nat)
    requires Validate(c) == BATTERY_VALID && c.minimum <= level <= c.maximum
    ensures c.minimum as nat <= Dropped(c, level, j) <= c.maximum as nat
    ensures Dropped(c, Dropped(c, level, j), k) == Dropped(c, level, j + k)
  {
    hide Levels, Validate;
    DroppedInRange(c, level, j);
    ModAdd(c.maximum as nat - level as nat + j, k, Levels(c));
  }

  // ---- The counter ------------------------------------------------------------------------------

  class IdentityState {
    var config: Config
    var batteryActiveMs: u64
    var lastSuccessMs: u64
    var activityOpen: bool

    ghost predicate Valid()
      reads this
      ensures Valid() ==> config.minimum <= config.current <= config.maximum
    {
      Validate(config) == BATTERY_VALID && config.dropMinutes > 0
    }

    constructor (config: Config)
      requires Validate(config) == BATTERY_VALID
      ensures Valid() && this.config == config && batteryActiveMs == 0 && !activityOpen
    {
      this.config := config;
      batteryActiveMs, lastSuccessMs, activityOpen := 0, 0, false;
    }

    /** Active time after a report, in the 64 bits the firmware keeps. */
    ghost function Elapsed(nowMs: u64): nat
      reads this
    {
      (batteryActiveMs as nat + (nowMs as nat - lastSuccessMs as nat) % WRAP) % WRAP
    }

    /**
     A report was delivered: count the time since the one before it, and drop the level by the intervals
     that fill up.
     */
    method RecordSuccessfulReport(nowMs: u64, executionActive: bool) returns (changed: bool)
      requires Valid()
      modifies this
      ensures Valid()
      ensures config == old(config).(current := config.current)
      ensures !executionActive || !config.enabled ==>
        !changed && !activityOpen && config == old(config) && batteryActiveMs == old(batteryActiveMs)
          && lastSuccessMs == old(lastSuccessMs)
      ensures executionActive && config.enabled ==> activityOpen && lastSuccessMs == nowMs
      ensures executionActive && config.enabled && !old(activityOpen) ==>
        !changed && config == old(config) && batteryActiveMs == old(batteryActiveMs)
      ensures executionActive && config.enabled && old(activityOpen) ==>
        && batteryActiveMs as nat == LeftOver(old(config), old(Elapsed(nowMs)))
        && config.current as nat ==
          Dropped(old(config), old(config).current, Intervals(old(config), old(Elapsed(nowMs))))
        && (changed <==> old(Elapsed(nowMs)) >= IntervalMs(old(config)))
    {
      if !executionActive || !config.enabled {
        activityOpen := false;
        return false;
      }
      if !activityOpen {
        lastSuccessMs, activityOpen := nowMs, true;
        return false;
      }
      var delta := (nowMs as nat - lastSuccessMs as nat) % WRAP;
      lastSuccessMs := nowMs;
      batteryActiveMs := (batteryActiveMs as nat + delta) % WRAP;
      ghost var counted := batteryActiveMs;
      changed := CountIntervals();
    }

    /** The subtracting loop. */
    method CountIntervals() returns (changed: bool)
      requires Valid()
      modifies this`config, this`batteryActiveMs
      ensures Valid()
      ensures config == old(config).(current := config.current)
      ensures batteryActiveMs as nat == LeftOver(old(config), old(batteryActiveMs) as nat)
      ensures config.current as nat ==
        Dropped(old(config), old(config).current, Intervals(old(config), old(batteryActiveMs) as nat))
      ensures changed <==> old(batteryActiveMs) as nat >= IntervalMs(old(config))
    {
      hide Dropped;
      ghost var k, start, level := 0, config, config.current;
      var intervalMs := config.dropMinutes as nat * MINUTE_MS;
      NoDrop(start, level);
      changed := false;
      while batteryActiveMs as nat >= intervalMs
        invariant Valid() && config == start.(current := config.current) && intervalMs == IntervalMs(start) > 0
        invariant old(batteryActiveMs) as nat == intervalMs * k + batteryActiveMs as nat
        invariant config.current as nat == Dropped(start, level, k)
        invariant changed <==> k > 0
        decreases batteryActiveMs
      {
        batteryActiveMs := batteryActiveMs as nat - intervalMs;
        DropOnce(start, level, k);
        config := config.(current :=
          if config.current <= config.minimum then config.maximum else config.current as nat - 1);
        OneMore(intervalMs, k);
        k := k + 1;
        changed := true;
      }
      ModUnique(old(batteryActiveMs) as nat, intervalMs, k, batteryActiveMs as nat);
      if k > 0 { MulAtLeast(intervalMs, k); }
    }

    method EndActivity()
      modifies this`activityOpen
      ensures !activityOpen
    {
      activityOpen := false;
    }

    method ResetBattery() returns (changed: bool)
      requires Valid()
      modifies this
      ensures Valid()
      ensures changed == (old(config).current != old(config).maximum)
      ensures config == old(config).(current := old(config).maximum) && batteryActiveMs == 0 && !activityOpen
    {
      changed := config.current != config.maximum;
      config := config.(current := config.maximum);
      batteryActiveMs, activityOpen := 0, false;
    }

    /**
     A whole activity: reports at the given times, the first of which opens it. Only the first and
     the last time matter, not how many reports lie between them.
     */
    method RecordActivity(times: seq<u64>)
      requires Valid() && config.enabled && !activityOpen && |times| >= 2
      requires forall i, j :: 0 <= i <= j < |times| ==> times[i] <= times[j]
      requires batteryActiveMs as nat + times[|times| - 1] as nat - times[0] as nat < WRAP
      modifies this
      ensures Valid() && activityOpen && config == old(config).(current := config.current)
      ensures var total := old(batteryActiveMs) as nat + times[|times| - 1] as nat - times[0] as nat;
        && batteryActiveMs as nat == LeftOver(old(config), total)
        && config.current as nat == Dropped(old(config), old(config).current, Intervals(old(config), total))
    {
      hide LeftOver, Intervals, Dropped, IntervalMs;
      ghost var start, base := config, batteryActiveMs as nat;
      var changed := RecordSuccessfulReport(times[0], true);
      changed := RecordSuccessfulReport(times[1], true);
      NoWrap(base, times[0], times[1]);
      for i := 2 to |times|
        invariant Valid() && activityOpen && config == start.(current := config.current) && config.enabled
        invariant lastSuccessMs == times[i - 1]
        invariant var total := base + times[i - 1] as nat - times[0] as nat;
          && batteryActiveMs as nat == LeftOver(start, total)
          && config.current as nat == Dropped(start, start.current, Intervals(start, total))
      {
        ghost var total, step := base + times[i - 1] as nat - times[0] as nat, times[i] as nat - times[i - 1] as nat;
        LeftOverBound(start, total);
        NoWrap(batteryActiveMs as nat, times[i - 1], times[i]);
        Accrue(start, total, step);
        DropsCompose(start, start.current, Intervals(start, total), Intervals(start, LeftOver(start, total) + step));
        SameCycle(start, config.current, LeftOver(start, total) + step,
          Intervals(start, LeftOver(start, total) + step));
        changed := RecordSuccessfulReport(times[i], true);
      }
    }
  }

  /** With time running forwards and no overflow, the 64-bit arithmetic is exact. */
  lemma NoWrap(active: nat, last: u64, now: u64)
    requires last <= now && active + now as nat - last as nat < WRAP
    ensures (active + (now as nat - last as nat) % WRAP) % WRAP == active + now as nat - last as nat
  {}

  lemma LeftOverBound(c: Config, total: nat)
    requires c.dropMinutes > 0
    ensures LeftOver(c, total) <= total
  {
    hide IntervalMs;
    ModAtMost(total, IntervalMs(c));
  }

  lemma ModAtMost(x: nat, n: nat)
    requires n > 0
    ensures x % n <= x
  {
    DivMod(x, n);
    MulNonNegative(n, x / n);
  }

  lemma MulNonNegative(n: nat, k: nat)
    ensures n * k >= 0
  {}

  /** Counting the intervals of a stretch in two parts, carrying the rest over, is counting them at once. */
  lemma Accrue(c: Config, total: nat, step: nat)
    requires c.dropMinutes > 0
    ensures LeftOver(c, LeftOver(c, total) + step) == LeftOver(c, total + step)
    ensures Intervals(c, total) + Intervals(c, LeftOver(c, total) + step) == Intervals(c, total + step)
  {
    hide IntervalMs;
    var n := IntervalMs(c);
    var x := total % n + step;
    DivMod(total, n);
    DivMod(x, n);
    ModBound(x, n);
    Distribute(n, total / n, x / n);
    ModUnique(total + step, n, total / n + x / n, x % n);
  }

  lemma Distribute(n: nat, p: nat, q: nat)
    ensures n * p + n * q == n * (p + q)
  {}

  /** The cycle does not depend on where in it a configuration stands. */
  lemma SameCycle(c: Config, level: byte, ms: nat, k: nat)
    requires Validate(c) == BATTERY_VALID && c.minimum <= level <= c.maximum
    ensures Validate(c.(current := level)) == BATTERY_VALID
    ensures Dropped(c.(current := level), level, k) == Dropped(c, level, k)
    ensures Intervals(c.(current := level), ms) == Intervals(c, ms)
    ensures LeftOver(c.(current := level), ms) == LeftOver(c, ms)
  {}

  lemma OneMore(n: nat, k: nat)
    ensures n * (k + 1) == n * k + n
  {}
}
