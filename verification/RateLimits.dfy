/** The controller's rate limiters, over whole runs of ticks. */
module RateLimits {
  import opened Prelude
  import opened ControlLaw
  import opened Controller
  import opened ControllerRuns
  import opened Hysteresis
  import Sessions = ChargeSessions
  import Minutes = MinuteAverage

  /** The tick tried to start a charge: it sent amps to a car not charging. */
  predicate SendsStart(r: Record) {
    exists i :: 0 <= i < |r.commands| && r.commands[i].SetAmps? && !r.commands[i].inCharge
  }

  predicate SendsInChargeAmps(r: Record) {
    exists i :: 0 <= i < |r.commands| && r.commands[i].SetAmps? && r.commands[i].inCharge
  }

  predicate AdjustsAmps(r: Record) {
    exists i :: 0 <= i < |r.commands| && r.commands[i].SetAmps? && r.commands[i].ok
  }

  /** A charging command (not a wake) failed. */
  predicate ChargingCommandFailed(r: Record) {
    exists i :: 0 <= i < |r.commands| && !r.commands[i].Wake? && !r.commands[i].ok
  }

  /** No cooldown lies in the future. */
  ghost predicate StampsBy(c: Ctl, t: Time) {
    && 0 <= c.lastTeslaPoll <= t && 0 <= c.lastWakeAttempt <= t && 0 <= c.lastChargeStartAttempt <= t
    && 0 <= c.lastCommandFailure <= t && 0 <= c.lastAmpsAdjustAt <= t
  }

  /** Each cooldown moves exactly when its event is recorded. */
  ghost predicate StampsFollow(c: Ctl, c': Ctl, r: Record) {
    && c'.lastTeslaPoll == (if r.poll == Polled then r.now else c.lastTeslaPoll)
    && c'.hasCached == (c.hasCached || r.poll == Polled)
    && CommandStamps(c, c', r)
  }

  ghost predicate CommandStamps(c: Ctl, c': Ctl, r: Record) {
    && c'.lastWakeAttempt == (if SendsWake(r) then r.end else c.lastWakeAttempt)
    && c'.lastChargeStartAttempt == (if SendsStart(r) then r.now else c.lastChargeStartAttempt)
    && c'.lastCommandFailure == (if ChargingCommandFailed(r) then r.end else c.lastCommandFailure)
    && c'.lastAmpsAdjustAt == (if AdjustsAmps(r) then r.end else c.lastAmpsAdjustAt)
  }

  /** Each limited action waited for its cooldowns. */
  ghost predicate LimitsHeld(cfg: Config, c: Ctl, r: Record) {
    && (r.poll != NotPolled ==> !c.hasCached || r.start - c.lastTeslaPoll >= PollInterval(cfg, r.pollState))
    && CommandLimits(cfg, c, r)
  }

  ghost predicate CommandLimits(cfg: Config, c: Ctl, r: Record) {
    && (SendsWake(r) ==> c.lastWakeAttempt == 0 || r.now - c.lastWakeAttempt >= cfg.wakeRetryInterval)
    && (SendsStart(r) ==>
          && (c.lastChargeStartAttempt == 0 || cfg.chargeStartRetry <= 0 ||
              r.now - c.lastChargeStartAttempt >= cfg.chargeStartRetry)
          && (c.lastCommandFailure == 0 || cfg.commandFailureBackoff <= 0 ||
              r.now - c.lastCommandFailure >= cfg.commandFailureBackoff))
    && (SendsInChargeAmps(r) ==>
          c.lastAmpsAdjustAt == 0 || cfg.ampsAdjustInterval <= 0 ||
          r.now - c.lastAmpsAdjustAt >= cfg.ampsAdjustInterval)
  }

  lemma StartStamps(cfg: Config, c: Ctl, inp: Input, cs: ChargeState, amps: int, r: Record)
    requires r.now == inp.now && r.end == inp.end && r.commands == DecideStart(cfg, c, inp, cs, amps).1
    ensures CommandStamps(c, DecideStart(cfg, c, inp, cs, amps).0, r)
    ensures CommandLimits(cfg, c, r)
  {
    hide Sessions.Begin, Sessions.Finish;
    assert |r.commands| == 2 ==>
        r.commands[0] == SetAmps(amps, false, true) && r.commands[1] == StartCharge(inp.startOk);
    assert |r.commands| == 1 ==> r.commands[0] == SetAmps(amps, false, false);
  }

  /** The other decisions send at most one command. */
  lemma SingleCommandStamps(cfg: Config, c: Ctl, inp: Input, cs: ChargeState, amps: int, r: Record)
    requires r.now == inp.now && r.end == inp.end
    ensures r.commands == DecideOffline(cfg, c, inp, amps).1 ==>
              CommandStamps(c, DecideOffline(cfg, c, inp, amps).0, r) && CommandLimits(cfg, c, r)
    ensures r.commands == DecideAdjust(cfg, c, inp, amps).1 ==>
              CommandStamps(c, DecideAdjust(cfg, c, inp, amps).0, r) && CommandLimits(cfg, c, r)
    ensures r.commands == DecideLow(cfg, c, inp, cs).1 ==>
              CommandStamps(c, DecideLow(cfg, c, inp, cs).0, r) && CommandLimits(cfg, c, r)
  {
    hide Sessions.Begin, Sessions.Finish;
    assert |r.commands| == 1 ==> r.commands[0] == r.commands[|r.commands| - 1];
  }

  lemma DecideKeepsPoll(cfg: Config, c: Ctl, inp: Input, cs: ChargeState, amps: int)
    ensures var c' := Decide(cfg, c, inp, cs, amps).0;
            c'.lastTeslaPoll == c.lastTeslaPoll && c'.hasCached == c.hasCached
  {
    hide Sessions.Begin, Sessions.Finish;
  }

  lemma DecideStamps(cfg: Config, c: Ctl, inp: Input, cs: ChargeState, amps: int, r: Record)
    requires r.now == inp.now && r.end == inp.end && r.commands == Decide(cfg, c, inp, cs, amps).1
    ensures CommandStamps(c, Decide(cfg, c, inp, cs, amps).0, r)
    ensures CommandLimits(cfg, c, r)
  {
    hide DecideOffline, DecideStart, DecideAdjust, DecideLow, CommandLimits, CommandStamps;
    var low := c.(consecutiveSurplus := 0, consecutiveLow := c.consecutiveLow + 1);
    var high := c.(consecutiveLow := 0, consecutiveSurplus := c.consecutiveSurplus + 1);
    var c' := Decide(cfg, c, inp, cs, amps).0;
    if amps >= cfg.minChargeAmps {
      SingleCommandStamps(cfg, high, inp, cs, amps, r);
      if cs.isOnline && cs.status != Charging {
        StartStamps(cfg, high, inp, cs, amps, r);
      }
      ShiftStamps(cfg, c, high, c', r);
    } else {
      SingleCommandStamps(cfg, low, inp, cs, amps, r);
      ShiftStamps(cfg, c, low, c', r);
    }
  }

  lemma NothingSent(cfg: Config, c: Ctl, c': Ctl, r: Record)
    requires r.commands == []
    requires c'.lastWakeAttempt == c.lastWakeAttempt && c'.lastChargeStartAttempt == c.lastChargeStartAttempt
    requires c'.lastCommandFailure == c.lastCommandFailure && c'.lastAmpsAdjustAt == c.lastAmpsAdjustAt
    ensures CommandStamps(c, c', r) && CommandLimits(cfg, c, r)
  {
  }

  lemma ControlStamps(cfg: Config, c: Ctl, inp: Input, p: Power, cs: ChargeState, r: Record)
    requires cfg.Valid() && r.now == inp.now && r.end == inp.end && r.commands == []
    ensures var (c', r') := Control(cfg, c, inp, p, cs, r);
            && CommandStamps(c, c', r') && CommandLimits(cfg, c, r')
            && c'.lastTeslaPoll == c.lastTeslaPoll && c'.hasCached == c.hasCached
  {
    hide CommandStamps, CommandLimits, Decide, Sessions.Begin, Sessions.Finish, Minutes.Accumulate,
         CalculateAvailableAmps;
    var (c', r') := Control(cfg, c, inp, p, cs, r);
    if r'.commands == [] && c' == AccumulateSample(ResetCounters(TransitionTo(c, Idle, inp)), inp, p, cs, 0) {
      NothingSent(cfg, c, c', r');
    } else if c' == AccumulateSample(c, inp, p, cs, 0) && r' == r {
      NothingSent(cfg, c, c', r');
    } else {
      var amps := CalculateAvailableAmps(cfg.lineVoltage, cfg.maxChargeAmps, p.surplusWatts, p.gridWatts, cs);
      DecideStamps(cfg, c, inp, cs, amps, r');
      DecideKeepsPoll(cfg, c, inp, cs, amps);
      SameStamps(c, Decide(cfg, c, inp, cs, amps).0, c', r');
    }
  }

  lemma SameStamps(c: Ctl, c1: Ctl, c2: Ctl, r: Record)
    requires CommandStamps(c, c1, r) && c2 == c1.(minutes := c2.minutes)
    ensures CommandStamps(c, c2, r)
  {
  }

  lemma {:induction false} TickStamps(cfg: Config, c: Ctl, inp: Input)
    requires cfg.Valid()
    ensures StampsFollow(c, Tick(cfg, c, inp).0, Tick(cfg, c, inp).1)
    ensures LimitsHeld(cfg, c, Tick(cfg, c, inp).1)
  {
    hide CommandStamps, CommandLimits, Control, Sessions.Begin, Sessions.Finish, Sessions.Record,
         Minutes.Accumulate, CalculateAvailableAmps;
    var (c', r') := Tick(cfg, c, inp);
    if inp.power.None? || cfg.testMode {
      NothingSent(cfg, c, c', r');
    } else {
      var c1 := MaybeClearError(cfg, c, inp);
      var (c2, poll, cs) := ReadVehicle(cfg, c1, inp);
      if cs.None? {
        NothingSent(cfg, c, c', r');
      } else {
        var c3 := RecordSessionSample(cfg, UpdateKnownPlugState(c2, cs.value, inp.now), cs.value);
        var r := Blank(c1, inp).(poll := poll, seen := cs);
        ControlStamps(cfg, c3, inp, inp.power.value, cs.value, r);
        ControlKeepsRecord(cfg, c3, inp, inp.power.value, cs.value, r);
        ShiftStamps(cfg, c, c3, c', r');
      }
    }
  }

  lemma ShiftStamps(cfg: Config, c: Ctl, c1: Ctl, c2: Ctl, r: Record)
    requires CommandStamps(c1, c2, r) && CommandLimits(cfg, c1, r)
    requires c1.lastWakeAttempt == c.lastWakeAttempt && c1.lastChargeStartAttempt == c.lastChargeStartAttempt
    requires c1.lastCommandFailure == c.lastCommandFailure && c1.lastAmpsAdjustAt == c.lastAmpsAdjustAt
    ensures CommandStamps(c, c2, r) && CommandLimits(cfg, c, r)
  {
  }

  // ----- Runs -----

  /** Events m, m+1, ..., n-1 contain no forced refresh. */
  ghost predicate NoRefresh(events: seq<Event>, m: nat, n: nat)
    requires n <= |events|
  {
    forall i :: m <= i < n ==> !events[i].RefreshEvent?
  }

  /** The cooldowns of `c` cover everything `r` recorded. */
  ghost predicate Covers(c: Ctl, r: Record) {
    && (r.poll == Polled ==> c.hasCached && c.lastTeslaPoll >= r.now)
    && (SendsWake(r) ==> c.lastWakeAttempt >= r.end)
    && (SendsStart(r) ==> c.lastChargeStartAttempt >= r.now)
    && (ChargingCommandFailed(r) ==> c.lastCommandFailure >= r.end)
    && (AdjustsAmps(r) ==> c.lastAmpsAdjustAt >= r.end)
  }

  /** The moment event `n` begins; the clock of a mode change does not matter. */
  ghost predicate ClockAt(events: seq<Event>, n: nat, t: Time)
    requires n <= |events|
  {
    && 0 <= t
    && (forall i :: 0 <= i < n && !events[i].ModeEvent? ==> events[i].inp.end <= t)
  }

  lemma {:induction false} StampsNeverAhead(cfg: Config, run: seq<Ctl>, events: seq<Event>, recs: seq<Record>,
                                            n: nat, t: Time)
    requires IsRun(cfg, run, events, recs) && run[0] == New && Ordered(events)
    requires n <= |events| && ClockAt(events, n, t)
    ensures StampsBy(run[n], t)
  {
    if n > 0 {
      hide Tick;
      StampsNeverAhead(cfg, run, events, recs, n - 1, t);
      assert IsStep(cfg, run, events, recs, n - 1);
      match events[n - 1] {
        case TickEvent(inp) =>
          TickStamps(cfg, run[n - 1], inp);
          TickTimes(cfg, run[n - 1], inp);
          StampsStep(run[n - 1], run[n], recs[n - 1], t);
        case RefreshEvent(inp) =>
          TickStamps(cfg, ClearCooldowns(run[n - 1]), inp);
          TickTimes(cfg, ClearCooldowns(run[n - 1]), inp);
          StampsStep(ClearCooldowns(run[n - 1]), run[n], recs[n - 1], t);
        case ModeEvent(_) =>
      }
    }
  }

  lemma TickTimes(cfg: Config, c: Ctl, inp: Input)
    requires cfg.Valid()
    ensures var r := Tick(cfg, c, inp).1; r.start == inp.start && r.now == inp.now && r.end == inp.end
  {
    hide Control, Sessions.Begin, Sessions.Finish, Sessions.Record, Minutes.Accumulate, CalculateAvailableAmps;
    if inp.power.Some? && !cfg.testMode {
      var c1 := MaybeClearError(cfg, c, inp);
      var (c2, poll, cs) := ReadVehicle(cfg, c1, inp);
      if cs.Some? {
        ControlKeepsRecord(cfg, RecordSessionSample(cfg, UpdateKnownPlugState(c2, cs.value, inp.now), cs.value),
                           inp, inp.power.value, cs.value, Blank(c1, inp).(poll := poll, seen := cs));
      }
    }
  }

  lemma StampsStep(c: Ctl, c': Ctl, r: Record, t: Time)
    requires StampsBy(c, t) && StampsFollow(c, c', r) && 0 <= r.now <= r.end <= t
    ensures StampsBy(c', t)
  {
    hide SendsWake, SendsStart, ChargingCommandFailed, AdjustsAmps;
  }

  lemma CoversStep(c: Ctl, c': Ctl, r: Record, old_r: Record)
    requires StampsBy(c, r.start) && StampsFollow(c, c', r) && 0 <= r.start <= r.now <= r.end
    ensures Covers(c, old_r) ==> Covers(c', old_r)
    ensures Covers(c', r)
  {
    hide SendsWake, SendsStart, ChargingCommandFailed, AdjustsAmps;
  }

  /** After event `i`, and until the next forced refresh, the cooldowns cover it. */
  lemma {:induction false} CoveredUntilRefresh(cfg: Config, run: seq<Ctl>, events: seq<Event>, recs: seq<Record>,
                                               i: nat, n: nat)
    requires IsRun(cfg, run, events, recs) && run[0] == New && Ordered(events)
    requires i < n <= |events| && !events[i].ModeEvent? && NoRefresh(events, i + 1, n)
    ensures Covers(run[n], recs[i])
    decreases n
  {
    hide Tick, Covers;
    var k := n - 1;
    if i < k {
      CoveredUntilRefresh(cfg, run, events, recs, i, k);
    }
    assert IsStep(cfg, run, events, recs, k);
    if !events[k].ModeEvent? {
      var c := if events[k].RefreshEvent? then ClearCooldowns(run[k]) else run[k];
      var inp := events[k].inp;
      assert ClockAt(events, k, inp.start);
      StampsNeverAhead(cfg, run, events, recs, k, inp.start);
      TickStamps(cfg, c, inp);
      TickTimes(cfg, c, inp);
      CoversStep(c, run[n], recs[k], recs[i]);
    } else {
      SameCover(run[k], run[n], recs[i]);
    }
  }

  lemma SameCover(c: Ctl, c': Ctl, r: Record)
    requires Covers(c, r) && c' == c.(mode := c'.mode)
    ensures Covers(c', r)
  {
  }

  /** Everything the limiters guarantee between two events of a stretch without
      a forced refresh. */
  ghost predicate Spaced(cfg: Config, earlier: Record, later: Record) {
    && (SendsWake(earlier) && SendsWake(later) ==> later.now - earlier.end >= cfg.wakeRetryInterval)
    && (SendsStart(earlier) && SendsStart(later) ==> later.now - earlier.now >= cfg.chargeStartRetry)
    && (ChargingCommandFailed(earlier) && SendsStart(later) ==> later.now - earlier.end >= cfg.commandFailureBackoff)
    && (AdjustsAmps(earlier) && SendsInChargeAmps(later) ==> later.now - earlier.end >= cfg.ampsAdjustInterval)
    && (earlier.poll == Polled && later.poll != NotPolled ==>
          later.start - earlier.now >= PollInterval(cfg, later.pollState))
  }

  lemma CoveredIsSpaced(cfg: Config, c: Ctl, earlier: Record, later: Record)
    requires Covers(c, earlier) && LimitsHeld(cfg, c, later)
    requires 0 < earlier.now <= earlier.end <= later.start <= later.now
    ensures Spaced(cfg, earlier, later)
  {
    hide SendsWake, SendsStart, SendsInChargeAmps, ChargingCommandFailed, AdjustsAmps;
  }

  /** Between any two ticks without a forced refresh between them: wakes are a
      wake interval apart, start attempts a start interval, no start attempt
      falls within the backoff of a failed charging command, amps commands in
      charge wait for the adjustment interval, and vehicle polls are as far apart
      as the state they are made in demands. */
  lemma RateLimited(cfg: Config, run: seq<Ctl>, events: seq<Event>, recs: seq<Record>, i: nat, j: nat)
    requires IsRun(cfg, run, events, recs) && run[0] == New && Ordered(events)
    requires i < j < |events| && NoRefresh(events, i + 1, j + 1)
    requires !events[i].ModeEvent? && !events[j].ModeEvent?
    ensures Spaced(cfg, recs[i], recs[j])
  {
    hide Tick, Covers, LimitsHeld, StampsFollow, Spaced;
    CoveredUntilRefresh(cfg, run, events, recs, i, j);
    assert IsStep(cfg, run, events, recs, i) && IsStep(cfg, run, events, recs, j);
    TickStamps(cfg, run[j], events[j].inp);
    TickTimes(cfg, run[j], events[j].inp);
    TickTimes(cfg, if events[i].RefreshEvent? then ClearCooldowns(run[i]) else run[i], events[i].inp);
    CoveredIsSpaced(cfg, run[j], recs[i], recs[j]);
  }

  /** The smallest interval any state polls at. */
  function SmallestPollInterval(cfg: Config): Time {
    Min(Min(cfg.chargingPollInterval, cfg.wakeRetryInterval), Min(PollInterval(cfg, ErrorState), cfg.idlePollInterval))
  }

  /** Which of a run's events a span is counted over. */
  datatype Limited = Wakes | StartAttempts | VehiclePolls

  ghost predicate Does(r: Record, what: Limited) {
    match what
    case Wakes => SendsWake(r)
    case StartAttempts => SendsStart(r)
    case VehiclePolls => r.poll == Polled
  }

  function Limit(cfg: Config, what: Limited): Time {
    match what
    case Wakes => cfg.wakeRetryInterval
    case StartAttempts => cfg.chargeStartRetry
    case VehiclePolls => SmallestPollInterval(cfg)
  }

  lemma LimitedApart(cfg: Config, earlier: Record, later: Record, what: Limited)
    requires Spaced(cfg, earlier, later) && Does(earlier, what) && Does(later, what)
    requires earlier.now <= earlier.end && later.start <= later.now
    ensures later.now - earlier.now >= Limit(cfg, what)
  {
    hide SendsWake, SendsStart, SendsInChargeAmps, ChargingCommandFailed, AdjustsAmps;
  }

  /** k wakes, start attempts or successful polls in a stretch without a forced
      refresh span at least k-1 of their interval. */
  lemma {:induction false} SpanOfLimited(cfg: Config, run: seq<Ctl>, events: seq<Event>, recs: seq<Record>,
                                         idx: seq<nat>, what: Limited)
    requires IsRun(cfg, run, events, recs) && run[0] == New && Ordered(events)
    requires |idx| >= 1 && forall k :: 0 <= k < |idx| ==> idx[k] < |events| && Does(recs[idx[k]], what)
    requires forall k, l :: 0 <= k < l < |idx| ==> idx[k] < idx[l]
    requires NoRefresh(events, idx[0] + 1, idx[|idx| - 1] + 1)
    ensures recs[idx[|idx| - 1]].now - recs[idx[0]].now >= (|idx| - 1) * Limit(cfg, what)
  {
    hide Tick, Spaced, Does, Limit;
    if |idx| > 1 {
      var init := idx[..|idx| - 1];
      assert (|idx| - 1) * Limit(cfg, what) == (|init| - 1) * Limit(cfg, what) + Limit(cfg, what);
      var i, j := init[|init| - 1], idx[|idx| - 1];
      SpanOfLimited(cfg, run, events, recs, init, what);
      LimitedEventIsTick(cfg, run, events, recs, i, what);
      LimitedEventIsTick(cfg, run, events, recs, j, what);
      RateLimited(cfg, run, events, recs, i, j);
      LimitedApart(cfg, recs[i], recs[j], what);
    }
  }

  lemma NoRecordDoesNothing(what: Limited)
    ensures !Does(NoRecord, what)
  {
  }

  lemma LimitedEventIsTick(cfg: Config, run: seq<Ctl>, events: seq<Event>, recs: seq<Record>, i: nat, what: Limited)
    requires IsRun(cfg, run, events, recs) && Ordered(events) && i < |events| && Does(recs[i], what)
    ensures !events[i].ModeEvent?
    ensures recs[i].start <= recs[i].now <= recs[i].end
  {
    hide Tick;
    assert IsStep(cfg, run, events, recs, i);
    match events[i] {
      case TickEvent(inp) => TickTimes(cfg, run[i], inp);
      case RefreshEvent(inp) => TickTimes(cfg, ClearCooldowns(run[i]), inp);
      case ModeEvent(_) => NoRecordDoesNothing(what);
    }
  }

  // ----- A failed wake is not a command failure -----

  /** Start attempts back off from failed charging commands only: a tick whose
      one command is a failed wake leaves the failure backoff where it was. */
  lemma FailedWakeStartsNoBackoff(cfg: Config, c: Ctl, inp: Input)
    requires cfg.Valid() && Tick(cfg, c, inp).1.commands == [Wake(false)]
    ensures Tick(cfg, c, inp).0.lastCommandFailure == c.lastCommandFailure
  {
    hide Tick;
    TickStamps(cfg, c, inp);
  }
}
