/** Exactly when the controller tries to start a charge or wakes the car, in terms of
    its history. */
module StartAttempts {
  import opened Prelude
  import opened ControlLaw
  import opened Controller
  import opened ControllerRuns
  import opened Hysteresis
  import opened RateLimits
  import Sessions = ChargeSessions
  import Minutes = MinuteAverage

  /** The tick is high and finds the car online, able and not yet charging. */
  ghost predicate StartWanted(r: Record) {
    && r.mark == High && r.seen.Some? && r.seen.value.isOnline
    && IsActionableNonChargingState(r.seen.value.status)
  }

  // ----- One tick -----

  lemma DecideStarts(cfg: Config, c: Ctl, inp: Input, cs: ChargeState, amps: int)
    ensures (exists i :: 0 <= i < |Decide(cfg, c, inp, cs, amps).1|
                         && Decide(cfg, c, inp, cs, amps).1[i].SetAmps? && !Decide(cfg, c, inp, cs, amps).1[i].inCharge)
       <==> && amps >= cfg.minChargeAmps && cs.isOnline && IsActionableNonChargingState(cs.status)
            && CanAttemptChargeStart(cfg, c, inp.now)
  {
    hide TransitionTo;
    var commands := Decide(cfg, c, inp, cs, amps).1;
    assert |commands| == 2 ==> commands[0].SetAmps? && !commands[0].inCharge && commands[1].StartCharge?;
    assert |commands| == 1 && commands[0].SetAmps? ==> (commands[0].inCharge <==> cs.status == Charging);
  }

  lemma ControlStarts(cfg: Config, c: Ctl, inp: Input, p: Power, cs: ChargeState, r: Record)
    requires cfg.Valid() && r == r.(now := inp.now, seen := Some(cs), mark := Ignored, amps := 0, commands := [])
    ensures var r' := Control(cfg, c, inp, p, cs, r).1;
            SendsStart(r') <==> StartWanted(r') && CanAttemptChargeStart(cfg, c, r'.now)
  {
    hide TransitionTo, Decide, Minutes.Accumulate, CalculateAvailableAmps, CanAttemptChargeStart,
         IsActionableNonChargingState;
    var amps := CalculateAvailableAmps(cfg.lineVoltage, cfg.maxChargeAmps, p.surplusWatts, p.gridWatts, cs);
    DecideStarts(cfg, c, inp, cs, amps);
  }

  lemma TickStarts(cfg: Config, c: Ctl, inp: Input)
    requires cfg.Valid()
    ensures var r := Tick(cfg, c, inp).1;
            SendsStart(r) <==> StartWanted(r) && CanAttemptChargeStart(cfg, c, r.now)
  {
    hide Control, Sessions.Begin, Sessions.Finish, Sessions.Record, Minutes.Accumulate, CalculateAvailableAmps;
    if inp.power.Some? && !cfg.testMode {
      var c1 := MaybeClearError(cfg, c, inp);
      var (c2, poll, cs) := ReadVehicle(cfg, c1, inp);
      if cs.Some? {
        var c3 := RecordSessionSample(cfg, UpdateKnownPlugState(c2, cs.value, inp.now), cs.value);
        assert c3.lastChargeStartAttempt == c.lastChargeStartAttempt && c3.lastCommandFailure == c.lastCommandFailure;
        ControlStarts(cfg, c3, inp, inp.power.value, cs.value, Blank(c1, inp).(poll := poll, seen := cs));
      }
    }
  }

  // ----- The two cooldowns as history -----

  /** When the last start was attempted since the last forced refresh; 0 if never. */
  ghost function LastAttempt(events: seq<Event>, recs: seq<Record>, n: nat): Time
    requires n <= |events| == |recs|
  {
    if n == 0 then 0
    else if SendsStart(recs[n - 1]) then recs[n - 1].now
    else if events[n - 1].RefreshEvent? then 0
    else LastAttempt(events, recs, n - 1)
  }

  /** When a charging command last failed since the last forced refresh; 0 if never.
      Failed wakes are passed over. */
  ghost function LastFailure(events: seq<Event>, recs: seq<Record>, n: nat): Time
    requires n <= |events| == |recs|
  {
    if n == 0 then 0
    else if ChargingCommandFailed(recs[n - 1]) then recs[n - 1].end
    else if events[n - 1].RefreshEvent? then 0
    else LastFailure(events, recs, n - 1)
  }

  lemma NoCommands()
    ensures !SendsStart(NoRecord) && !ChargingCommandFailed(NoRecord)
  {
  }

  lemma {:induction false} CooldownsAreHistory(cfg: Config, run: seq<Ctl>, events: seq<Event>, recs: seq<Record>,
                                               n: nat)
    requires IsRun(cfg, run, events, recs) && run[0] == New && n <= |events|
    ensures run[n].lastChargeStartAttempt == LastAttempt(events, recs, n)
    ensures run[n].lastCommandFailure == LastFailure(events, recs, n)
  {
    hide Tick, SendsStart, ChargingCommandFailed;
    if n > 0 {
      CooldownsAreHistory(cfg, run, events, recs, n - 1);
      assert IsStep(cfg, run, events, recs, n - 1);
      match events[n - 1] {
        case TickEvent(inp) => TickStamps(cfg, run[n - 1], inp);
        case RefreshEvent(inp) => TickStamps(cfg, ClearCooldowns(run[n - 1]), inp);
        case ModeEvent(_) => NoCommands();
      }
    }
  }

  /** A cooldown of `wait` that began at `since` is over at `t`; 0 is never begun. */
  predicate Over(wait: Time, since: Time, t: Time) {
    wait <= 0 || since == 0 || t - since >= wait
  }

  /** What is left of a cooldown when event `e` starts its tick. */
  function Standing(e: Event, since: Time): Time {
    if e.RefreshEvent? then 0 else since
  }

  /** Over any run a start is attempted exactly when the tick is high, the car is
      online in an actionable state, and both the start cooldown and the backoff of
      failed charging commands are over. A wake, failed or not, appears nowhere. */
  lemma {:induction false} StartExactly(cfg: Config, run: seq<Ctl>, events: seq<Event>, recs: seq<Record>, n: nat)
    requires IsRun(cfg, run, events, recs) && run[0] == New && n < |events|
    ensures SendsStart(recs[n]) <==>
              && StartWanted(recs[n])
              && Over(cfg.chargeStartRetry, Standing(events[n], LastAttempt(events, recs, n)), recs[n].now)
              && Over(cfg.commandFailureBackoff, Standing(events[n], LastFailure(events, recs, n)), recs[n].now)
  {
    hide Tick, SendsStart, StartWanted, LastAttempt, LastFailure;
    CooldownsAreHistory(cfg, run, events, recs, n);
    assert IsStep(cfg, run, events, recs, n);
    match events[n] {
      case TickEvent(inp) => TickStarts(cfg, run[n], inp);
      case RefreshEvent(inp) => TickStarts(cfg, ClearCooldowns(run[n]), inp);
      case ModeEvent(_) =>
        NoCommands();
        NothingWanted();
    }
  }

  lemma NothingWanted()
    ensures !StartWanted(NoRecord)
  {
  }

  /** Events i to j-1 send no charging command and force no refresh; wakes are allowed. */
  ghost predicate OnlyWakes(events: seq<Event>, recs: seq<Record>, i: nat, j: nat)
    requires i <= j <= |events| == |recs|
  {
    forall k :: i <= k < j ==> !events[k].RefreshEvent? && !SendsStart(recs[k]) && !ChargingCommandFailed(recs[k])
  }

  /** So when a wake fails at event i and nothing but wakes happens until event j, a
      start at j needs only what it would have needed at i: the failed wake delays
      nothing, and keeps a start out of its backoff exactly when one of the two
      cooldowns in force before it still runs, or none is wanted. */
  lemma {:induction false} StartAfterFailedWake(cfg: Config, run: seq<Ctl>, events: seq<Event>, recs: seq<Record>,
                                                i: nat, j: nat)
    requires IsRun(cfg, run, events, recs) && run[0] == New && i < j < |events|
    requires recs[i].commands == [Wake(false)] && OnlyWakes(events, recs, i + 1, j) && !events[j].RefreshEvent?
    ensures SendsStart(recs[j]) <==>
              && StartWanted(recs[j])
              && Over(cfg.chargeStartRetry, Standing(events[i], LastAttempt(events, recs, i)), recs[j].now)
              && Over(cfg.commandFailureBackoff, Standing(events[i], LastFailure(events, recs, i)), recs[j].now)
  {
    StartExactly(cfg, run, events, recs, j);
    WakesLeaveCooldowns(events, recs, i + 1, j);
    OnlyAWake(recs[i]);
    hide SendsStart, StartWanted, ChargingCommandFailed;
  }

  lemma OnlyAWake(r: Record)
    requires r.commands == [Wake(false)]
    ensures !SendsStart(r) && !ChargingCommandFailed(r)
  {
  }

  lemma {:induction false} WakesLeaveCooldowns(events: seq<Event>, recs: seq<Record>, i: nat, j: nat)
    requires i <= j <= |events| == |recs| && OnlyWakes(events, recs, i, j)
    ensures LastAttempt(events, recs, j) == LastAttempt(events, recs, i)
    ensures LastFailure(events, recs, j) == LastFailure(events, recs, i)
  {
    if i < j {
      WakesLeaveCooldowns(events, recs, i, j - 1);
    }
  }

  // ----- Wakes -----

  /** When the car was last sent a wake since the last forced refresh; 0 if never. */
  ghost function LastWake(events: seq<Event>, recs: seq<Record>, n: nat): Time
    requires n <= |events| == |recs|
  {
    if n == 0 then 0
    else if SendsWake(recs[n - 1]) then recs[n - 1].end
    else if events[n - 1].RefreshEvent? then 0
    else LastWake(events, recs, n - 1)
  }

  lemma {:induction false} WakeIsHistory(cfg: Config, run: seq<Ctl>, events: seq<Event>, recs: seq<Record>, n: nat)
    requires IsRun(cfg, run, events, recs) && run[0] == New && n <= |events|
    ensures run[n].lastWakeAttempt == LastWake(events, recs, n)
  {
    hide Tick, SendsWake;
    if n > 0 {
      WakeIsHistory(cfg, run, events, recs, n - 1);
      assert IsStep(cfg, run, events, recs, n - 1);
      match events[n - 1] {
        case TickEvent(inp) => TickStamps(cfg, run[n - 1], inp);
        case RefreshEvent(inp) => TickStamps(cfg, ClearCooldowns(run[n - 1]), inp);
        case ModeEvent(_) => NothingSentWithoutTick(cfg, 0);
      }
    }
  }

  /** Over any run the car is woken exactly when the tick is high, the car offline, the
      margin cleared, the last `wakeThresholdPolls` evaluated ticks were high, and the
      last wake since a forced refresh is the retry interval ago. */
  lemma {:induction false} WakeByHistory(cfg: Config, run: seq<Ctl>, events: seq<Event>, recs: seq<Record>, n: nat)
    requires IsRun(cfg, run, events, recs) && run[0] == New && n < |events|
    ensures SendsWake(recs[n]) <==>
              && recs[n].mark == High && recs[n].seen.Some? && !recs[n].seen.value.isOnline
              && recs[n].amps >= cfg.minChargeAmps + cfg.wakeMinAmpsMargin
              && Trailing(Marks(events, recs, n + 1), High) >= cfg.wakeThresholdPolls
              && (Standing(events[n], LastWake(events, recs, n)) == 0
                  || recs[n].now - Standing(events[n], LastWake(events, recs, n)) >= cfg.wakeRetryInterval)
  {
    hide Tick, SendsWake, LastWake, Trailing, Marks;
    WakeExactly(cfg, run, events, recs, n);
    WakeIsHistory(cfg, run, events, recs, n);
  }
}
