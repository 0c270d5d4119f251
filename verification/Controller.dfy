/** The charging controller of internal/controller/controller.go: one control
    step, as a function of the controller's fields and of what the inverter, the
    vehicle and the store answer, and the object that performs it in place. */
module Controller {
  import opened Prelude
  import opened ControlLaw
  import Sessions = ChargeSessions
  import Minutes = MinuteAverage

  datatype State = Idle | Monitoring | ChargingState | StoppedLowSurplus | WakePending | ErrorState

  datatype Mode = Auto | Manual

  datatype Config = Config(
    testMode: bool,
    minChargeAmps: int, maxChargeAmps: int, lineVoltage: int,
    deadbandPolls: int, wakeThresholdPolls: int, wakeMinAmpsMargin: int,
    ampsChangeThreshold: int,
    wakeRetryInterval: Time, wakeAfterNonActionableBackoff: Time, pluggedInStaleAfter: Time,
    wakeStartHour: int, wakeEndHour: int,
    chargeStartRetry: Time, commandFailureBackoff: Time, ampsAdjustInterval: Time,
    chargingPollInterval: Time, idlePollInterval: Time,
    pollInterval: Time)
  {
    /** The energy of one ampere over one poll interval. */
    function KWhPerAmp(): real {
      lineVoltage as real * (pollInterval as real / 3_600_000_000_000.0) / 1000.0
    }

    /** Limits that loading the configuration enforces. */
    predicate Valid() {
      1 <= minChargeAmps <= maxChargeAmps && lineVoltage >= 1 && deadbandPolls >= 1 && wakeThresholdPolls >= 1
    }
  }

  datatype Power = Power(pvWatts: int, gridWatts: int, loadWatts: int, surplusWatts: int)

  datatype VehicleReply = Reports(cs: ChargeState) | Offline | ReadFailed

  /** Everything a tick depends on. `start` is the clock before the vehicle is
      read, `now` while it decides, `end` after its commands. */
  datatype Input = Input(
    start: Time, now: Time, end: Time,
    hour: int,
    power: Option<Power>,
    vehicle: VehicleReply,
    setAmpsOk: bool, startOk: bool, stopOk: bool, wakeOk: bool,
    sessionID: Option<int>,
    endSessionOk: bool)

  datatype Command =
    | SetAmps(amps: int, inCharge: bool, ok: bool)
    | StartCharge(ok: bool)
    | StopCharge(ok: bool)
    | Wake(ok: bool)

  datatype VehiclePoll = NotPolled | Polled | PollFailed

  /** How a tick bears on the hysteresis counters. */
  datatype Mark = Ignored | Reset | High | Low

  /** What a tick did: the history that claims about runs are stated over. */
  datatype Record = Record(
    start: Time, now: Time, end: Time,
    poll: VehiclePoll,
    pollState: State,
    seen: Option<ChargeState>,
    mark: Mark,
    amps: int,
    commands: seq<Command>)

  datatype Ctl = Ctl(
    state: State,
    mode: Mode,
    consecutiveLow: nat,
    consecutiveSurplus: nat,
    lastChargeAmps: int,
    lastKnownPluggedIn: bool,
    lastOnlineAt: Time,
    lastTeslaPoll: Time,
    lastWakeAttempt: Time,
    lastNonActionableAt: Time,
    lastChargeStartAttempt: Time,
    lastCommandFailure: Time,
    lastAmpsAdjustAt: Time,
    cached: ChargeState,
    hasCached: bool,
    session: Sessions.Ledger,
    minutes: Minutes.Averager)

  const New := Ctl(Idle, Auto, 0, 0, 0, false, 0, 0, 0, 0, 0, 0, 0, NoChargeState, false,
                   Sessions.NoSession, Minutes.Empty)

  function TransitionTo(c: Ctl, newState: State, inp: Input): Ctl {
    if c.state == newState then c
    else
      var l := if newState == ChargingState then Sessions.Begin(c.session, inp.sessionID) else c.session;
      var l' := if c.state == ChargingState then Sessions.Finish(l, inp.endSessionOk) else l;
      c.(state := newState, session := l')
  }

  function ResetCounters(c: Ctl): Ctl {
    c.(consecutiveLow := 0, consecutiveSurplus := 0)
  }

  /** The step from ErrorState back to Monitoring. */
  function MaybeClearError(cfg: Config, c: Ctl, inp: Input): Ctl {
    if c.state == ErrorState && cfg.commandFailureBackoff > 0 &&
       (c.lastCommandFailure == 0 || inp.start - c.lastCommandFailure >= cfg.commandFailureBackoff)
    then TransitionTo(c, Monitoring, inp)
    else c
  }

  function PollInterval(cfg: Config, state: State): Time {
    match state
    case ChargingState => cfg.chargingPollInterval
    case WakePending => cfg.wakeRetryInterval
    case ErrorState => if cfg.commandFailureBackoff > 0 then cfg.commandFailureBackoff else cfg.idlePollInterval
    case _ => cfg.idlePollInterval
  }

  function ShouldPollTesla(cfg: Config, c: Ctl, t: Time): bool {
    !c.hasCached || t - c.lastTeslaPoll >= PollInterval(cfg, c.state)
  }

  function SetCached(c: Ctl, cs: ChargeState, t: Time): Ctl {
    c.(cached := cs, hasCached := true, lastTeslaPoll := t)
  }

  function UpdateKnownPlugState(c: Ctl, cs: ChargeState, t: Time): Ctl {
    if !cs.isOnline then c
    else c.(
      lastKnownPluggedIn := cs.pluggedIn,
      lastOnlineAt := t,
      lastNonActionableAt :=
        if !cs.pluggedIn || cs.status == Disconnected || cs.status == Complete then t else 0)
  }

  function RecordSessionSample(cfg: Config, c: Ctl, cs: ChargeState): Ctl {
    c.(session := Sessions.Record(cfg.KWhPerAmp(), c.session, cs.status == Charging, cs.ampsActual))
  }

  function ShouldAttemptWake(cfg: Config, c: Ctl, inp: Input): bool {
    && c.lastKnownPluggedIn
    && !(cfg.pluggedInStaleAfter > 0 && c.lastOnlineAt != 0 && inp.now - c.lastOnlineAt > cfg.pluggedInStaleAfter)
    && !(cfg.wakeAfterNonActionableBackoff > 0 && c.lastNonActionableAt != 0 &&
         inp.now - c.lastNonActionableAt < cfg.wakeAfterNonActionableBackoff)
    && cfg.wakeStartHour <= inp.hour < cfg.wakeEndHour
  }

  function IsActionableNonChargingState(s: ChargeStatus): bool {
    s == Stopped || s == NoPower || s == Unknown
  }

  function CanAttemptChargeStart(cfg: Config, c: Ctl, t: Time): bool {
    && !(cfg.chargeStartRetry > 0 && c.lastChargeStartAttempt != 0 &&
         t - c.lastChargeStartAttempt < cfg.chargeStartRetry)
    && !(cfg.commandFailureBackoff > 0 && c.lastCommandFailure != 0 &&
         t - c.lastCommandFailure < cfg.commandFailureBackoff)
  }

  function CanAdjustChargingAmps(cfg: Config, c: Ctl, t: Time): bool {
    cfg.ampsAdjustInterval <= 0 || c.lastAmpsAdjustAt == 0 || t - c.lastAmpsAdjustAt >= cfg.ampsAdjustInterval
  }

  function AccumulateSample(c: Ctl, inp: Input, p: Power, cs: ChargeState, amps: int): Ctl {
    c.(minutes := Minutes.Accumulate(c.minutes, Minutes.Sample(
      inp.end, p.pvWatts, p.gridWatts, p.loadWatts, p.surplusWatts, amps, cs.batteryPct)))
  }

  // ----- Step 6: the decision -----

  function DecideOffline(cfg: Config, c: Ctl, inp: Input, amps: int): (Ctl, seq<Command>) {
    if amps < cfg.minChargeAmps + cfg.wakeMinAmpsMargin then (TransitionTo(c, Monitoring, inp), [])
    else if c.consecutiveSurplus < cfg.wakeThresholdPolls then (TransitionTo(c, Monitoring, inp), [])
    else if c.lastWakeAttempt != 0 && inp.now - c.lastWakeAttempt < cfg.wakeRetryInterval then
      (TransitionTo(c, WakePending, inp), [])
    else
      var c1 := TransitionTo(c, WakePending, inp);
      var c2 := if inp.wakeOk then c1 else TransitionTo(c1, ErrorState, inp);
      (c2.(lastWakeAttempt := inp.end), [Wake(inp.wakeOk)])
  }

  function DecideStart(cfg: Config, c: Ctl, inp: Input, cs: ChargeState, amps: int): (Ctl, seq<Command>) {
    if !IsActionableNonChargingState(cs.status) || !CanAttemptChargeStart(cfg, c, inp.now) then
      (TransitionTo(c, Monitoring, inp), [])
    else
      AttemptStart(c.(lastChargeStartAttempt := inp.now), inp, amps)
  }

  function AttemptStart(c: Ctl, inp: Input, amps: int): (Ctl, seq<Command>) {
    if !inp.setAmpsOk then
      (TransitionTo(c.(lastCommandFailure := inp.end), ErrorState, inp), [SetAmps(amps, false, false)])
    else if !inp.startOk then
      (TransitionTo(c.(lastAmpsAdjustAt := inp.end, lastCommandFailure := inp.end), ErrorState, inp),
       [SetAmps(amps, false, true), StartCharge(false)])
    else
      (TransitionTo(c, ChargingState, inp).(lastChargeAmps := amps, lastAmpsAdjustAt := inp.end),
       [SetAmps(amps, false, true), StartCharge(true)])
  }

  function DecideAdjust(cfg: Config, c: Ctl, inp: Input, amps: int): (Ctl, seq<Command>) {
    var diff := Max(amps - c.lastChargeAmps, c.lastChargeAmps - amps);
    if amps != c.lastChargeAmps && diff >= Max(cfg.ampsChangeThreshold, 1) &&
       CanAdjustChargingAmps(cfg, c, inp.now) then
      var c1 := if inp.setAmpsOk then c.(lastChargeAmps := amps, lastAmpsAdjustAt := inp.end)
                else c.(lastCommandFailure := inp.end);
      (TransitionTo(c1, ChargingState, inp), [SetAmps(amps, true, inp.setAmpsOk)])
    else
      (TransitionTo(c, ChargingState, inp), [])
  }

  function DecideLow(cfg: Config, c: Ctl, inp: Input, cs: ChargeState): (Ctl, seq<Command>) {
    if cs.status == Charging && c.consecutiveLow >= cfg.deadbandPolls then
      (if inp.stopOk then TransitionTo(c, StoppedLowSurplus, inp).(lastChargeAmps := 0)
       else c.(lastCommandFailure := inp.end),
       [StopCharge(inp.stopOk)])
    else if cs.status == Charging then (TransitionTo(c, ChargingState, inp), [])
    else (TransitionTo(c, Monitoring, inp), [])
  }

  function Decide(cfg: Config, c: Ctl, inp: Input, cs: ChargeState, amps: int): (Ctl, seq<Command>) {
    if amps >= cfg.minChargeAmps then
      var c1 := c.(consecutiveLow := 0, consecutiveSurplus := c.consecutiveSurplus + 1);
      if !cs.isOnline then DecideOffline(cfg, c1, inp, amps)
      else if cs.status != Charging then DecideStart(cfg, c1, inp, cs, amps)
      else DecideAdjust(cfg, c1, inp, amps)
    else
      DecideLow(cfg, c.(consecutiveSurplus := 0, consecutiveLow := c.consecutiveLow + 1), inp, cs)
  }

  // ----- A whole tick -----

  function Blank(c: Ctl, inp: Input): Record {
    Record(inp.start, inp.now, inp.end, NotPolled, c.state, None, Ignored, 0, [])
  }

  function TickTestMode(cfg: Config, c: Ctl, inp: Input, p: Power): (Ctl, Record)
    requires cfg.Valid()
  {
    var amps := CalculateAvailableAmps(cfg.lineVoltage, cfg.maxChargeAmps, p.surplusWatts, p.gridWatts, NoChargeState);
    var projected := NoChargeState.(status := OtherStatus);
    if amps >= cfg.minChargeAmps then
      var c1 := TransitionTo(c.(consecutiveLow := 0, consecutiveSurplus := c.consecutiveSurplus + 1), Monitoring, inp);
      (AccumulateSample(c1, inp, p, projected, amps), Blank(c, inp).(mark := High, amps := amps))
    else
      var c1 := TransitionTo(ResetCounters(c), Idle, inp);
      (AccumulateSample(c1, inp, p, projected, amps), Blank(c, inp).(mark := Reset, amps := amps))
  }

  /** Step 2: the cached charge state, or a fresh one; None when the read fails. */
  function ReadVehicle(cfg: Config, c: Ctl, inp: Input): (Ctl, VehiclePoll, Option<ChargeState>) {
    if !ShouldPollTesla(cfg, c, inp.start) then (c, NotPolled, Some(c.cached))
    else match inp.vehicle
      case ReadFailed => (TransitionTo(c, ErrorState, inp), PollFailed, None)
      case Offline => (SetCached(c, NoChargeState, inp.now), Polled, Some(NoChargeState))
      case Reports(cs) => (SetCached(c, cs, inp.now), Polled, Some(cs))
  }

  /** Steps 3 to 8, once the charge state is known. */
  function Control(cfg: Config, c: Ctl, inp: Input, p: Power, cs: ChargeState, r: Record): (Ctl, Record)
    requires cfg.Valid()
  {
    if (!cs.pluggedIn && cs.isOnline) || (!cs.isOnline && !ShouldAttemptWake(cfg, c, inp)) then
      (AccumulateSample(ResetCounters(TransitionTo(c, Idle, inp)), inp, p, cs, 0), r.(mark := Reset))
    else if c.mode == Manual then
      (AccumulateSample(c, inp, p, cs, 0), r)
    else
      var amps := CalculateAvailableAmps(cfg.lineVoltage, cfg.maxChargeAmps, p.surplusWatts, p.gridWatts, cs);
      var (c1, commands) := Decide(cfg, c, inp, cs, amps);
      (AccumulateSample(c1, inp, p, cs, amps),
       r.(mark := if amps >= cfg.minChargeAmps then High else Low, amps := amps, commands := commands))
  }

  function Tick(cfg: Config, c: Ctl, inp: Input): (Ctl, Record)
    requires cfg.Valid()
  {
    if inp.power.None? then (TransitionTo(c, ErrorState, inp), Blank(c, inp))
    else if cfg.testMode then TickTestMode(cfg, c, inp, inp.power.value)
    else
      var c1 := MaybeClearError(cfg, c, inp);
      var (c2, poll, cs) := ReadVehicle(cfg, c1, inp);
      var r := Blank(c1, inp).(poll := poll, seen := cs);
      if cs.None? then (c2, r)
      else
        var c3 := RecordSessionSample(cfg, UpdateKnownPlugState(c2, cs.value, inp.now), cs.value);
        Control(cfg, c3, inp, inp.power.value, cs.value, r)
  }

  function ClearCooldowns(c: Ctl): Ctl {
    c.(hasCached := false, cached := NoChargeState,
       lastTeslaPoll := 0, lastWakeAttempt := 0, lastNonActionableAt := 0,
       lastChargeStartAttempt := 0, lastCommandFailure := 0, lastAmpsAdjustAt := 0,
       consecutiveLow := 0, consecutiveSurplus := 0,
       state := if c.state == ErrorState then Monitoring else c.state)
  }

  /** The controller object; every method performs its step in place. */
  class ChargeController {
    const cfg: Config
    var state: State
    var mode: Mode
    var consecutiveLow: nat
    var consecutiveSurplus: nat
    var lastChargeAmps: int
    var lastKnownPluggedIn: bool
    var lastOnlineAt: Time
    var lastTeslaPoll: Time
    var lastWakeAttempt: Time
    var lastNonActionableAt: Time
    var lastChargeStartAttempt: Time
    var lastCommandFailure: Time
    var lastAmpsAdjustAt: Time
    var cachedChargeState: ChargeState
    var hasCachedState: bool
    // Session bookkeeping, with the history of store calls.
    var activeSessionID: int
    var sessionEnergy: real
    var sessionPeakAmps: int
    var sessionAmpTotal: int
    var sessionSamples: nat
    var sessionLog: seq<Sessions.Entry>
    // Minute averaging, with the history of persisted readings.
    var accumulator: seq<Minutes.Sample>
    var currentMinute: Time
    var flushed: seq<Minutes.Flush>

    ghost function Ledger(): Sessions.Ledger
      reads this`activeSessionID, this`sessionEnergy, this`sessionPeakAmps, this`sessionAmpTotal,
            this`sessionSamples, this`sessionLog
    {
      Sessions.Ledger(activeSessionID, sessionEnergy, sessionPeakAmps, sessionAmpTotal, sessionSamples, sessionLog)
    }

    ghost function Averager(): Minutes.Averager
      reads this`accumulator, this`currentMinute, this`flushed
    {
      Minutes.Averager(accumulator, currentMinute, flushed)
    }

    ghost function Abs(): Ctl
      reads this
    {
      Ctl(state, mode, consecutiveLow, consecutiveSurplus, lastChargeAmps, lastKnownPluggedIn, lastOnlineAt,
          lastTeslaPoll, lastWakeAttempt, lastNonActionableAt, lastChargeStartAttempt, lastCommandFailure,
          lastAmpsAdjustAt, cachedChargeState, hasCachedState, Ledger(), Averager())
    }

    constructor (cfg: Config)
      requires cfg.Valid()
      ensures this.cfg == cfg && Abs() == New
    {
      this.cfg := cfg;
      state, mode, consecutiveLow, consecutiveSurplus := Idle, Auto, 0, 0;
      lastChargeAmps, lastKnownPluggedIn, lastOnlineAt := 0, false, 0;
      lastTeslaPoll, lastWakeAttempt, lastNonActionableAt := 0, 0, 0;
      lastChargeStartAttempt, lastCommandFailure, lastAmpsAdjustAt := 0, 0, 0;
      cachedChargeState, hasCachedState := NoChargeState, false;
      activeSessionID, sessionEnergy, sessionPeakAmps, sessionAmpTotal, sessionSamples := 0, 0.0, 0, 0, 0;
      sessionLog, accumulator, currentMinute, flushed := [], [], 0, [];
    }

    method ResetSessionStatsLocked()
      modifies this`sessionEnergy, this`sessionPeakAmps, this`sessionAmpTotal, this`sessionSamples
      ensures Ledger() == Sessions.ResetStats(old(Ledger()))
    {
      sessionEnergy, sessionPeakAmps, sessionAmpTotal, sessionSamples := 0.0, 0, 0, 0;
    }

    method StartSession(inp: Input)
      modifies this`activeSessionID, this`sessionEnergy, this`sessionPeakAmps, this`sessionAmpTotal,
               this`sessionSamples, this`sessionLog
      ensures Ledger() == Sessions.Begin(old(Ledger()), inp.sessionID)
    {
      ResetSessionStatsLocked();
      if inp.sessionID.Some? {
        activeSessionID := inp.sessionID.value;
        sessionLog := sessionLog + [Sessions.Start(activeSessionID)];
      }
    }

    method EndSession(inp: Input)
      modifies this`activeSessionID, this`sessionEnergy, this`sessionPeakAmps, this`sessionAmpTotal,
               this`sessionSamples, this`sessionLog
      ensures Ledger() == Sessions.Finish(old(Ledger()), inp.endSessionOk)
    {
      var avgAmps := 0.0;
      if sessionSamples > 0 {
        avgAmps := sessionAmpTotal as real / sessionSamples as real;
      }
      if activeSessionID != 0 {
        sessionLog := sessionLog +
          [Sessions.End(activeSessionID, sessionEnergy, sessionPeakAmps, avgAmps, inp.endSessionOk)];
        activeSessionID := 0;
        ResetSessionStatsLocked();
      }
    }

    method Transition(newState: State, inp: Input)
      modifies this
      ensures Abs() == TransitionTo(old(Abs()), newState, inp)
    {
      hide Ledger, Averager;
      var oldState := state;
      if oldState == newState {
        return;
      }
      state := newState;
      if newState == ChargingState && oldState != ChargingState {
        StartSession(inp);
      }
      if oldState == ChargingState && newState != ChargingState {
        EndSession(inp);
      }
    }

    method CountSample(cs: ChargeState)
      modifies this`sessionEnergy, this`sessionPeakAmps, this`sessionAmpTotal, this`sessionSamples, this`sessionLog
      ensures Ledger() == Sessions.Record(cfg.KWhPerAmp(), old(Ledger()), cs.status == Charging, cs.ampsActual)
    {
      if cs.status != Charging || cs.ampsActual <= 0 {
        return;
      }
      if activeSessionID == 0 {
        return;
      }
      if cs.ampsActual > sessionPeakAmps {
        sessionPeakAmps := cs.ampsActual;
      }
      sessionAmpTotal := sessionAmpTotal + cs.ampsActual;
      sessionSamples := sessionSamples + 1;
      sessionEnergy := sessionEnergy + cs.ampsActual as real * cfg.KWhPerAmp();
      sessionLog := sessionLog + [Sessions.Sample(cs.ampsActual)];
    }

    method RecordSample(cs: ChargeState)
      modifies this
      ensures Abs() == RecordSessionSample(cfg, old(Abs()), cs)
    {
      hide Ledger, Averager;
      CountSample(cs);
    }

    method UpdatePlugState(cs: ChargeState, t: Time)
      modifies this
      ensures Abs() == UpdateKnownPlugState(old(Abs()), cs, t)
    {
      hide Ledger, Averager;
      if !cs.isOnline {
        return;
      }
      lastKnownPluggedIn := cs.pluggedIn;
      lastOnlineAt := t;
      if !cs.pluggedIn || cs.status == Disconnected || cs.status == Complete {
        lastNonActionableAt := t;
      } else {
        lastNonActionableAt := 0;
      }
    }

    method FlushMinuteAverage()
      modifies this`flushed
      ensures Averager() == Minutes.FlushMinute(old(Averager()))
    {
      if |accumulator| == 0 {
        return;
      }
      var reading := Minutes.AverageOf(accumulator, currentMinute);
      flushed := flushed + [Minutes.Flush(reading, accumulator)];
    }

    method Gather(x: Minutes.Sample)
      modifies this`accumulator, this`currentMinute, this`flushed
      ensures Averager() == Minutes.Accumulate(old(Averager()), x)
    {
      var thisMinute := Minutes.TruncateToMinute(x.at);
      if currentMinute == 0 {
        currentMinute := thisMinute;
      }
      if thisMinute != currentMinute {
        FlushMinuteAverage();
        currentMinute := thisMinute;
        accumulator := [];
      }
      accumulator := accumulator + [x];
    }

    method Accumulate(inp: Input, p: Power, cs: ChargeState, amps: int)
      modifies this
      ensures Abs() == AccumulateSample(old(Abs()), inp, p, cs, amps)
    {
      hide Ledger, Averager;
      Gather(Minutes.Sample(inp.end, p.pvWatts, p.gridWatts, p.loadWatts, p.surplusWatts, amps, cs.batteryPct));
    }

    method ClearError(inp: Input)
      modifies this
      ensures Abs() == MaybeClearError(cfg, old(Abs()), inp)
    {
      if state != ErrorState || cfg.commandFailureBackoff <= 0 {
        return;
      }
      if lastCommandFailure == 0 || inp.start - lastCommandFailure >= cfg.commandFailureBackoff {
        Transition(Monitoring, inp);
      }
    }

    method PollVehicle(inp: Input) returns (poll: VehiclePoll, cs: Option<ChargeState>)
      modifies this
      ensures (Abs(), poll, cs) == ReadVehicle(cfg, old(Abs()), inp)
    {
      hide Ledger, Averager, TransitionTo;
      cs := Some(cachedChargeState);
      if hasCachedState && inp.start - lastTeslaPoll < PollInterval(cfg, state) {
        return NotPolled, cs;
      }
      match inp.vehicle {
        case ReadFailed =>
          Transition(ErrorState, inp);
          return PollFailed, None;
        case Offline =>
          cs := Some(NoChargeState);
        case Reports(latest) =>
          cs := Some(latest);
      }
      poll := Polled;
      cachedChargeState, hasCachedState, lastTeslaPoll := cs.value, true, inp.now;
    }

    method HandleOffline(inp: Input, amps: int) returns (commands: seq<Command>)
      modifies this
      ensures (Abs(), commands) == DecideOffline(cfg, old(Abs()), inp, amps)
    {
      hide Ledger, Averager, TransitionTo;
      commands := [];
      if amps < cfg.minChargeAmps + cfg.wakeMinAmpsMargin {
        Transition(Monitoring, inp);
      } else if consecutiveSurplus >= cfg.wakeThresholdPolls {
        if lastWakeAttempt != 0 && inp.now - lastWakeAttempt < cfg.wakeRetryInterval {
          Transition(WakePending, inp);
        } else {
          Transition(WakePending, inp);
          commands := [Wake(inp.wakeOk)];
          if !inp.wakeOk {
            Transition(ErrorState, inp);
          }
          lastWakeAttempt := inp.end;
        }
      } else {
        Transition(Monitoring, inp);
      }
    }

    method MayAttemptChargeStart(t: Time) returns (b: bool)
      ensures b == CanAttemptChargeStart(cfg, Abs(), t)
    {
      if cfg.chargeStartRetry > 0 && lastChargeStartAttempt != 0 && t - lastChargeStartAttempt < cfg.chargeStartRetry {
        return false;
      }
      if cfg.commandFailureBackoff > 0 && lastCommandFailure != 0 &&
         t - lastCommandFailure < cfg.commandFailureBackoff {
        return false;
      }
      b := true;
    }

    method HandleStart(inp: Input, cs: ChargeState, amps: int) returns (commands: seq<Command>)
      modifies this
      ensures (Abs(), commands) == DecideStart(cfg, old(Abs()), inp, cs, amps)
    {
      hide Ledger, Averager, TransitionTo, CanAttemptChargeStart, AttemptStart;
      commands := [];
      if !IsActionableNonChargingState(cs.status) {
        Transition(Monitoring, inp);
        return;
      }
      var allowed := MayAttemptChargeStart(inp.now);
      if !allowed {
        Transition(Monitoring, inp);
        return;
      }
      lastChargeStartAttempt := inp.now;
      commands := SendStart(inp, amps);
    }

    method SendStart(inp: Input, amps: int) returns (commands: seq<Command>)
      modifies this
      ensures (Abs(), commands) == AttemptStart(old(Abs()), inp, amps)
    {
      hide Ledger, Averager, TransitionTo;
      if !inp.setAmpsOk {
        commands := [SetAmps(amps, false, false)];
        lastCommandFailure := inp.end;
        Transition(ErrorState, inp);
      } else if !inp.startOk {
        commands := [SetAmps(amps, false, true), StartCharge(false)];
        lastAmpsAdjustAt, lastCommandFailure := inp.end, inp.end;
        Transition(ErrorState, inp);
      } else {
        commands := [SetAmps(amps, false, true), StartCharge(true)];
        Transition(ChargingState, inp);
        lastChargeAmps, lastAmpsAdjustAt := amps, inp.end;
      }
    }

    method HandleAdjust(inp: Input, amps: int) returns (commands: seq<Command>)
      modifies this
      ensures (Abs(), commands) == DecideAdjust(cfg, old(Abs()), inp, amps)
    {
      hide Ledger, Averager, TransitionTo;
      commands := [];
      var ampsDiff := amps - lastChargeAmps;
      if ampsDiff < 0 {
        ampsDiff := -ampsDiff;
      }
      var threshold := cfg.ampsChangeThreshold;
      if threshold < 1 {
        threshold := 1;
      }
      var allowed := cfg.ampsAdjustInterval <= 0 || lastAmpsAdjustAt == 0
                     || inp.now - lastAmpsAdjustAt >= cfg.ampsAdjustInterval;
      if amps != lastChargeAmps && ampsDiff >= threshold && allowed {
        commands := [SetAmps(amps, true, inp.setAmpsOk)];
        if !inp.setAmpsOk {
          lastCommandFailure := inp.end;
        } else {
          lastChargeAmps := amps;
          lastAmpsAdjustAt := inp.end;
        }
      }
      Transition(ChargingState, inp);
    }

    method HandleLow(inp: Input, cs: ChargeState) returns (commands: seq<Command>)
      modifies this
      ensures (Abs(), commands) == DecideLow(cfg, old(Abs()), inp, cs)
    {
      hide Ledger, Averager, TransitionTo;
      commands := [];
      if cs.status == Charging && consecutiveLow >= cfg.deadbandPolls {
        commands := [StopCharge(inp.stopOk)];
        if !inp.stopOk {
          lastCommandFailure := inp.end;
        } else {
          Transition(StoppedLowSurplus, inp);
          lastChargeAmps := 0;
        }
      } else if cs.status == Charging {
        Transition(ChargingState, inp);
      } else {
        Transition(Monitoring, inp);
      }
    }

    method MakeDecision(inp: Input, cs: ChargeState, amps: int) returns (commands: seq<Command>)
      modifies this
      ensures (Abs(), commands) == Decide(cfg, old(Abs()), inp, cs, amps)
    {
      hide DecideOffline, DecideStart, DecideAdjust, DecideLow;
      if amps >= cfg.minChargeAmps {
        consecutiveLow := 0;
        consecutiveSurplus := consecutiveSurplus + 1;
        if !cs.isOnline {
          commands := HandleOffline(inp, amps);
        } else if cs.status != Charging {
          commands := HandleStart(inp, cs, amps);
        } else {
          commands := HandleAdjust(inp, amps);
        }
      } else {
        consecutiveSurplus := 0;
        consecutiveLow := consecutiveLow + 1;
        commands := HandleLow(inp, cs);
      }
    }

    method ResetHysteresis()
      modifies this
      ensures Abs() == ResetCounters(old(Abs()))
    {
      hide Ledger, Averager;
      consecutiveLow, consecutiveSurplus := 0, 0;
    }

    method RunTestMode(inp: Input, p: Power) returns (r: Record)
      requires cfg.Valid()
      modifies this
      ensures (Abs(), r) == TickTestMode(cfg, old(Abs()), inp, p)
    {
      hide TransitionTo, AccumulateSample;
      var amps := CalculateAvailableAmps(cfg.lineVoltage, cfg.maxChargeAmps, p.surplusWatts, p.gridWatts,
                                         NoChargeState);
      r := Record(inp.start, inp.now, inp.end, NotPolled, state, None, Ignored, amps, []);
      if amps >= cfg.minChargeAmps {
        consecutiveLow := 0;
        consecutiveSurplus := consecutiveSurplus + 1;
        Transition(Monitoring, inp);
        r := r.(mark := High);
      } else {
        ResetHysteresis();
        Transition(Idle, inp);
        r := r.(mark := Reset);
      }
      Accumulate(inp, p, NoChargeState.(status := OtherStatus), amps);
    }

    method RunControl(inp: Input, p: Power, cs: ChargeState, r0: Record) returns (r: Record)
      requires cfg.Valid()
      modifies this
      ensures (Abs(), r) == Control(cfg, old(Abs()), inp, p, cs, r0)
    {
      hide TransitionTo, AccumulateSample, Decide;
      r := r0;
      var awake := ShouldAttemptWakeNow(inp);
      if (!cs.pluggedIn && cs.isOnline) || (!cs.isOnline && !awake) {
        Transition(Idle, inp);
        ResetHysteresis();
        Accumulate(inp, p, cs, 0);
        return r.(mark := Reset);
      }
      if mode == Manual {
        Accumulate(inp, p, cs, 0);
        return;
      }
      var amps := CalculateAvailableAmps(cfg.lineVoltage, cfg.maxChargeAmps, p.surplusWatts, p.gridWatts, cs);
      var commands := MakeDecision(inp, cs, amps);
      Accumulate(inp, p, cs, amps);
      r := r.(mark := if amps >= cfg.minChargeAmps then High else Low, amps := amps, commands := commands);
    }

    method ShouldAttemptWakeNow(inp: Input) returns (b: bool)
      ensures b == ShouldAttemptWake(cfg, Abs(), inp)
    {
      if !lastKnownPluggedIn {
        return false;
      }
      if cfg.pluggedInStaleAfter > 0 && lastOnlineAt != 0 && inp.now - lastOnlineAt > cfg.pluggedInStaleAfter {
        return false;
      }
      if cfg.wakeAfterNonActionableBackoff > 0 && lastNonActionableAt != 0 &&
         inp.now - lastNonActionableAt < cfg.wakeAfterNonActionableBackoff {
        return false;
      }
      b := inp.hour >= cfg.wakeStartHour && inp.hour < cfg.wakeEndHour;
    }

    method RunTick(inp: Input) returns (r: Record)
      requires cfg.Valid()
      modifies this
      ensures (Abs(), r) == Tick(cfg, old(Abs()), inp)
    {
      hide TransitionTo, MaybeClearError, ReadVehicle, Control, TickTestMode, RecordSessionSample, UpdateKnownPlugState;
      if inp.power.None? {
        r := Record(inp.start, inp.now, inp.end, NotPolled, state, None, Ignored, 0, []);
        Transition(ErrorState, inp);
        return;
      }
      if cfg.testMode {
        r := RunTestMode(inp, inp.power.value);
        return;
      }
      ClearError(inp);
      var pollState := state;
      var poll, cs := PollVehicle(inp);
      r := Record(inp.start, inp.now, inp.end, poll, pollState, cs, Ignored, 0, []);
      if cs.None? {
        return;
      }
      UpdatePlugState(cs.value, inp.now);
      RecordSample(cs.value);
      r := RunControl(inp, inp.power.value, cs.value, r);
    }

    method SetMode(m: Mode)
      modifies this
      ensures Abs() == old(Abs()).(mode := m)
    {
      mode := m;
    }

    method ClearTimers()
      modifies this`lastTeslaPoll, this`lastWakeAttempt, this`lastNonActionableAt,
               this`lastChargeStartAttempt, this`lastCommandFailure, this`lastAmpsAdjustAt
      ensures lastTeslaPoll == lastWakeAttempt == lastNonActionableAt == 0
      ensures lastChargeStartAttempt == lastCommandFailure == lastAmpsAdjustAt == 0
    {
      lastTeslaPoll, lastWakeAttempt, lastNonActionableAt := 0, 0, 0;
      lastChargeStartAttempt, lastCommandFailure, lastAmpsAdjustAt := 0, 0, 0;
    }

    method ClearCacheAndCounters()
      modifies this`hasCachedState, this`cachedChargeState, this`consecutiveLow, this`consecutiveSurplus
      ensures !hasCachedState && cachedChargeState == NoChargeState && consecutiveLow == consecutiveSurplus == 0
    {
      hasCachedState, cachedChargeState := false, NoChargeState;
      consecutiveLow, consecutiveSurplus := 0, 0;
    }

    method ClearAllCooldowns()
      modifies this
      ensures Abs() == ClearCooldowns(old(Abs()))
    {
      hide Ledger, Averager;
      ClearCacheAndCounters();
      ClearTimers();
      if state == ErrorState {
        state := Monitoring;
      }
    }

    method ForceRefresh(inp: Input) returns (r: Record)
      requires cfg.Valid()
      modifies this
      ensures (Abs(), r) == Tick(cfg, ClearCooldowns(old(Abs())), inp)
    {
      hide Tick, ClearCooldowns;
      ClearAllCooldowns();
      r := RunTick(inp);
    }
  }
}
