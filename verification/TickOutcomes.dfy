/** What every tick sees, decides, sends and leaves behind, in terms of its inputs and of
    the history of the run. */
module TickOutcomes {
  import opened Prelude
  import opened ControlLaw
  import opened Controller
  import opened ControllerRuns
  import opened Hysteresis
  import opened RateLimits
  import opened StartAttempts
  import Sessions = ChargeSessions
  import Minutes = MinuteAverage

  // ----- History -----

  function ModeAt(events: seq<Event>, n: nat): Mode
    requires n <= |events|
  {
    if n == 0 then Auto else if events[n - 1].ModeEvent? then events[n - 1].mode else ModeAt(events, n - 1)
  }

  /** What the last successful vehicle poll since the last forced refresh reported. */
  function LastReading(events: seq<Event>, recs: seq<Record>, n: nat): Option<ChargeState>
    requires n <= |events| == |recs|
  {
    if n == 0 then None
    else if recs[n - 1].poll == Polled then recs[n - 1].seen
    else if events[n - 1].RefreshEvent? then None
    else LastReading(events, recs, n - 1)
  }

  /** And when that poll was. */
  function LastPoll(events: seq<Event>, recs: seq<Record>, n: nat): Time
    requires n <= |events| == |recs|
  {
    if n == 0 then 0
    else if recs[n - 1].poll == Polled then recs[n - 1].now
    else if events[n - 1].RefreshEvent? then 0
    else LastPoll(events, recs, n - 1)
  }

  predicate SeesOnline(r: Record) {
    r.seen.Some? && r.seen.value.isOnline
  }

  /** When a tick last saw the car online, from a poll or from the cache; 0 if never. */
  function LastOnline(recs: seq<Record>, n: nat): Time
    requires n <= |recs|
  {
    if n == 0 then 0 else if SeesOnline(recs[n - 1]) then recs[n - 1].now else LastOnline(recs, n - 1)
  }

  predicate CannotCharge(cs: ChargeState) {
    !cs.pluggedIn || cs.status == Disconnected || cs.status == Complete
  }

  /** When the car, as last seen online since the last forced refresh, could not charge;
      0 if it could, or was not seen. */
  function LastNonActionable(events: seq<Event>, recs: seq<Record>, n: nat): Time
    requires n <= |events| == |recs|
  {
    if n == 0 then 0
    else if SeesOnline(recs[n - 1]) then (if CannotCharge(recs[n - 1].seen.value) then recs[n - 1].now else 0)
    else if events[n - 1].RefreshEvent? then 0
    else LastNonActionable(events, recs, n - 1)
  }

  /** The amps of the last adjustment or completed start; 0 after a successful stop. */
  function AfterCommands(commands: seq<Command>, adopted: int): int {
    if |commands| == 1 && commands[0].SetAmps? && commands[0].inCharge && commands[0].ok then commands[0].amps
    else if |commands| == 2 && commands[0].SetAmps? && commands[1] == StartCharge(true) then commands[0].amps
    else if commands == [StopCharge(true)] then 0
    else adopted
  }

  function LastAdopted(recs: seq<Record>, n: nat): int
    requires n <= |recs|
  {
    if n == 0 then 0 else AfterCommands(recs[n - 1].commands, LastAdopted(recs, n - 1))
  }

  /** When amps were last sent successfully, in charge or to start, since the last
      forced refresh; 0 if never. */
  ghost function LastAdjust(events: seq<Event>, recs: seq<Record>, n: nat): Time
    requires n <= |events| == |recs|
  {
    if n == 0 then 0
    else if AdjustsAmps(recs[n - 1]) then recs[n - 1].end
    else if events[n - 1].RefreshEvent? then 0
    else LastAdjust(events, recs, n - 1)
  }

  // ----- The vehicle as a tick sees it -----

  /** A poll is due: nothing is cached, or the interval of the state has passed. */
  predicate PollDue(cfg: Config, state: State, cached: bool, since: Time, t: Time) {
    || !cached
    || (state == ChargingState && t - since >= cfg.chargingPollInterval)
    || (state == WakePending && t - since >= cfg.wakeRetryInterval)
    || (state == ErrorState && cfg.commandFailureBackoff > 0 && t - since >= cfg.commandFailureBackoff)
    || (state == ErrorState && cfg.commandFailureBackoff <= 0 && t - since >= cfg.idlePollInterval)
    || (state in {Idle, Monitoring, StoppedLowSurplus} && t - since >= cfg.idlePollInterval)
  }

  /** What the tick sees, given what the last poll reported. */
  ghost predicate SeesRightly(cfg: Config, inp: Input, r: Record, reading: Option<ChargeState>, since: Time) {
    if cfg.testMode || inp.power.None? then r.poll == NotPolled && r.seen == None
    else if !PollDue(cfg, r.pollState, reading.Some?, since, inp.start) then r.poll == NotPolled && r.seen == reading
    else
      match inp.vehicle
      case ReadFailed => r.poll == PollFailed && r.seen == None
      case Offline => r.poll == Polled && r.seen == Some(NoChargeState)
      case Reports(cs) => r.poll == Polled && r.seen == Some(cs)
  }

  function Cached(c: Ctl): Option<ChargeState> {
    if c.hasCached then Some(c.cached) else None
  }

  /** What no decision touches. */
  predicate SameVehicle(c: Ctl, c': Ctl) {
    && c'.cached == c.cached && c'.hasCached == c.hasCached && c'.lastTeslaPoll == c.lastTeslaPoll
    && c'.lastOnlineAt == c.lastOnlineAt && c'.lastNonActionableAt == c.lastNonActionableAt
    && c'.mode == c.mode
  }

  lemma DecideKeepsVehicle(cfg: Config, c: Ctl, inp: Input, cs: ChargeState, amps: int)
    ensures SameVehicle(c, Decide(cfg, c, inp, cs, amps).0)
  {
    hide DecideOffline, DecideStart, DecideAdjust, DecideLow;
    var high := c.(consecutiveLow := 0, consecutiveSurplus := c.consecutiveSurplus + 1);
    OfflineKeepsVehicle(cfg, high, inp, amps);
    StartKeepsVehicle(cfg, high, inp, cs, amps);
    AdjustKeepsVehicle(cfg, high, inp, amps);
    LowKeepsVehicle(cfg, c.(consecutiveSurplus := 0, consecutiveLow := c.consecutiveLow + 1), inp, cs);
  }

  lemma OfflineKeepsVehicle(cfg: Config, c: Ctl, inp: Input, amps: int)
    ensures SameVehicle(c, DecideOffline(cfg, c, inp, amps).0)
  {
    hide Sessions.Begin, Sessions.Finish;
  }

  lemma StartKeepsVehicle(cfg: Config, c: Ctl, inp: Input, cs: ChargeState, amps: int)
    ensures SameVehicle(c, DecideStart(cfg, c, inp, cs, amps).0)
  {
    hide Sessions.Begin, Sessions.Finish, CanAttemptChargeStart;
  }

  lemma AdjustKeepsVehicle(cfg: Config, c: Ctl, inp: Input, amps: int)
    ensures SameVehicle(c, DecideAdjust(cfg, c, inp, amps).0)
  {
    hide Sessions.Begin, Sessions.Finish;
  }

  lemma LowKeepsVehicle(cfg: Config, c: Ctl, inp: Input, cs: ChargeState)
    ensures SameVehicle(c, DecideLow(cfg, c, inp, cs).0)
  {
    hide Sessions.Begin, Sessions.Finish;
  }

  lemma ControlKeepsVehicle(cfg: Config, c: Ctl, inp: Input, p: Power, cs: ChargeState, r: Record)
    requires cfg.Valid()
    ensures var (c', r') := Control(cfg, c, inp, p, cs, r);
            && SameVehicle(c, c')
            && r'.seen == r.seen && r'.poll == r.poll && r'.pollState == r.pollState && r'.now == r.now
  {
    hide Decide, Sessions.Begin, Sessions.Finish, Minutes.Accumulate, CalculateAvailableAmps;
    DecideKeepsVehicle(cfg, c, inp, cs,
      CalculateAvailableAmps(cfg.lineVoltage, cfg.maxChargeAmps, p.surplusWatts, p.gridWatts, cs));
  }

  lemma TickSees(cfg: Config, c: Ctl, inp: Input)
    requires cfg.Valid()
    ensures var (c', r) := Tick(cfg, c, inp);
            && SeesRightly(cfg, inp, r, Cached(c), c.lastTeslaPoll)
            && Cached(c') == (if r.poll == Polled then r.seen else Cached(c))
            && c'.lastTeslaPoll == (if r.poll == Polled then r.now else c.lastTeslaPoll)
            && c'.lastOnlineAt == (if SeesOnline(r) then r.now else c.lastOnlineAt)
            && c'.lastNonActionableAt ==
                 (if SeesOnline(r) then (if CannotCharge(r.seen.value) then r.now else 0) else c.lastNonActionableAt)
            && c'.mode == c.mode
  {
    hide Control, Sessions.Begin, Sessions.Finish, Sessions.Record, Minutes.Accumulate, CalculateAvailableAmps;
    if inp.power.Some? && !cfg.testMode {
      var c1 := MaybeClearError(cfg, c, inp);
      var (c2, poll, cs) := ReadVehicle(cfg, c1, inp);
      assert PollDue(cfg, c1.state, c.hasCached, c.lastTeslaPoll, inp.start) == ShouldPollTesla(cfg, c1, inp.start);
      if cs.Some? {
        var c3 := RecordSessionSample(cfg, UpdateKnownPlugState(c2, cs.value, inp.now), cs.value);
        ControlKeepsVehicle(cfg, c3, inp, inp.power.value, cs.value, Blank(c1, inp).(poll := poll, seen := cs));
      }
    }
  }

  // ----- Which ticks are evaluated -----

  /** Leave to wake an offline car. */
  predicate MayWake(cfg: Config, plugged: bool, online: Time, nonActionable: Time, now: Time, hour: int) {
    && plugged
    && (cfg.pluggedInStaleAfter <= 0 || online == 0 || now - online <= cfg.pluggedInStaleAfter)
    && Over(cfg.wakeAfterNonActionableBackoff, nonActionable, now)
    && cfg.wakeStartHour <= hour < cfg.wakeEndHour
  }

  predicate Evaluated(r: Record) {
    r.mark == High || r.mark == Low
  }

  /** The tick reached the decision: the car was read, the mode is automatic, and the car
      is online and plugged in, or offline with leave to wake it. */
  ghost predicate Reaches(cfg: Config, inp: Input, r: Record, mode: Mode, mayWake: bool) {
    && inp.power.Some? && r.seen.Some? && mode == Auto
    && (if r.seen.value.isOnline then r.seen.value.pluggedIn else mayWake)
  }

  /** The amps and the mark are those of the law on what was read; a tick that is not
      evaluated sends nothing, and one that is sends at most one thing, with its amps. */
  ghost predicate DecidesRightly(cfg: Config, inp: Input, r: Record)
    requires cfg.Valid()
  {
    && (Evaluated(r) ==>
          && inp.power.Some? && r.seen.Some?
          && r.amps == CalculateAvailableAmps(cfg.lineVoltage, cfg.maxChargeAmps, inp.power.value.surplusWatts,
                                              inp.power.value.gridWatts, r.seen.value)
          && (r.mark == High <==> r.amps >= cfg.minChargeAmps))
    && (!Evaluated(r) ==> r.commands == [] && r.amps == 0)
    && (|| r.commands == []
        || r.commands == [SetAmps(r.amps, true, inp.setAmpsOk)]
        || (!inp.setAmpsOk && r.commands == [SetAmps(r.amps, false, false)])
        || (inp.setAmpsOk && r.commands == [SetAmps(r.amps, false, true), StartCharge(inp.startOk)])
        || r.commands == [StopCharge(inp.stopOk)]
        || r.commands == [Wake(inp.wakeOk)])
  }

  lemma ControlDecides(cfg: Config, c: Ctl, inp: Input, p: Power, cs: ChargeState, r: Record)
    requires cfg.Valid() && inp.power == Some(p) && r.seen == Some(cs)
    requires r.mark == Ignored && r.amps == 0 && r.commands == []
    ensures var r' := Control(cfg, c, inp, p, cs, r).1;
            && DecidesRightly(cfg, inp, r')
            && (Evaluated(r') <==> Reaches(cfg, inp, r', c.mode, ShouldAttemptWake(cfg, c, inp)))
  {
    hide TransitionTo, Minutes.Accumulate, CalculateAvailableAmps, ShouldAttemptWake;
  }

  lemma {:induction false} TickDecides(cfg: Config, c: Ctl, inp: Input)
    requires cfg.Valid() && !cfg.testMode
    ensures var (c', r) := Tick(cfg, c, inp);
            && DecidesRightly(cfg, inp, r)
            && (Evaluated(r) <==>
                  Reaches(cfg, inp, r, c.mode,
                          MayWake(cfg, c.lastKnownPluggedIn, c.lastOnlineAt, c.lastNonActionableAt, inp.now, inp.hour)))
  {
    hide Control, Sessions.Begin, Sessions.Finish, Sessions.Record, Minutes.Accumulate, CalculateAvailableAmps;
    if inp.power.Some? {
      var c1 := MaybeClearError(cfg, c, inp);
      var (c2, poll, cs) := ReadVehicle(cfg, c1, inp);
      if cs.Some? {
        var c3 := RecordSessionSample(cfg, UpdateKnownPlugState(c2, cs.value, inp.now), cs.value);
        var r := Blank(c1, inp).(poll := poll, seen := cs);
        ControlDecides(cfg, c3, inp, inp.power.value, cs.value, r);
        ControlKeepsRecord(cfg, c3, inp, inp.power.value, cs.value, r);
      }
    }
  }

  /** Test mode projects amps and counts, and never commands the car. */
  lemma TestModeDecides(cfg: Config, c: Ctl, inp: Input)
    requires cfg.Valid() && cfg.testMode
    ensures var r := Tick(cfg, c, inp).1;
            && r.commands == [] && r.seen == None
            && (inp.power.None? ==> r.mark == Ignored)
            && (inp.power.Some? ==>
                  && r.amps == CalculateAvailableAmps(cfg.lineVoltage, cfg.maxChargeAmps, inp.power.value.surplusWatts,
                                                      inp.power.value.gridWatts, NoChargeState)
                  && r.mark == if r.amps >= cfg.minChargeAmps then High else Reset)
  {
    hide Minutes.Accumulate, Sessions.Begin, Sessions.Finish, CalculateAvailableAmps;
  }

  // ----- Amps in charge -----

  predicate FarEnough(cfg: Config, amps: int, adopted: int) {
    amps - adopted >= Max(cfg.ampsChangeThreshold, 1) || adopted - amps >= Max(cfg.ampsChangeThreshold, 1)
  }

  /** Amps are to be resent: a high tick finds the car online and charging, and the amps
      have moved far enough from those it last adopted. */
  ghost predicate AdjustWanted(cfg: Config, r: Record, adopted: int) {
    && r.mark == High && r.seen.Some? && r.seen.value.isOnline && r.seen.value.status == Charging
    && FarEnough(cfg, r.amps, adopted)
  }

  lemma DecideAdjusts(cfg: Config, c: Ctl, inp: Input, cs: ChargeState, amps: int)
    ensures var (c', commands) := Decide(cfg, c, inp, cs, amps);
            && ((exists i :: 0 <= i < |commands| && commands[i].SetAmps? && commands[i].inCharge) <==>
                  && amps >= cfg.minChargeAmps && cs.isOnline && cs.status == Charging
                  && FarEnough(cfg, amps, c.lastChargeAmps)
                  && Over(cfg.ampsAdjustInterval, c.lastAmpsAdjustAt, inp.now))
            && c'.lastChargeAmps == AfterCommands(commands, c.lastChargeAmps)
  {
    hide Sessions.Begin, Sessions.Finish, CanAttemptChargeStart;
    var commands := Decide(cfg, c, inp, cs, amps).1;
    assert |commands| == 1 ==> commands[0] == commands[|commands| - 1];
    assert |commands| == 2 ==> commands[0].SetAmps? && !commands[0].inCharge && commands[1].StartCharge?;
  }

  lemma ControlAdjusts(cfg: Config, c: Ctl, inp: Input, p: Power, cs: ChargeState, r: Record)
    requires cfg.Valid() && r == r.(now := inp.now, seen := Some(cs), mark := Ignored, amps := 0, commands := [])
    ensures var (c', r') := Control(cfg, c, inp, p, cs, r);
            && (SendsInChargeAmps(r') <==>
                  AdjustWanted(cfg, r', c.lastChargeAmps) && Over(cfg.ampsAdjustInterval, c.lastAmpsAdjustAt, r'.now))
            && c'.lastChargeAmps == AfterCommands(r'.commands, c.lastChargeAmps)
  {
    hide TransitionTo, Decide, Minutes.Accumulate, CalculateAvailableAmps, FarEnough, ShouldAttemptWake;
    var amps := CalculateAvailableAmps(cfg.lineVoltage, cfg.maxChargeAmps, p.surplusWatts, p.gridWatts, cs);
    DecideAdjusts(cfg, c, inp, cs, amps);
    TransitionKeepsAmps(c, Idle, inp);
  }

  lemma TransitionKeepsAmps(c: Ctl, newState: State, inp: Input)
    ensures TransitionTo(c, newState, inp).lastChargeAmps == c.lastChargeAmps
    ensures TransitionTo(c, newState, inp).lastAmpsAdjustAt == c.lastAmpsAdjustAt
  {
  }

  lemma {:induction false} TickAdjusts(cfg: Config, c: Ctl, inp: Input)
    requires cfg.Valid()
    ensures var (c', r) := Tick(cfg, c, inp);
            && (SendsInChargeAmps(r) <==>
                  AdjustWanted(cfg, r, c.lastChargeAmps) && Over(cfg.ampsAdjustInterval, c.lastAmpsAdjustAt, r.now))
            && c'.lastChargeAmps == AfterCommands(r.commands, c.lastChargeAmps)
  {
    hide Control, Sessions.Begin, Sessions.Finish, Sessions.Record, Minutes.Accumulate, CalculateAvailableAmps,
         FarEnough;
    if inp.power.Some? && !cfg.testMode {
      var c1 := MaybeClearError(cfg, c, inp);
      var (c2, poll, cs) := ReadVehicle(cfg, c1, inp);
      if cs.Some? {
        var c3 := RecordSessionSample(cfg, UpdateKnownPlugState(c2, cs.value, inp.now), cs.value);
        ControlAdjusts(cfg, c3, inp, inp.power.value, cs.value, Blank(c1, inp).(poll := poll, seen := cs));
      }
    }
  }

  // ----- The state a tick leaves -----

  /** Where the last command sent leaves the controller. */
  function CommandState(command: Command, before: State): State {
    match command
    case Wake(ok) => if ok then WakePending else ErrorState
    case StopCharge(ok) => if ok then StoppedLowSurplus else before
    case StartCharge(ok) => if ok then ChargingState else ErrorState
    case SetAmps(_, inCharge, _) => if inCharge then ChargingState else ErrorState
  }

  /** The state after a tick, from what it saw, decided and sent; `surplus` counts the
      high ticks in a row. */
  function StateAfter(cfg: Config, inp: Input, r: Record, mode: Mode, surplus: nat): State {
    if inp.power.None? || r.poll == PollFailed then ErrorState
    else if cfg.testMode then (if r.mark == High then Monitoring else Idle)
    else if r.mark == Reset then Idle
    else if mode == Manual then r.pollState
    else if r.commands != [] then CommandState(r.commands[|r.commands| - 1], r.pollState)
    else if r.seen.None? then r.pollState
    else if r.mark == High && !r.seen.value.isOnline then
      (if r.amps >= cfg.minChargeAmps + cfg.wakeMinAmpsMargin && surplus >= cfg.wakeThresholdPolls then WakePending
       else Monitoring)
    else if r.seen.value.status == Charging then ChargingState
    else Monitoring
  }

  lemma OfflineState(cfg: Config, c: Ctl, inp: Input, amps: int)
    ensures var (c', commands) := DecideOffline(cfg, c, inp, amps);
            c'.state ==
              if commands != [] then CommandState(commands[|commands| - 1], c.state)
              else if amps >= cfg.minChargeAmps + cfg.wakeMinAmpsMargin
                      && c.consecutiveSurplus >= cfg.wakeThresholdPolls then WakePending
              else Monitoring
  {
    hide Sessions.Begin, Sessions.Finish;
  }

  lemma StartState(cfg: Config, c: Ctl, inp: Input, cs: ChargeState, amps: int)
    ensures var (c', commands) := DecideStart(cfg, c, inp, cs, amps);
            c'.state == if commands != [] then CommandState(commands[|commands| - 1], c.state) else Monitoring
  {
    hide Sessions.Begin, Sessions.Finish, CanAttemptChargeStart;
  }

  lemma AdjustState(cfg: Config, c: Ctl, inp: Input, amps: int)
    ensures var (c', commands) := DecideAdjust(cfg, c, inp, amps);
            c'.state == if commands != [] then CommandState(commands[|commands| - 1], c.state) else ChargingState
  {
    hide Sessions.Begin, Sessions.Finish;
  }

  lemma LowState(cfg: Config, c: Ctl, inp: Input, cs: ChargeState)
    ensures var (c', commands) := DecideLow(cfg, c, inp, cs);
            c'.state ==
              if commands != [] then CommandState(commands[|commands| - 1], c.state)
              else if cs.status == Charging then ChargingState else Monitoring
  {
    hide Sessions.Begin, Sessions.Finish;
  }

  lemma DecideKeepsSurplus(cfg: Config, c: Ctl, inp: Input, cs: ChargeState, amps: int)
    ensures amps >= cfg.minChargeAmps ==>
              Decide(cfg, c, inp, cs, amps).0.consecutiveSurplus == c.consecutiveSurplus + 1
  {
    hide Sessions.Begin, Sessions.Finish, CanAttemptChargeStart;
  }

  lemma ControlState(cfg: Config, c: Ctl, inp: Input, p: Power, cs: ChargeState, r: Record)
    requires cfg.Valid() && !cfg.testMode && inp.power == Some(p)
    requires r.seen == Some(cs) && r.poll != PollFailed && r.pollState == c.state
    requires r.mark == Ignored && r.amps == 0 && r.commands == []
    ensures var (c', r') := Control(cfg, c, inp, p, cs, r);
            c'.state == StateAfter(cfg, inp, r', c.mode, c'.consecutiveSurplus)
  {
    hide DecideOffline, DecideStart, DecideAdjust, DecideLow, CommandState, Minutes.Accumulate, CalculateAvailableAmps,
         ShouldAttemptWake, Sessions.Begin, Sessions.Finish;
    var amps := CalculateAvailableAmps(cfg.lineVoltage, cfg.maxChargeAmps, p.surplusWatts, p.gridWatts, cs);
    var high := c.(consecutiveLow := 0, consecutiveSurplus := c.consecutiveSurplus + 1);
    OfflineState(cfg, high, inp, amps);
    StartState(cfg, high, inp, cs, amps);
    AdjustState(cfg, high, inp, amps);
    LowState(cfg, c.(consecutiveSurplus := 0, consecutiveLow := c.consecutiveLow + 1), inp, cs);
    DecideKeepsSurplus(cfg, c, inp, cs, amps);
  }

  /** An error is cleared once the backoff of failed charging commands is over. */
  predicate ErrorClears(cfg: Config, state: State, failure: Time, t: Time) {
    state == ErrorState && cfg.commandFailureBackoff > 0 && Over(cfg.commandFailureBackoff, failure, t)
  }

  lemma {:induction false} TickState(cfg: Config, c: Ctl, inp: Input)
    requires cfg.Valid()
    ensures var (c', r) := Tick(cfg, c, inp);
            && c'.state == StateAfter(cfg, inp, r, c.mode, c'.consecutiveSurplus)
            && r.pollState == (if inp.power.Some? && !cfg.testMode
                                  && ErrorClears(cfg, c.state, c.lastCommandFailure, inp.start)
                               then Monitoring else c.state)
  {
    hide Control, Sessions.Begin, Sessions.Finish, Sessions.Record, Minutes.Accumulate, CalculateAvailableAmps,
         CommandState;
    if inp.power.Some? && !cfg.testMode {
      var c1 := MaybeClearError(cfg, c, inp);
      var (c2, poll, cs) := ReadVehicle(cfg, c1, inp);
      if cs.Some? {
        var c3 := RecordSessionSample(cfg, UpdateKnownPlugState(c2, cs.value, inp.now), cs.value);
        var r := Blank(c1, inp).(poll := poll, seen := cs);
        ControlState(cfg, c3, inp, inp.power.value, cs.value, r);
        ControlKeepsRecord(cfg, c3, inp, inp.power.value, cs.value, r);
      }
    }
  }

  // ----- The session calls of a tick -----

  function SessionAfter(l: Sessions.Ledger, before: State, after: State, inp: Input): Sessions.Ledger {
    if before == ChargingState && after != ChargingState then Sessions.Finish(l, inp.endSessionOk)
    else if before != ChargingState && after == ChargingState then Sessions.Begin(l, inp.sessionID)
    else l
  }

  lemma TransitionSession(c: Ctl, newState: State, inp: Input)
    ensures var c' := TransitionTo(c, newState, inp);
            c'.state == newState && c'.session == SessionAfter(c.session, c.state, newState, inp)
  {
    hide Sessions.Begin, Sessions.Finish;
  }

  predicate Followed(c: Ctl, c': Ctl, inp: Input) {
    c'.session == SessionAfter(c.session, c.state, c'.state, inp)
  }

  lemma DecideSession(cfg: Config, c: Ctl, inp: Input, cs: ChargeState, amps: int)
    ensures Followed(c, Decide(cfg, c, inp, cs, amps).0, inp)
  {
    hide DecideOffline, DecideStart, DecideAdjust, DecideLow, SessionAfter;
    var high := c.(consecutiveLow := 0, consecutiveSurplus := c.consecutiveSurplus + 1);
    OfflineSession(cfg, high, inp, amps);
    StartSession(cfg, high, inp, cs, amps);
    AdjustSession(cfg, high, inp, amps);
    LowSession(cfg, c.(consecutiveSurplus := 0, consecutiveLow := c.consecutiveLow + 1), inp, cs);
  }

  lemma OfflineSession(cfg: Config, c: Ctl, inp: Input, amps: int)
    ensures Followed(c, DecideOffline(cfg, c, inp, amps).0, inp)
  {
    hide Sessions.Begin, Sessions.Finish;
  }

  lemma StartSession(cfg: Config, c: Ctl, inp: Input, cs: ChargeState, amps: int)
    ensures Followed(c, DecideStart(cfg, c, inp, cs, amps).0, inp)
  {
    hide Sessions.Begin, Sessions.Finish, CanAttemptChargeStart;
  }

  lemma AdjustSession(cfg: Config, c: Ctl, inp: Input, amps: int)
    ensures Followed(c, DecideAdjust(cfg, c, inp, amps).0, inp)
  {
    hide Sessions.Begin, Sessions.Finish;
  }

  lemma LowSession(cfg: Config, c: Ctl, inp: Input, cs: ChargeState)
    ensures Followed(c, DecideLow(cfg, c, inp, cs).0, inp)
  {
    hide Sessions.Begin, Sessions.Finish;
  }

  lemma ControlSession(cfg: Config, c: Ctl, inp: Input, p: Power, cs: ChargeState, r: Record)
    requires cfg.Valid()
    ensures Followed(c, Control(cfg, c, inp, p, cs, r).0, inp)
  {
    hide Decide, TransitionTo, SessionAfter, Minutes.Accumulate, CalculateAvailableAmps, ShouldAttemptWake;
    TransitionSession(c, Idle, inp);
    StayingKeepsSession(c.session, c.state, inp);
    DecideSession(cfg, c, inp, cs,
      CalculateAvailableAmps(cfg.lineVoltage, cfg.maxChargeAmps, p.surplusWatts, p.gridWatts, cs));
  }

  lemma StayingKeepsSession(l: Sessions.Ledger, state: State, inp: Input)
    ensures SessionAfter(l, state, state, inp) == l
  {
  }

  /** The charging amps a tick counts for the session in progress. */
  function SampleOf(r: Record, active: int): seq<Sessions.Entry> {
    if r.seen.Some? && r.seen.value.status == Charging && r.seen.value.ampsActual > 0 && active != 0
    then [Sessions.Sample(r.seen.value.ampsActual)]
    else []
  }

  /** The log grows by the sample read, then by the call for the change of state: the
      start of a session that the store opened, or the end of the one in progress. */
  ghost predicate LogGrows(c: Ctl, c': Ctl, inp: Input, r: Record) {
    var sampled := c.session.log + SampleOf(r, c.session.activeSessionID);
    var log := c'.session.log;
    if c.state == ChargingState && c'.state != ChargingState && c.session.activeSessionID != 0 then
      && |log| == |sampled| + 1 && log[..|sampled|] == sampled
      && log[|sampled|].End? && log[|sampled|].id == c.session.activeSessionID && log[|sampled|].ok == inp.endSessionOk
    else if c.state != ChargingState && c'.state == ChargingState && inp.sessionID.Some? then
      log == sampled + [Sessions.Start(inp.sessionID.value)]
    else
      log == sampled
  }

  lemma RecordLogs(cfg: Config, c: Ctl, cs: ChargeState, r: Record)
    requires r.seen == Some(cs)
    ensures var c' := RecordSessionSample(cfg, c, cs);
            && c'.session.log == c.session.log + SampleOf(r, c.session.activeSessionID)
            && c'.session.activeSessionID == c.session.activeSessionID
  {
    assert c.session.log + [] == c.session.log;
  }

  lemma CallsLog(c: Ctl, c1: Ctl, c': Ctl, inp: Input, r: Record)
    requires c1.session.log == c.session.log + SampleOf(r, c.session.activeSessionID)
    requires c1.session.activeSessionID == c.session.activeSessionID
    requires c1.state == c.state || (c1.state != ChargingState && c.state != ChargingState)
    requires Followed(c1, c', inp)
    ensures LogGrows(c, c', inp, r)
  {
  }

  lemma {:induction false} TickLogs(cfg: Config, c: Ctl, inp: Input)
    requires cfg.Valid()
    ensures var (c', r) := Tick(cfg, c, inp); LogGrows(c, c', inp, r)
  {
    hide Control, LogGrows, TransitionTo, SessionAfter, Sessions.Record, Minutes.Accumulate, CalculateAvailableAmps,
         RecordSessionSample;
    var (c', r') := Tick(cfg, c, inp);
    assert c.session.log + [] == c.session.log;
    TransitionSession(c, ErrorState, inp);
    if inp.power.None? {
      CallsLog(c, c, c', inp, r');
    } else if cfg.testMode {
      TransitionSession(ResetCounters(c), Idle, inp);
      TransitionSession(c.(consecutiveLow := 0, consecutiveSurplus := c.consecutiveSurplus + 1), Monitoring, inp);
      CallsLog(c, c, c', inp, r');
    } else {
      var c1 := MaybeClearError(cfg, c, inp);
      TransitionSession(c, Monitoring, inp);
      NeitherCharges(c.session, inp);
      TransitionSession(c1, ErrorState, inp);
      var (c2, poll, cs) := ReadVehicle(cfg, c1, inp);
      if cs.None? {
        CallsLog(c, c1, c', inp, r');
      } else {
        var c3 := RecordSessionSample(cfg, UpdateKnownPlugState(c2, cs.value, inp.now), cs.value);
        var r := Blank(c1, inp).(poll := poll, seen := cs);
        RecordKeepsState(cfg, UpdateKnownPlugState(c2, cs.value, inp.now), cs.value);
        RecordLogs(cfg, UpdateKnownPlugState(c2, cs.value, inp.now), cs.value, r);
        ControlSession(cfg, c3, inp, inp.power.value, cs.value, r);
        ControlKeepsRecord(cfg, c3, inp, inp.power.value, cs.value, r);
        CallsLog(c, c3, c', inp, r');
      }
    }
  }

  lemma NeitherCharges(l: Sessions.Ledger, inp: Input)
    ensures SessionAfter(l, ErrorState, Monitoring, inp) == l
  {
  }

  lemma RecordKeepsState(cfg: Config, c: Ctl, cs: ChargeState)
    ensures RecordSessionSample(cfg, c, cs).state == c.state
  {
  }
}
