/** Short runs of the controller that show where it does less than one might expect. */
module Episodes {
  import opened Prelude
  import opened ControlLaw
  import opened Controller
  import opened ControllerRuns
  import opened RateLimits
  import Sessions = ChargeSessions
  import Minutes = MinuteAverage

  const SampleConfig := Config(
    false, 5, 32, 240, 3, 1, 0, 1,
    300 * SECOND, 0, 0, 0, 24,
    120 * SECOND, 300 * SECOND, 0,
    10 * SECOND, 10 * SECOND, 10 * SECOND)

  const NoSurplus := Some(Power(0, 600, 600, 0))
  const HighSurplus := Some(Power(3000, -2400, 600, 2400))
  const PluggedIn := Reports(ChargeState(Stopped, 0, 50, true, true))

  function SampleTick(t: Time, power: Option<Power>, vehicle: VehicleReply, wakeOk: bool): Input {
    Input(t, t, t, 12, power, vehicle, true, true, true, wakeOk, None, true)
  }

  /** So "no start attempt within the backoff of any failed command" is false of
      wakes: here a start is attempted ten seconds after a failed wake, with a
      backoff of five minutes. */
  lemma {:induction false} StartSoonAfterFailedWake()
    ensures var cfg := SampleConfig;
            var (c1, r1) := Tick(cfg, New, SampleTick(100 * SECOND, NoSurplus, PluggedIn, true));
            var (c2, r2) := Tick(cfg, c1, SampleTick(110 * SECOND, HighSurplus, Offline, false));
            var (c3, r3) := Tick(cfg, c2, SampleTick(120 * SECOND, HighSurplus, PluggedIn, true));
            && r2.commands == [Wake(false)] && SendsStart(r3)
            && r3.now - r2.end < cfg.commandFailureBackoff
  {
    hide Minutes.Accumulate, Sessions.Begin, Sessions.Finish, Sessions.Record;
    var cfg := SampleConfig;
    var (c1, r1) := Tick(cfg, New, SampleTick(100 * SECOND, NoSurplus, PluggedIn, true));
    assert c1.state == Monitoring && c1.mode == Auto && c1.hasCached && c1.lastTeslaPoll == 100 * SECOND;
    assert c1.lastKnownPluggedIn && c1.lastCommandFailure == c1.lastWakeAttempt == c1.lastChargeStartAttempt == 0;
    var (c2, r2) := Tick(cfg, c1, SampleTick(110 * SECOND, HighSurplus, Offline, false));
    assert r2.commands == [Wake(false)];
    assert c2.state == ErrorState && c2.mode == Auto && c2.hasCached && c2.lastTeslaPoll == 110 * SECOND;
    assert c2.lastCommandFailure == c2.lastChargeStartAttempt == 0;
    var (c3, r3) := Tick(cfg, c2, SampleTick(120 * SECOND, HighSurplus, PluggedIn, true));
    assert r3.commands[0] == SetAmps(10, false, true);
  }

  // ----- A charge session that the store never closes -----

  const HeavyLoad := Some(Power(0, 6000, 6000, 0))
  const Charges := Reports(ChargeState(Charging, 10, 50, true, true))

  function SessionTick(t: Time, power: Option<Power>, id: int, endOk: bool): Input {
    Input(t, t, t, 12, power, Charges, true, true, true, true, Some(id), endOk)
  }

  function SessionEvents(): seq<Event> {
    [TickEvent(SessionTick(100 * SECOND, HighSurplus, 1, true)),
     TickEvent(SessionTick(110 * SECOND, HeavyLoad, 1, false)),
     TickEvent(SessionTick(120 * SECOND, HighSurplus, 2, true))]
  }

  lemma FirstSession(cfg: Config)
    requires cfg == SampleConfig.(deadbandPolls := 1)
    ensures var c := Tick(cfg, New, SessionEvents()[0].inp).0;
            && c.state == ChargingState && c.mode == Auto && c.hasCached && c.lastTeslaPoll == 100 * SECOND
            && c.lastCommandFailure == 0
            && c.session.activeSessionID == 1 && c.session.log == [Sessions.Start(1)]
  {
    hide Minutes.Accumulate;
  }

  lemma SecondTick(cfg: Config, c: Ctl)
    requires cfg == SampleConfig.(deadbandPolls := 1)
    requires c.state == ChargingState && c.mode == Auto && c.hasCached && c.lastTeslaPoll == 100 * SECOND
    requires c.session.activeSessionID == 1 && c.session.log == [Sessions.Start(1)]
    ensures var c' := Tick(cfg, c, SessionEvents()[1].inp).0;
            && c'.state == StoppedLowSurplus && c'.mode == Auto && c'.hasCached && c'.lastTeslaPoll == 110 * SECOND
            && c'.session.activeSessionID == 0 && |c'.session.log| == 3
            && c'.session.log[2].End? && !c'.session.log[2].ok
  {
    hide Minutes.Accumulate;
  }

  lemma ThirdTick(cfg: Config, c: Ctl)
    requires cfg == SampleConfig.(deadbandPolls := 1)
    requires c.state == StoppedLowSurplus && c.mode == Auto && c.hasCached && c.lastTeslaPoll == 110 * SECOND
    requires c.session.activeSessionID == 0
    ensures Tick(cfg, c, SessionEvents()[2].inp).0.session.log == c.session.log + [Sessions.Start(2)]
  {
    hide Minutes.Accumulate;
  }

  /** Three ticks from a new controller: it charges, stops with the store refusing
      to close the session, and charges again. The store's successful calls are then
      two starts in a row. */
  lemma FailedEndLeavesSessionOpen()
    ensures exists cfg, run: seq<Ctl>, recs: seq<Record> ::
              && IsRun(cfg, run, SessionEvents(), recs) && run[0] == New && Ordered(SessionEvents())
              && Sessions.StartAfterFailedEnd(run[3].session.log)
              && !Sessions.Alternating(Sessions.Successes(run[3].session.log))
  {
    hide Tick, Sessions.StartAfterFailedEnd, Sessions.Alternating, Sessions.Successes;
    var cfg := SampleConfig.(deadbandPolls := 1);
    var (c1, r1) := Tick(cfg, New, SessionEvents()[0].inp);
    var (c2, r2) := Tick(cfg, c1, SessionEvents()[1].inp);
    var (c3, r3) := Tick(cfg, c2, SessionEvents()[2].inp);
    FirstSession(cfg);
    SecondTick(cfg, c1);
    ThirdTick(cfg, c2);
    FailedEndThenStart(c3.session.log, 2);
    var run, recs := [New, c1, c2, c3], [r1, r2, r3];
    assert IsRun(cfg, run, SessionEvents(), recs);
    SuccessfulCallsOfRun(cfg, run, SessionEvents(), recs, 3);
  }

  lemma FailedEndThenStart(log: seq<Sessions.Entry>, i: nat)
    requires i + 1 < |log| && log[i].End? && !log[i].ok && log[i + 1].Start?
    ensures Sessions.StartAfterFailedEnd(log)
  {
  }
}
