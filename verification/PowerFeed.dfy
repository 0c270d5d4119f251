/** The controller fed by the inverter client: what holds of ticks whose power readings
    come from polls of the module. */
module PowerFeed {
  import opened Prelude
  import opened ControlLaw
  import opened Controller
  import opened ControllerRuns
  import opened Hysteresis
  import opened RateLimits
  import opened StartAttempts
  import opened TickOutcomes
  import WiNet
  import Minutes = MinuteAverage

  function ToPower(data: Option<WiNet.PowerData>): Option<Power> {
    if data.None? then None
    else Some(Power(data.value.pvWatts, data.value.gridWatts, data.value.loadWatts, data.value.surplusWatts))
  }

  /** Tick `k` reads the power from a poll of the client in state `polls[k]`. */
  ghost predicate Feeds(w: WiNet.World, polls: seq<WiNet.State>, events: seq<Event>) {
    && |polls| == |events|
    && forall k :: 0 <= k < |events| ==> FedBy(w, polls[k], events[k])
  }

  ghost predicate FedBy(w: WiNet.World, s: WiNet.State, e: Event) {
    !e.ModeEvent? ==> e.inp.power == ToPower(WiNet.GetPowerData(w, s).1)
  }

  lemma SurplusOfPoll(w: WiNet.World, s: WiNet.State, e: Event)
    requires FedBy(w, s, e)
    ensures SurplusFromGrid(e)
  {
    hide WiNet.GetPowerData;
    WiNet.PollReportsReplies(w, s);
  }

  /** Every persisted reading averages one minute of what the module reported, and shows
      at least the surplus of its own grid balance. */
  lemma {:induction false} PersistedReadingsOfPolls(cfg: Config, run: seq<Ctl>, events: seq<Event>, recs: seq<Record>,
                                                    w: WiNet.World, polls: seq<WiNet.State>, n: nat, i: nat)
    requires IsRun(cfg, run, events, recs) && run[0] == New && Ordered(events) && n <= |events|
    requires Feeds(w, polls, events) && i < |run[n].minutes.flushed|
    ensures var r := run[n].minutes.flushed[i].reading;
            Minutes.OneMinute(run[n].minutes.flushed[i]) &&
            r.surplusWatts >= 0.0 && r.surplusWatts >= -r.gridWatts
  {
    hide IsRun;
    forall k | 0 <= k < |events|
      ensures SurplusFromGrid(events[k])
    {
      SurplusOfPoll(w, polls[k], events[k]);
    }
    PersistedReadings(cfg, run, events, recs, n, i);
  }

  /** Over any run a charge is only ever started with amps that the power exported to the
      grid covers. */
  lemma {:induction false} StartsOnExportOnly(cfg: Config, run: seq<Ctl>, events: seq<Event>, recs: seq<Record>,
                                              w: WiNet.World, polls: seq<WiNet.State>, n: nat)
    requires IsRun(cfg, run, events, recs) && n < |events| && !events[n].ModeEvent?
    requires Feeds(w, polls, events) && SendsStart(recs[n])
    ensures var power := events[n].inp.power;
            power.Some? && 1 <= recs[n].amps && recs[n].amps * cfg.lineVoltage <= -power.value.gridWatts
  {
    hide Tick, WiNet.GetPowerData, CalculateAvailableAmps, SendsStart, CanAttemptChargeStart;
    assert IsStep(cfg, run, events, recs, n) && FedBy(w, polls[n], events[n]);
    var c := StateBefore(run[n], events[n]);
    WiNet.PollReportsReplies(w, polls[n]);
    TickStarts(cfg, c, events[n].inp);
    if cfg.testMode {
      TestModeDecides(cfg, c, events[n].inp);
    } else {
      var power := events[n].inp.power;
      TickDecides(cfg, c, events[n].inp);
      IdleAmpsCovered(cfg.lineVoltage, cfg.maxChargeAmps, power.value.surplusWatts, power.value.gridWatts,
                      recs[n].seen.value);
    }
  }

  lemma IdleAmpsCovered(voltage: int, maxAmps: int, surplusWatts: int, gridWatts: int, cs: ChargeState)
    requires voltage >= 1 && maxAmps >= 0 && surplusWatts >= 0 && cs.status != Charging
    ensures CalculateAvailableAmps(voltage, maxAmps, surplusWatts, gridWatts, cs) * voltage <= surplusWatts
  {
    var n := CalculateAvailableAmps(voltage, maxAmps, surplusWatts, gridWatts, cs);
    FloorDivides(surplusWatts, voltage, 0);
    FloorDivides(surplusWatts, voltage, n);
  }
}
