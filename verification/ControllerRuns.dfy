/** Runs of the charging controller, and what every run keeps of the session
    bookkeeping and the minute averages. */
module ControllerRuns {
  import opened Prelude
  import opened ControlLaw
  import opened Controller
  import Sessions = ChargeSessions
  import Minutes = MinuteAverage

  datatype Event = TickEvent(inp: Input) | RefreshEvent(inp: Input) | ModeEvent(mode: Mode)

  const NoRecord := Record(0, 0, 0, NotPolled, Idle, None, Ignored, 0, [])

  function Step(cfg: Config, c: Ctl, e: Event): (Ctl, Record)
    requires cfg.Valid()
  {
    match e
    case TickEvent(inp) => Tick(cfg, c, inp)
    case RefreshEvent(inp) => Tick(cfg, ClearCooldowns(c), inp)
    case ModeEvent(mode) => (c.(mode := mode), NoRecord)
  }

  /** `run` lists the states between serialized events, `recs` what each did. */
  ghost predicate IsRun(cfg: Config, run: seq<Ctl>, events: seq<Event>, recs: seq<Record>) {
    && cfg.Valid()
    && |run| == |events| + 1 && |recs| == |events|
    && forall i :: 0 <= i < |events| ==> IsStep(cfg, run, events, recs, i)
  }

  ghost predicate IsStep(cfg: Config, run: seq<Ctl>, events: seq<Event>, recs: seq<Record>, i: nat)
    requires cfg.Valid() && i < |events| == |recs| && |run| == |events| + 1
  {
    (run[i + 1], recs[i]) == Step(cfg, run[i], events[i])
  }

  predicate Timely(inp: Input) {
    MINUTE <= inp.start <= inp.now <= inp.end
  }

  /** The clock never runs backwards, within a tick or between ticks. */
  ghost predicate Ordered(events: seq<Event>) {
    && (forall i :: 0 <= i < |events| && !events[i].ModeEvent? ==> Timely(events[i].inp))
    && (forall i, j :: 0 <= i < j < |events| && !events[i].ModeEvent? && !events[j].ModeEvent? ==>
          events[i].inp.end <= events[j].inp.start)
  }

  // ----- Charge sessions -----

  /** The store hands out positive row ids. */
  predicate PositiveID(inp: Input) {
    inp.sessionID.Some? ==> inp.sessionID.value > 0
  }

  ghost predicate SessionsKept(cfg: Config, c: Ctl) {
    && Sessions.Consistent(cfg.KWhPerAmp(), c.session)
    && (c.session.activeSessionID != 0 ==> c.state == ChargingState)
  }

  lemma TransitionKeepsSessions(cfg: Config, c: Ctl, newState: State, inp: Input)
    requires SessionsKept(cfg, c) && PositiveID(inp)
    ensures SessionsKept(cfg, TransitionTo(c, newState, inp))
  {
    hide Sessions.Consistent;
    if c.state != newState {
      if newState == ChargingState {
        Sessions.ConsistentBegin(cfg.KWhPerAmp(), c.session, inp.sessionID);
      } else {
        Sessions.ConsistentFinish(cfg.KWhPerAmp(), c.session, inp.endSessionOk);
      }
    }
  }

  lemma OfflineKeepsSessions(cfg: Config, c: Ctl, inp: Input, amps: int)
    requires SessionsKept(cfg, c) && PositiveID(inp)
    ensures SessionsKept(cfg, DecideOffline(cfg, c, inp, amps).0)
  {
    hide TransitionTo, Sessions.Consistent;
    TransitionKeepsSessions(cfg, c, Monitoring, inp);
    TransitionKeepsSessions(cfg, c, WakePending, inp);
    TransitionKeepsSessions(cfg, TransitionTo(c, WakePending, inp), ErrorState, inp);
  }

  lemma StartKeepsSessions(cfg: Config, c: Ctl, inp: Input, cs: ChargeState, amps: int)
    requires SessionsKept(cfg, c) && PositiveID(inp)
    ensures SessionsKept(cfg, DecideStart(cfg, c, inp, cs, amps).0)
  {
    hide TransitionTo, Sessions.Consistent;
    TransitionKeepsSessions(cfg, c, Monitoring, inp);
    var c1 := c.(lastChargeStartAttempt := inp.now);
    TransitionKeepsSessions(cfg, c1.(lastCommandFailure := inp.end), ErrorState, inp);
    TransitionKeepsSessions(cfg, c1.(lastAmpsAdjustAt := inp.end, lastCommandFailure := inp.end), ErrorState, inp);
    TransitionKeepsSessions(cfg, c1, ChargingState, inp);
  }

  lemma AdjustKeepsSessions(cfg: Config, c: Ctl, inp: Input, amps: int)
    requires SessionsKept(cfg, c) && PositiveID(inp)
    ensures SessionsKept(cfg, DecideAdjust(cfg, c, inp, amps).0)
  {
    hide TransitionTo, Sessions.Consistent;
    TransitionKeepsSessions(cfg, c.(lastChargeAmps := amps, lastAmpsAdjustAt := inp.end), ChargingState, inp);
    TransitionKeepsSessions(cfg, c.(lastCommandFailure := inp.end), ChargingState, inp);
    TransitionKeepsSessions(cfg, c, ChargingState, inp);
  }

  lemma LowKeepsSessions(cfg: Config, c: Ctl, inp: Input, cs: ChargeState)
    requires SessionsKept(cfg, c) && PositiveID(inp)
    ensures SessionsKept(cfg, DecideLow(cfg, c, inp, cs).0)
  {
    hide TransitionTo, Sessions.Consistent;
    TransitionKeepsSessions(cfg, c, StoppedLowSurplus, inp);
    TransitionKeepsSessions(cfg, c, ChargingState, inp);
    TransitionKeepsSessions(cfg, c, Monitoring, inp);
  }

  lemma DecideKeepsSessions(cfg: Config, c: Ctl, inp: Input, cs: ChargeState, amps: int)
    requires SessionsKept(cfg, c) && PositiveID(inp)
    ensures SessionsKept(cfg, Decide(cfg, c, inp, cs, amps).0)
  {
    hide DecideOffline, DecideStart, DecideAdjust, DecideLow, Sessions.Consistent;
    var c1 := c.(consecutiveLow := 0, consecutiveSurplus := c.consecutiveSurplus + 1);
    OfflineKeepsSessions(cfg, c1, inp, amps);
    StartKeepsSessions(cfg, c1, inp, cs, amps);
    AdjustKeepsSessions(cfg, c1, inp, amps);
    LowKeepsSessions(cfg, c.(consecutiveSurplus := 0, consecutiveLow := c.consecutiveLow + 1), inp, cs);
  }

  lemma ControlKeepsSessions(cfg: Config, c: Ctl, inp: Input, p: Power, cs: ChargeState, r: Record)
    requires cfg.Valid() && SessionsKept(cfg, c) && PositiveID(inp)
    ensures SessionsKept(cfg, Control(cfg, c, inp, p, cs, r).0)
  {
    hide Decide, TransitionTo, Sessions.Consistent;
    TransitionKeepsSessions(cfg, c, Idle, inp);
    DecideKeepsSessions(cfg, c, inp, cs,
      CalculateAvailableAmps(cfg.lineVoltage, cfg.maxChargeAmps, p.surplusWatts, p.gridWatts, cs));
  }

  lemma TestModeKeepsSessions(cfg: Config, c: Ctl, inp: Input, p: Power)
    requires cfg.Valid() && SessionsKept(cfg, c) && PositiveID(inp)
    ensures SessionsKept(cfg, TickTestMode(cfg, c, inp, p).0)
  {
    hide TransitionTo, Sessions.Consistent;
    TransitionKeepsSessions(cfg, c.(consecutiveLow := 0, consecutiveSurplus := c.consecutiveSurplus + 1),
                            Monitoring, inp);
    TransitionKeepsSessions(cfg, ResetCounters(c), Idle, inp);
  }

  lemma TickKeepsSessions(cfg: Config, c: Ctl, inp: Input)
    requires cfg.Valid() && SessionsKept(cfg, c) && PositiveID(inp)
    ensures SessionsKept(cfg, Tick(cfg, c, inp).0)
  {
    hide TransitionTo, Sessions.Consistent, Control, TickTestMode;
    TransitionKeepsSessions(cfg, c, ErrorState, inp);
    if inp.power.Some? {
      TestModeKeepsSessions(cfg, c, inp, inp.power.value);
      TransitionKeepsSessions(cfg, c, Monitoring, inp);
      var c1 := MaybeClearError(cfg, c, inp);
      TransitionKeepsSessions(cfg, c1, ErrorState, inp);
      var (c2, poll, cs) := ReadVehicle(cfg, c1, inp);
      if cs.Some? {
        var c3 := UpdateKnownPlugState(c2, cs.value, inp.now);
        Sessions.ConsistentRecord(cfg.KWhPerAmp(), c3.session, cs.value.status == Charging, cs.value.ampsActual);
        var c4 := RecordSessionSample(cfg, c3, cs.value);
        ControlKeepsSessions(cfg, c4, inp, inp.power.value, cs.value,
                             Blank(c1, inp).(poll := poll, seen := cs));
      }
    }
  }

  /** Over any run of the controller the store sees (Start End)* Start? with
      matching ids, each End carrying the statistics of exactly the samples
      since its Start; a session is active only in the charging state, and
      without one the statistics are zero. */
  lemma {:induction false} SessionLogBracketed(cfg: Config, run: seq<Ctl>, events: seq<Event>, recs: seq<Record>,
                                               n: nat)
    requires IsRun(cfg, run, events, recs) && run[0] == New && n <= |events|
    requires forall i :: 0 <= i < |events| && !events[i].ModeEvent? ==> PositiveID(events[i].inp)
    ensures Sessions.Replay(cfg.KWhPerAmp(), run[n].session.log) != Sessions.Broken
    ensures run[n].session.activeSessionID != 0 ==> run[n].state == ChargingState
    ensures run[n].session.activeSessionID == 0 ==> Sessions.ResetStats(run[n].session) == run[n].session
    ensures SessionsKept(cfg, run[n])
  {
    hide Tick;
    if n > 0 {
      SessionLogBracketed(cfg, run, events, recs, n - 1);
      assert IsStep(cfg, run, events, recs, n - 1);
      var c := run[n - 1];
      match events[n - 1] {
        case TickEvent(inp) => TickKeepsSessions(cfg, c, inp);
        case RefreshEvent(inp) => TickKeepsSessions(cfg, ClearCooldowns(c), inp);
        case ModeEvent(_) =>
      }
    }
  }

  /** Over any run every EndSession call reports, of exactly the samples since its own
      StartSession, the maximum, the mean and the energy: amp total times line voltage
      times the hours of a poll interval, in thousandths. */
  lemma {:induction false} EndReportsOfRun(cfg: Config, run: seq<Ctl>, events: seq<Event>, recs: seq<Record>,
                                           n: nat, j: nat)
    requires IsRun(cfg, run, events, recs) && run[0] == New && n <= |events|
    requires forall i :: 0 <= i < |events| && !events[i].ModeEvent? ==> PositiveID(events[i].inp)
    requires j < |run[n].session.log| && run[n].session.log[j].End?
    ensures var log := run[n].session.log;
            var open := Sessions.Replay(cfg.KWhPerAmp(), log[..j]);
            && open.Open? && open.id == log[j].id
            && log[j].peakAmps == Sessions.Peak(open.samples)
            && log[j].avgAmps == Sessions.Mean(open.samples) <= log[j].peakAmps as real
            && log[j].energyKWh
               == Sessions.Sum(open.samples) as real
                  * (cfg.lineVoltage as real * (cfg.pollInterval as real / 3_600_000_000_000.0) / 1000.0)
  {
    hide Tick, Config.KWhPerAmp, Sessions.Replay, Sessions.Sum, Sessions.Peak, Sessions.Mean, Sessions.Energy;
    SessionLogBracketed(cfg, run, events, recs, n);
    Sessions.EndReportsItsSamples(cfg.KWhPerAmp(), run[n].session.log, j);
    EnergyOf(cfg, Sessions.Replay(cfg.KWhPerAmp(), run[n].session.log[..j]).samples);
  }

  lemma EnergyOf(cfg: Config, samples: seq<int>)
    ensures Sessions.Energy(cfg.KWhPerAmp(), samples)
         == Sessions.Sum(samples) as real
              * (cfg.lineVoltage as real * (cfg.pollInterval as real / 3_600_000_000_000.0) / 1000.0)
  {
    hide Sessions.Sum;
  }

  /** Over any run the calls the store carried out form (Start End)* Start? if and
      only if no session was started after an EndSession call had failed. */
  lemma {:induction false} SuccessfulCallsOfRun(cfg: Config, run: seq<Ctl>, events: seq<Event>, recs: seq<Record>,
                                                n: nat)
    requires IsRun(cfg, run, events, recs) && run[0] == New && n <= |events|
    requires forall i :: 0 <= i < |events| && !events[i].ModeEvent? ==> PositiveID(events[i].inp)
    ensures Sessions.Alternating(Sessions.Successes(run[n].session.log))
       <==> !Sessions.StartAfterFailedEnd(run[n].session.log)
  {
    SessionLogBracketed(cfg, run, events, recs, n);
    Sessions.SuccessfulCallsBracketed(cfg.KWhPerAmp(), run[n].session.log);
  }

  // ----- Minute averages -----

  /** The sample a tick contributes: none when the inverter or the vehicle read failed. */
  function SamplesOf(inp: Input, r: Record): seq<Minutes.Sample> {
    if inp.power.None? || r.poll == PollFailed then []
    else
      var p := inp.power.value;
      [Minutes.Sample(inp.end, p.pvWatts, p.gridWatts, p.loadWatts, p.surplusWatts, r.amps,
                      if r.seen.Some? then r.seen.value.batteryPct else 0)]
  }

  function EventSamples(e: Event, r: Record): (s: seq<Minutes.Sample>)
    ensures |s| <= 1
  {
    if e.ModeEvent? then [] else SamplesOf(e.inp, r)
  }

  function Samples(events: seq<Event>, recs: seq<Record>, n: nat): seq<Minutes.Sample>
    requires n <= |events| == |recs|
  {
    if n == 0 then [] else Samples(events, recs, n - 1) + EventSamples(events[n - 1], recs[n - 1])
  }

  function Feed(a: Minutes.Averager, samples: seq<Minutes.Sample>): Minutes.Averager {
    if samples == [] then a else Minutes.Accumulate(a, samples[0])
  }

  lemma DecideKeepsMinutes(cfg: Config, c: Ctl, inp: Input, cs: ChargeState, amps: int)
    ensures Decide(cfg, c, inp, cs, amps).0.minutes == c.minutes
  {
  }

  lemma ControlAddsSample(cfg: Config, c: Ctl, inp: Input, p: Power, cs: ChargeState, r: Record)
    requires cfg.Valid() && inp.power == Some(p) && r.seen == Some(cs) && r.poll != PollFailed && r.amps == 0
    ensures var (c', r') := Control(cfg, c, inp, p, cs, r);
            c'.minutes == Feed(c.minutes, SamplesOf(inp, r'))
  {
    hide Minutes.Accumulate, Decide;
    DecideKeepsMinutes(cfg, c, inp, cs,
      CalculateAvailableAmps(cfg.lineVoltage, cfg.maxChargeAmps, p.surplusWatts, p.gridWatts, cs));
  }

  lemma ControlKeepsRecord(cfg: Config, c: Ctl, inp: Input, p: Power, cs: ChargeState, r: Record)
    requires cfg.Valid()
    ensures var r' := Control(cfg, c, inp, p, cs, r).1;
            r'.poll == r.poll && r'.seen == r.seen && r'.pollState == r.pollState &&
            r'.start == r.start && r'.now == r.now && r'.end == r.end
  {
    hide Decide;
  }

  lemma TickAddsSample(cfg: Config, c: Ctl, inp: Input)
    requires cfg.Valid()
    ensures Tick(cfg, c, inp).0.minutes == Feed(c.minutes, SamplesOf(inp, Tick(cfg, c, inp).1))
  {
    hide Minutes.Accumulate, Control;
    if inp.power.Some? && !cfg.testMode {
      var c1 := MaybeClearError(cfg, c, inp);
      var (c2, poll, cs) := ReadVehicle(cfg, c1, inp);
      if cs.Some? {
        var c3 := RecordSessionSample(cfg, UpdateKnownPlugState(c2, cs.value, inp.now), cs.value);
        var r := Blank(c1, inp).(poll := poll, seen := cs);
        ControlAddsSample(cfg, c3, inp, inp.power.value, cs.value, r);
        ControlKeepsRecord(cfg, c3, inp, inp.power.value, cs.value, r);
      }
    }
  }

  lemma {:induction false} SamplesBefore(events: seq<Event>, recs: seq<Record>, n: nat, t: Time)
    requires Ordered(events) && n <= |events| == |recs|
    requires forall i :: 0 <= i < n && !events[i].ModeEvent? ==> events[i].inp.end <= t
    ensures forall x :: x in Samples(events, recs, n) ==> MINUTE <= x.at <= t
  {
    if n > 0 {
      SamplesBefore(events, recs, n - 1, t);
    }
  }

  lemma {:induction false} SamplesInOrder(events: seq<Event>, recs: seq<Record>, n: nat)
    requires Ordered(events) && n <= |events| == |recs|
    ensures Minutes.InOrder(Samples(events, recs, n))
  {
    if n > 0 {
      SamplesInOrder(events, recs, n - 1);
      if !events[n - 1].ModeEvent? {
        hide Minutes.InOrder;
        SamplesBefore(events, recs, n - 1, events[n - 1].inp.start);
        InOrderAppend(Samples(events, recs, n - 1), EventSamples(events[n - 1], recs[n - 1]));
      }
    }
  }

  lemma InOrderAppend(earlier: seq<Minutes.Sample>, added: seq<Minutes.Sample>)
    requires Minutes.InOrder(earlier) && |added| <= 1
    requires added != [] ==> added[0].at >= MINUTE && forall x :: x in earlier ==> x.at <= added[0].at
    ensures Minutes.InOrder(earlier + added)
  {
  }

  lemma StepAddsSample(cfg: Config, c: Ctl, e: Event)
    requires cfg.Valid()
    ensures Step(cfg, c, e).0.minutes == Feed(c.minutes, EventSamples(e, Step(cfg, c, e).1))
  {
    hide Tick, Feed, SamplesOf;
    match e {
      case TickEvent(inp) => TickAddsSample(cfg, c, inp);
      case RefreshEvent(inp) => TickAddsSample(cfg, ClearCooldowns(c), inp);
      case ModeEvent(_) => assert Feed(c.minutes, []) == c.minutes by { FeedNothing(c.minutes); }
    }
  }

  lemma FeedNothing(a: Minutes.Averager)
    ensures Feed(a, []) == a
  {
  }

  /** The controller's averager is fed exactly the samples of its ticks;
      `MinuteAverage` says what that keeps. */
  lemma {:induction false} MinutesFollowTicks(cfg: Config, run: seq<Ctl>, events: seq<Event>, recs: seq<Record>, n: nat)
    requires IsRun(cfg, run, events, recs) && run[0] == New && n <= |events|
    ensures run[n].minutes == Minutes.Feed(Samples(events, recs, n))
  {
    if n > 0 {
      hide Step, Minutes.Feed, EventSamples, Feed;
      MinutesFollowTicks(cfg, run, events, recs, n - 1);
      assert IsStep(cfg, run, events, recs, n - 1);
      StepAddsSample(cfg, run[n - 1], events[n - 1]);
      FeedAppend(Samples(events, recs, n - 1), EventSamples(events[n - 1], recs[n - 1]));
    }
  }

  lemma FeedAppend(earlier: seq<Minutes.Sample>, added: seq<Minutes.Sample>)
    requires |added| <= 1
    ensures Minutes.Feed(earlier + added) == Feed(Minutes.Feed(earlier), added)
  {
    if added == [] {
      assert earlier + added == earlier;
    } else {
      assert (earlier + added)[..|earlier|] == earlier;
    }
  }

  /** Whole runs conserve samples: what was persisted, followed by what is still
      gathered, is what the ticks read, in order. */
  lemma RunConservesSamples(cfg: Config, run: seq<Ctl>, events: seq<Event>, recs: seq<Record>, n: nat)
    requires IsRun(cfg, run, events, recs) && run[0] == New && Ordered(events) && n <= |events|
    ensures Minutes.Batches(run[n].minutes.flushed) + run[n].minutes.accumulator == Samples(events, recs, n)
  {
    MinutesFollowTicks(cfg, run, events, recs, n);
    SamplesInOrder(events, recs, n);
    Minutes.SamplesConserved(Samples(events, recs, n));
  }

  /** Nor is any quantity: averages times counts, summed over every reading the run
      persisted, with the totals of what is still gathered, are the totals of all
      that its ticks read. */
  lemma {:induction false} RunConservesTotals(cfg: Config, run: seq<Ctl>, events: seq<Event>, recs: seq<Record>, n: nat)
    requires IsRun(cfg, run, events, recs) && run[0] == New && Ordered(events) && n <= |events|
    ensures Minutes.Plus(Minutes.Persisted(run[n].minutes.flushed), Minutes.ExactTotals(run[n].minutes.accumulator))
         == Minutes.ExactTotals(Samples(events, recs, n))
  {
    MinutesFollowTicks(cfg, run, events, recs, n);
    SamplesInOrder(events, recs, n);
    Minutes.TotalsConserved(Samples(events, recs, n));
  }

  lemma {:induction false} BatchInBatches(flushed: seq<Minutes.Flush>, i: nat, x: Minutes.Sample)
    requires i < |flushed| && x in flushed[i].batch
    ensures x in Minutes.Batches(flushed)
  {
    if i < |flushed| - 1 {
      BatchInBatches(flushed[..|flushed| - 1], i, x);
    }
  }

  /** The inverter client derives surplus from the grid balance. */
  predicate SurplusFromGrid(e: Event) {
    !e.ModeEvent? && e.inp.power.Some? ==>
      e.inp.power.value.surplusWatts == Max(0, -e.inp.power.value.gridWatts)
  }

  lemma {:induction false} SamplesKeepSurplus(events: seq<Event>, recs: seq<Record>, n: nat)
    requires n <= |events| == |recs| && forall i :: 0 <= i < |events| ==> SurplusFromGrid(events[i])
    ensures Minutes.SurplusOfGrid(Samples(events, recs, n))
  {
    if n > 0 {
      SamplesKeepSurplus(events, recs, n - 1);
      assert SurplusFromGrid(events[n - 1]);
    }
  }

  /** Every persisted reading is the average of one clock minute with its last amps and
      battery level, and shows at least the surplus of its own grid balance. */
  lemma PersistedReadings(cfg: Config, run: seq<Ctl>, events: seq<Event>, recs: seq<Record>, n: nat, i: nat)
    requires IsRun(cfg, run, events, recs) && run[0] == New && Ordered(events) && n <= |events|
    requires forall k :: 0 <= k < |events| ==> SurplusFromGrid(events[k])
    requires i < |run[n].minutes.flushed|
    ensures var r := run[n].minutes.flushed[i].reading;
            var batch := run[n].minutes.flushed[i].batch;
            && Minutes.OneMinute(run[n].minutes.flushed[i])
            && r.surplusWatts >= 0.0 && r.surplusWatts >= -r.gridWatts
            && batch != [] && r.chargeAmps == batch[|batch| - 1].chargeAmps
            && r.batteryPct == batch[|batch| - 1].batteryPct
  {
    MinutesFollowTicks(cfg, run, events, recs, n);
    SamplesInOrder(events, recs, n);
    SamplesKeepSurplus(events, recs, n);
    var samples := Samples(events, recs, n);
    Minutes.FeedInvariant(samples);
    var f := run[n].minutes.flushed[i];
    forall x | x in f.batch
      ensures x in samples
    {
      BatchInBatches(run[n].minutes.flushed, i, x);
    }
    Minutes.SurplusAverageConvex(f.batch, f.reading.minute);
  }

  // ----- The feedback loop closed over two ticks -----

  /** The tick sent the car `amps` and succeeded, in charge or by starting one. */
  predicate Sent(r: Record, amps: int) {
    r.commands == [SetAmps(amps, true, true)] || r.commands == [SetAmps(amps, false, true), StartCharge(true)]
  }

  /** The car adopted the amps it was sent, whether it was adjusted or started,
      nothing else changed, and it is read again: the next tick sends no command. */
  lemma {:induction false} AdoptedAmpsSettle(cfg: Config, c: Ctl, inp: Input, inp': Input, amps: int)
    requires cfg.Valid() && inp.power.Some? && inp'.power.Some?
    requires var (c1, r) := Tick(cfg, c, inp);
             && Sent(r, amps) && r.seen.Some?
             && (r.seen.value.status == Charging || inp.power.value.surplusWatts == Max(0, -inp.power.value.gridWatts))
             && var (c2, r') := Tick(cfg, c1, inp');
             && r'.poll == Polled && inp'.vehicle.Reports?
             && inp'.vehicle.cs.status == Charging && inp'.vehicle.cs.isOnline
             && inp'.vehicle.cs.ampsActual == amps
             && inp'.power.value.gridWatts
                == inp.power.value.gridWatts + (amps - Drawn(r.seen.value)) * cfg.lineVoltage
    ensures Tick(cfg, Tick(cfg, c, inp).0, inp').1.commands == []
  {
    hide Tick, CalculateAvailableAmps;
    var (c1, r) := Tick(cfg, c, inp);
    SentAmpsAreRemembered(cfg, c, inp, amps);
    ControlLaw.DeadBeat(cfg.lineVoltage, cfg.maxChargeAmps, inp.power.value.surplusWatts, inp'.power.value.surplusWatts,
                        inp.power.value.gridWatts, r.seen.value, inp'.vehicle.cs);
    NoCommandAtTarget(cfg, c1, inp');
  }

  lemma SentAmpsAreRemembered(cfg: Config, c: Ctl, inp: Input, amps: int)
    requires cfg.Valid() && inp.power.Some?
    requires Sent(Tick(cfg, c, inp).1, amps)
    ensures var (c1, r) := Tick(cfg, c, inp);
            && c1.lastChargeAmps == amps >= cfg.minChargeAmps
            && r.seen.Some?
            && amps == CalculateAvailableAmps(cfg.lineVoltage, cfg.maxChargeAmps, inp.power.value.surplusWatts,
                                              inp.power.value.gridWatts, r.seen.value)
  {
    hide Minutes.Accumulate, Sessions.Begin, Sessions.Finish, Sessions.Record, CalculateAvailableAmps, Decide;
    var r := Tick(cfg, c, inp).1;
    assert r.commands != [];
    var c1 := MaybeClearError(cfg, c, inp);
    var (c2, poll, cs) := ReadVehicle(cfg, c1, inp);
    var c3 := RecordSessionSample(cfg, UpdateKnownPlugState(c2, cs.value, inp.now), cs.value);
    DecideRemembers(cfg, c3, inp, cs.value,
      CalculateAvailableAmps(cfg.lineVoltage, cfg.maxChargeAmps, inp.power.value.surplusWatts,
                             inp.power.value.gridWatts, cs.value), amps);
  }

  lemma DecideRemembers(cfg: Config, c: Ctl, inp: Input, cs: ChargeState, available: int, amps: int)
    ensures var (c', commands) := Decide(cfg, c, inp, cs, available);
            commands == [SetAmps(amps, true, true)] || commands == [SetAmps(amps, false, true), StartCharge(true)] ==>
              c'.lastChargeAmps == amps == available >= cfg.minChargeAmps
  {
    hide Sessions.Begin, Sessions.Finish;
    var commands := Decide(cfg, c, inp, cs, available).1;
    assert commands != [] && commands[0].SetAmps? ==> commands[0].amps == available;
  }

  lemma NoCommandAtTarget(cfg: Config, c: Ctl, inp: Input)
    requires cfg.Valid() && inp.power.Some?
    requires Tick(cfg, c, inp).1.poll == Polled && inp.vehicle.Reports?
    requires inp.vehicle.cs.status == Charging && inp.vehicle.cs.isOnline
    requires c.lastChargeAmps >= cfg.minChargeAmps
    requires CalculateAvailableAmps(cfg.lineVoltage, cfg.maxChargeAmps, inp.power.value.surplusWatts,
                                    inp.power.value.gridWatts, inp.vehicle.cs) == c.lastChargeAmps
    ensures Tick(cfg, c, inp).1.commands == []
  {
    hide Minutes.Accumulate, Sessions.Begin, Sessions.Finish, Sessions.Record, CalculateAvailableAmps;
  }
}
