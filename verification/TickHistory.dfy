/** Over whole runs: what each tick does, in terms of the events before it. */
module TickHistory {
  import opened Prelude
  import opened ControlLaw
  import opened Controller
  import opened ControllerRuns
  import opened Hysteresis
  import opened RateLimits
  import opened StartAttempts
  import opened TickOutcomes
  import Sessions = ChargeSessions

  /** The fields the controller keeps between ticks are abstractions of its history. */
  ghost predicate Remembers(c: Ctl, events: seq<Event>, recs: seq<Record>, n: nat)
    requires n <= |events| == |recs|
  {
    && c.mode == ModeAt(events, n)
    && Cached(c) == LastReading(events, recs, n) && c.lastTeslaPoll == LastPoll(events, recs, n)
    && c.lastOnlineAt == LastOnline(recs, n) && c.lastNonActionableAt == LastNonActionable(events, recs, n)
    && c.lastChargeAmps == LastAdopted(recs, n) && c.lastAmpsAdjustAt == LastAdjust(events, recs, n)
  }

  lemma NothingRemembered(events: seq<Event>, recs: seq<Record>)
    requires |events| == |recs|
    ensures Remembers(New, events, recs, 0)
  {
  }

  lemma NothingDone()
    ensures !AdjustsAmps(NoRecord) && !SeesOnline(NoRecord) && NoRecord.poll == NotPolled
    ensures forall adopted :: AfterCommands(NoRecord.commands, adopted) == adopted
  {
  }

  lemma {:induction false} FieldsAreHistory(cfg: Config, run: seq<Ctl>, events: seq<Event>, recs: seq<Record>, n: nat)
    requires IsRun(cfg, run, events, recs) && run[0] == New && n <= |events|
    ensures Remembers(run[n], events, recs, n)
  {
    hide Tick, AdjustsAmps, AfterCommands, SeesOnline, CannotCharge, SeesRightly, FarEnough, AdjustWanted,
         SendsInChargeAmps;
    if n == 0 {
      NothingRemembered(events, recs);
    } else {
      FieldsAreHistory(cfg, run, events, recs, n - 1);
      assert IsStep(cfg, run, events, recs, n - 1);
      NothingDone();
      if !events[n - 1].ModeEvent? {
        var c := StateBefore(run[n - 1], events[n - 1]);
        TickSees(cfg, c, events[n - 1].inp);
        TickAdjusts(cfg, c, events[n - 1].inp);
        TickStamps(cfg, c, events[n - 1].inp);
      }
    }
  }

  /** A tick polls the vehicle exactly when one is due, and sees its reply; otherwise it
      sees what the last poll since a forced refresh reported. */
  lemma {:induction false} SeesExactly(cfg: Config, run: seq<Ctl>, events: seq<Event>, recs: seq<Record>, n: nat)
    requires IsRun(cfg, run, events, recs) && run[0] == New && n < |events| && !events[n].ModeEvent?
    ensures SeesRightly(cfg, events[n].inp, recs[n],
                        if events[n].RefreshEvent? then None else LastReading(events, recs, n),
                        Standing(events[n], LastPoll(events, recs, n)))
  {
    hide Tick, SeesRightly;
    FieldsAreHistory(cfg, run, events, recs, n);
    assert IsStep(cfg, run, events, recs, n);
    TickSees(cfg, StateBefore(run[n], events[n]), events[n].inp);
  }

  /** Outside test mode a tick is evaluated exactly when inverter and vehicle were read, the
      last mode set is automatic, and the car is online and plugged in, or offline with
      leave to wake it: plugged in when last online, that not too long ago, not lately
      unable to charge, and within the wake hours. */
  lemma {:induction false} EvaluatedExactly(cfg: Config, run: seq<Ctl>, events: seq<Event>, recs: seq<Record>, n: nat)
    requires IsRun(cfg, run, events, recs) && run[0] == New && n < |events| && !events[n].ModeEvent? && !cfg.testMode
    ensures var inp := events[n].inp;
            Evaluated(recs[n]) <==>
              && inp.power.Some? && recs[n].seen.Some? && ModeAt(events, n) == Auto
              && (if recs[n].seen.value.isOnline then recs[n].seen.value.pluggedIn
                  else MayWake(cfg, LastOnlinePlug(recs, n), LastOnline(recs, n),
                               Standing(events[n], LastNonActionable(events, recs, n)), inp.now, inp.hour))
  {
    hide Tick, MayWake, DecidesRightly, Evaluated;
    FieldsAreHistory(cfg, run, events, recs, n);
    PlugIsHistory(cfg, run, events, recs, n);
    assert IsStep(cfg, run, events, recs, n);
    TickDecides(cfg, StateBefore(run[n], events[n]), events[n].inp);
  }

  /** A tick that is not evaluated sends nothing; one that is takes its amps from the law and
      sends at most one thing: a set of amps it computed, a start with them, a stop or a wake. */
  lemma {:induction false} DecidesExactly(cfg: Config, run: seq<Ctl>, events: seq<Event>, recs: seq<Record>, n: nat)
    requires IsRun(cfg, run, events, recs) && n < |events| && !events[n].ModeEvent? && !cfg.testMode
    ensures DecidesRightly(cfg, events[n].inp, recs[n])
  {
    hide Tick, MayWake, DecidesRightly, Evaluated;
    assert IsStep(cfg, run, events, recs, n);
    TickDecides(cfg, StateBefore(run[n], events[n]), events[n].inp);
  }

  /** While the last mode set is manual no tick and no forced refresh sends any command,
      counts towards the hysteresis, or changes the amps last adopted. */
  lemma {:induction false} ManualSendsNothing(cfg: Config, run: seq<Ctl>, events: seq<Event>, recs: seq<Record>, n: nat)
    requires IsRun(cfg, run, events, recs) && run[0] == New && n < |events| && !events[n].ModeEvent?
    requires ModeAt(events, n) == Manual
    ensures recs[n].commands == [] && run[n + 1].lastChargeAmps == run[n].lastChargeAmps
    ensures !cfg.testMode ==> recs[n].mark != High && recs[n].mark != Low
  {
    hide Tick, MayWake;
    assert IsStep(cfg, run, events, recs, n);
    var c := StateBefore(run[n], events[n]);
    TickAdjusts(cfg, c, events[n].inp);
    if cfg.testMode {
      TestModeDecides(cfg, c, events[n].inp);
    } else {
      EvaluatedExactly(cfg, run, events, recs, n);
      DecidesExactly(cfg, run, events, recs, n);
    }
  }

  /** In test mode nothing is ever sent. */
  lemma {:induction false} TestModeSendsNothing(cfg: Config, run: seq<Ctl>, events: seq<Event>, recs: seq<Record>,
                                                n: nat)
    requires IsRun(cfg, run, events, recs) && n < |events| && cfg.testMode
    ensures recs[n].commands == [] && recs[n].poll == NotPolled
  {
    hide Tick, SeesRightly;
    assert IsStep(cfg, run, events, recs, n);
    if !events[n].ModeEvent? {
      TestModeDecides(cfg, StateBefore(run[n], events[n]), events[n].inp);
      TickSees(cfg, StateBefore(run[n], events[n]), events[n].inp);
      NeverPolled(cfg, events[n].inp, recs[n]);
    }
  }

  lemma NeverPolled(cfg: Config, inp: Input, r: Record)
    requires cfg.testMode && exists reading, since :: SeesRightly(cfg, inp, r, reading, since)
    ensures r.poll == NotPolled
  {
  }

  /** Over any run amps are sent in charge exactly when a high tick finds the car online
      and charging, the law has moved by the threshold from the amps last adopted, and the
      adjustment interval since amps were last sent successfully is over. */
  lemma {:induction false} AdjustExactly(cfg: Config, run: seq<Ctl>, events: seq<Event>, recs: seq<Record>, n: nat)
    requires IsRun(cfg, run, events, recs) && run[0] == New && n < |events|
    ensures SendsInChargeAmps(recs[n]) <==>
              && AdjustWanted(cfg, recs[n], LastAdopted(recs, n))
              && Over(cfg.ampsAdjustInterval, Standing(events[n], LastAdjust(events, recs, n)), recs[n].now)
  {
    hide Tick, SendsInChargeAmps, AdjustWanted, LastAdopted, LastAdjust, AfterCommands;
    FieldsAreHistory(cfg, run, events, recs, n);
    assert IsStep(cfg, run, events, recs, n);
    if events[n].ModeEvent? {
      NothingAdjusted(cfg, LastAdopted(recs, n));
    } else {
      TickAdjusts(cfg, StateBefore(run[n], events[n]), events[n].inp);
    }
  }

  lemma NothingAdjusted(cfg: Config, adopted: int)
    ensures !SendsInChargeAmps(NoRecord) && !AdjustWanted(cfg, NoRecord, adopted)
  {
  }

  /** Every tick leaves the state its outcome calls for, having first cleared an error whose
      backoff is over. */
  lemma {:induction false} StateExactly(cfg: Config, run: seq<Ctl>, events: seq<Event>, recs: seq<Record>, n: nat)
    requires IsRun(cfg, run, events, recs) && run[0] == New && n < |events| && !events[n].ModeEvent?
    ensures run[n + 1].state ==
              StateAfter(cfg, events[n].inp, recs[n], ModeAt(events, n), Trailing(Marks(events, recs, n + 1), High))
    ensures var inp := events[n].inp;
            var before := if events[n].RefreshEvent? && run[n].state == ErrorState then Monitoring else run[n].state;
            recs[n].pollState ==
              if inp.power.Some? && !cfg.testMode
                 && ErrorClears(cfg, before, Standing(events[n], LastFailure(events, recs, n)), inp.start)
              then Monitoring else before
  {
    hide Tick, StateAfter, ErrorClears, Trailing, Marks;
    FieldsAreHistory(cfg, run, events, recs, n);
    CooldownsAreHistory(cfg, run, events, recs, n);
    CountersAreHistory(cfg, run, events, recs, n + 1);
    assert IsStep(cfg, run, events, recs, n);
    TickState(cfg, StateBefore(run[n], events[n]), events[n].inp);
  }

  /** Every tick logs the amps it reads of a charging car while a session is active, then
      the session it starts on entering the charging state or ends on leaving it. */
  lemma {:induction false} SessionLogFollowsTicks(cfg: Config, run: seq<Ctl>, events: seq<Event>, recs: seq<Record>,
                                                  n: nat)
    requires IsRun(cfg, run, events, recs) && n < |events| && !events[n].ModeEvent?
    ensures LogGrows(run[n], run[n + 1], events[n].inp, recs[n])
  {
    hide Tick;
    assert IsStep(cfg, run, events, recs, n);
    TickLogs(cfg, StateBefore(run[n], events[n]), events[n].inp);
  }
}
