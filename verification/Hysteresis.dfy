/** The controller's hysteresis counters as exact abstractions of its history. */
module Hysteresis {
  import opened Prelude
  import opened ControlLaw
  import opened Controller
  import opened ControllerRuns
  import Sessions = ChargeSessions
  import Minutes = MinuteAverage

  /** The marks of the first `n` events, oldest first. A forced refresh resets
      the counters before its tick; changing the mode leaves them alone. */
  function Marks(events: seq<Event>, recs: seq<Record>, n: nat): seq<Mark>
    requires n <= |events| == |recs|
  {
    if n == 0 then [] else Marks(events, recs, n - 1) + EventMarks(events[n - 1], recs[n - 1])
  }

  function EventMarks(e: Event, r: Record): seq<Mark> {
    match e
    case TickEvent(_) => [r.mark]
    case RefreshEvent(_) => [Reset, r.mark]
    case ModeEvent(_) => []
  }

  /** How many marks `m` end the history, not counting ignored ticks. */
  function Trailing(marks: seq<Mark>, m: Mark): nat {
    if marks == [] then 0
    else
      var init := marks[..|marks| - 1];
      var last := marks[|marks| - 1];
      if last == Ignored then Trailing(init, m)
      else if last == m then Trailing(init, m) + 1
      else 0
  }

  /** What `Trailing` means: a suffix with nothing but `m` and ignored ticks,
      as long as possible, holds exactly that many of them. */
  lemma {:induction false} TrailingSuffix(marks: seq<Mark>, m: Mark) returns (k: nat)
    requires m != Ignored
    ensures k <= |marks|
    ensures forall i :: k <= i < |marks| ==> marks[i] == m || marks[i] == Ignored
    ensures k > 0 ==> marks[k - 1] != m && marks[k - 1] != Ignored
    ensures multiset(marks[k..])[m] == Trailing(marks, m)
  {
    if marks == [] {
      k := 0;
    } else {
      var last := marks[|marks| - 1];
      if last != m && last != Ignored {
        k := |marks|;
      } else {
        k := TrailingSuffix(marks[..|marks| - 1], m);
        assert marks[k..] == marks[..|marks| - 1][k..] + [last];
      }
    }
  }

  // ----- One tick -----

  function AfterMark(count: nat, mark: Mark, m: Mark): nat {
    if mark == Ignored then count else if mark == m then count + 1 else 0
  }

  lemma ControlCounts(cfg: Config, c: Ctl, inp: Input, p: Power, cs: ChargeState, r: Record)
    requires cfg.Valid() && r.mark == Ignored
    ensures var (c', r') := Control(cfg, c, inp, p, cs, r);
            && c'.consecutiveLow == AfterMark(c.consecutiveLow, r'.mark, Low)
            && c'.consecutiveSurplus == AfterMark(c.consecutiveSurplus, r'.mark, High)
  {
    hide Sessions.Begin, Sessions.Finish, Minutes.Accumulate, CalculateAvailableAmps;
  }

  lemma TickCounts(cfg: Config, c: Ctl, inp: Input)
    requires cfg.Valid()
    ensures var (c', r) := Tick(cfg, c, inp);
            && c'.consecutiveLow == AfterMark(c.consecutiveLow, r.mark, Low)
            && c'.consecutiveSurplus == AfterMark(c.consecutiveSurplus, r.mark, High)
  {
    hide Control, Sessions.Begin, Sessions.Finish, Sessions.Record, Minutes.Accumulate, CalculateAvailableAmps;
    if inp.power.Some? && !cfg.testMode {
      var c1 := MaybeClearError(cfg, c, inp);
      var (c2, poll, cs) := ReadVehicle(cfg, c1, inp);
      if cs.Some? {
        var c3 := RecordSessionSample(cfg, UpdateKnownPlugState(c2, cs.value, inp.now), cs.value);
        ControlCounts(cfg, c3, inp, inp.power.value, cs.value, Blank(c1, inp).(poll := poll, seen := cs));
      }
    }
  }

  predicate SendsStop(r: Record) {
    exists i :: 0 <= i < |r.commands| && r.commands[i].StopCharge?
  }

  predicate SendsWake(r: Record) {
    exists i :: 0 <= i < |r.commands| && r.commands[i].Wake?
  }

  ghost predicate StopCondition(cfg: Config, r: Record, low: nat) {
    r.mark == Low && r.seen.Some? && r.seen.value.status == Charging && low >= cfg.deadbandPolls
  }

  /** `c` is the state the decision starts from. */
  ghost predicate WakeCondition(cfg: Config, c: Ctl, r: Record, surplus: nat) {
    && r.mark == High && r.seen.Some? && !r.seen.value.isOnline
    && r.amps >= cfg.minChargeAmps + cfg.wakeMinAmpsMargin
    && surplus >= cfg.wakeThresholdPolls
    && (c.lastWakeAttempt == 0 || r.now - c.lastWakeAttempt >= cfg.wakeRetryInterval)
  }

  lemma ControlCommands(cfg: Config, c: Ctl, inp: Input, p: Power, cs: ChargeState, r: Record)
    requires cfg.Valid() && r == r.(now := inp.now, seen := Some(cs), mark := Ignored, amps := 0, commands := [])
    ensures var (c', r') := Control(cfg, c, inp, p, cs, r);
            && (SendsStop(r') <==> StopCondition(cfg, r', c'.consecutiveLow))
            && (SendsWake(r') <==> WakeCondition(cfg, c, r', c'.consecutiveSurplus))
            && (SendsWake(r') ==> c.lastKnownPluggedIn)
  {
    hide Sessions.Begin, Sessions.Finish, Minutes.Accumulate, CalculateAvailableAmps;
    var (c', r') := Control(cfg, c, inp, p, cs, r);
    if r'.mark == High || r'.mark == Low {
      var amps := CalculateAvailableAmps(cfg.lineVoltage, cfg.maxChargeAmps, p.surplusWatts, p.gridWatts, cs);
      DecideCommands(cfg, c, inp, cs, amps);
    }
  }

  lemma DecideCommands(cfg: Config, c: Ctl, inp: Input, cs: ChargeState, amps: int)
    ensures var (c', commands) := Decide(cfg, c, inp, cs, amps);
            && ((exists i :: 0 <= i < |commands| && commands[i].StopCharge?) <==>
                  amps < cfg.minChargeAmps && cs.status == Charging && c'.consecutiveLow >= cfg.deadbandPolls)
            && ((exists i :: 0 <= i < |commands| && commands[i].Wake?) <==>
                  && amps >= cfg.minChargeAmps && !cs.isOnline
                  && amps >= cfg.minChargeAmps + cfg.wakeMinAmpsMargin
                  && c'.consecutiveSurplus >= cfg.wakeThresholdPolls
                  && (c.lastWakeAttempt == 0 || inp.now - c.lastWakeAttempt >= cfg.wakeRetryInterval))
  {
    hide Sessions.Begin, Sessions.Finish;
    var (c', commands) := Decide(cfg, c, inp, cs, amps);
    assert commands != [] && (commands[0].StopCharge? || commands[0].Wake?) ==> |commands| == 1;
    assert |commands| == 2 ==> commands[0].SetAmps? && commands[1].StartCharge?;
  }

  lemma TickCommands(cfg: Config, c: Ctl, inp: Input)
    requires cfg.Valid()
    ensures var (c', r) := Tick(cfg, c, inp);
            && (SendsStop(r) <==> StopCondition(cfg, r, c'.consecutiveLow))
            && (SendsWake(r) <==> WakeCondition(cfg, c, r, c'.consecutiveSurplus))
            && (SendsWake(r) ==> c.lastKnownPluggedIn)
  {
    hide Control, Sessions.Begin, Sessions.Finish, Sessions.Record, Minutes.Accumulate, CalculateAvailableAmps;
    if inp.power.Some? && !cfg.testMode {
      var c1 := MaybeClearError(cfg, c, inp);
      var (c2, poll, cs) := ReadVehicle(cfg, c1, inp);
      if cs.Some? {
        var c3 := RecordSessionSample(cfg, UpdateKnownPlugState(c2, cs.value, inp.now), cs.value);
        var r := Blank(c1, inp).(poll := poll, seen := cs);
        assert c3.lastWakeAttempt == c.lastWakeAttempt;
        ControlCommands(cfg, c3, inp, inp.power.value, cs.value, r);
        ControlKeepsRecord(cfg, c3, inp, inp.power.value, cs.value, r);
        assert !cs.value.isOnline ==> c3.lastKnownPluggedIn == c.lastKnownPluggedIn;
      }
    }
  }

  // ----- Whole runs -----

  lemma TrailingAppend(marks: seq<Mark>, mark: Mark, m: Mark)
    ensures Trailing(marks + [mark], m) == AfterMark(Trailing(marks, m), mark, m)
  {
    assert (marks + [mark])[..|marks|] == marks;
  }

  lemma StepCounts(cfg: Config, c: Ctl, e: Event, marks: seq<Mark>)
    requires cfg.Valid()
    requires c.consecutiveLow == Trailing(marks, Low) && c.consecutiveSurplus == Trailing(marks, High)
    ensures var (c', r) := Step(cfg, c, e);
            && c'.consecutiveLow == Trailing(marks + EventMarks(e, r), Low)
            && c'.consecutiveSurplus == Trailing(marks + EventMarks(e, r), High)
  {
    hide Tick, Trailing;
    var r := Step(cfg, c, e).1;
    match e {
      case TickEvent(inp) =>
        TickCounts(cfg, c, inp);
        TrailingAppend(marks, r.mark, Low);
        TrailingAppend(marks, r.mark, High);
      case RefreshEvent(inp) =>
        TickCounts(cfg, ClearCooldowns(c), inp);
        TrailingAppend(marks, Reset, Low);
        TrailingAppend(marks, Reset, High);
        TrailingAppend(marks + [Reset], r.mark, Low);
        TrailingAppend(marks + [Reset], r.mark, High);
        assert marks + [Reset] + [r.mark] == marks + [Reset, r.mark];
      case ModeEvent(_) =>
        assert marks + [] == marks;
    }
  }

  /** At every point of every run the counters equal the trailing runs of low
      and of high evaluated ticks since the last reset. */
  lemma {:induction false} CountersAreHistory(cfg: Config, run: seq<Ctl>, events: seq<Event>, recs: seq<Record>, n: nat)
    requires IsRun(cfg, run, events, recs) && run[0] == New && n <= |events|
    ensures run[n].consecutiveLow == Trailing(Marks(events, recs, n), Low)
    ensures run[n].consecutiveSurplus == Trailing(Marks(events, recs, n), High)
  {
    hide Step, EventMarks;
    if n > 0 {
      hide Trailing;
      CountersAreHistory(cfg, run, events, recs, n - 1);
      assert IsStep(cfg, run, events, recs, n - 1);
      StepCounts(cfg, run[n - 1], events[n - 1], Marks(events, recs, n - 1));
    }
  }

  lemma {:induction false} NeverBothCounting(marks: seq<Mark>)
    ensures Trailing(marks, Low) == 0 || Trailing(marks, High) == 0
  {
    if marks != [] {
      NeverBothCounting(marks[..|marks| - 1]);
    }
  }

  /** An automatic stop is sent exactly when the tick is low, the car reads
      Charging and the last `deadbandPolls` evaluated ticks were all low. */
  lemma {:induction false} StopExactly(cfg: Config, run: seq<Ctl>, events: seq<Event>, recs: seq<Record>, n: nat)
    requires IsRun(cfg, run, events, recs) && run[0] == New && n < |events|
    ensures SendsStop(recs[n]) <==>
              StopCondition(cfg, recs[n], Trailing(Marks(events, recs, n + 1), Low))
  {
    hide Tick, Trailing, EventMarks, SendsStop, StopCondition;
    CountersAreHistory(cfg, run, events, recs, n + 1);
    assert IsStep(cfg, run, events, recs, n);
    match events[n] {
      case TickEvent(inp) => TickCommands(cfg, run[n], inp);
      case RefreshEvent(inp) => TickCommands(cfg, ClearCooldowns(run[n]), inp);
      case ModeEvent(_) => NothingSentWithoutTick(cfg, Trailing(Marks(events, recs, n + 1), Low));
    }
  }

  lemma NothingSentWithoutTick(cfg: Config, low: nat)
    ensures !SendsStop(NoRecord) && !SendsWake(NoRecord) && !StopCondition(cfg, NoRecord, low)
  {
  }

  /** What the car last reported while online about its plug. */
  function LastOnlinePlug(recs: seq<Record>, n: nat): bool
    requires n <= |recs|
  {
    if n == 0 then false
    else if recs[n - 1].seen.Some? && recs[n - 1].seen.value.isOnline then recs[n - 1].seen.value.pluggedIn
    else LastOnlinePlug(recs, n - 1)
  }

  lemma ControlKeepsPlug(cfg: Config, c: Ctl, inp: Input, p: Power, cs: ChargeState, r: Record)
    requires cfg.Valid()
    ensures Control(cfg, c, inp, p, cs, r).0.lastKnownPluggedIn == c.lastKnownPluggedIn
  {
    hide Sessions.Begin, Sessions.Finish, Minutes.Accumulate, CalculateAvailableAmps;
  }

  lemma TickPlug(cfg: Config, c: Ctl, inp: Input)
    requires cfg.Valid()
    ensures var (c', r) := Tick(cfg, c, inp);
            c'.lastKnownPluggedIn ==
              if r.seen.Some? && r.seen.value.isOnline then r.seen.value.pluggedIn else c.lastKnownPluggedIn
  {
    hide Control, Sessions.Begin, Sessions.Finish, Sessions.Record, Minutes.Accumulate, CalculateAvailableAmps;
    if inp.power.Some? && !cfg.testMode {
      var c1 := MaybeClearError(cfg, c, inp);
      var (c2, poll, cs) := ReadVehicle(cfg, c1, inp);
      if cs.Some? {
        var c3 := RecordSessionSample(cfg, UpdateKnownPlugState(c2, cs.value, inp.now), cs.value);
        var r := Blank(c1, inp).(poll := poll, seen := cs);
        ControlKeepsPlug(cfg, c3, inp, inp.power.value, cs.value, r);
        ControlKeepsRecord(cfg, c3, inp, inp.power.value, cs.value, r);
      }
    }
  }

  lemma {:induction false} PlugIsHistory(cfg: Config, run: seq<Ctl>, events: seq<Event>, recs: seq<Record>, n: nat)
    requires IsRun(cfg, run, events, recs) && run[0] == New && n <= |events|
    ensures run[n].lastKnownPluggedIn == LastOnlinePlug(recs, n)
  {
    hide Tick;
    if n > 0 {
      PlugIsHistory(cfg, run, events, recs, n - 1);
      assert IsStep(cfg, run, events, recs, n - 1);
      match events[n - 1] {
        case TickEvent(inp) => TickPlug(cfg, run[n - 1], inp);
        case RefreshEvent(inp) => TickPlug(cfg, ClearCooldowns(run[n - 1]), inp);
        case ModeEvent(_) =>
      }
    }
  }

  /** The car is woken only on a surplus that held for `wakeThresholdPolls`
      evaluated ticks and now clears the margin, and only when it was plugged in
      the last time it was online. */
  lemma WakeOnlyWhenWarranted(cfg: Config, run: seq<Ctl>, events: seq<Event>, recs: seq<Record>, n: nat)
    requires IsRun(cfg, run, events, recs) && run[0] == New && n < |events|
    requires SendsWake(recs[n])
    ensures Trailing(Marks(events, recs, n + 1), High) >= cfg.wakeThresholdPolls
    ensures recs[n].mark == High && recs[n].amps >= cfg.minChargeAmps + cfg.wakeMinAmpsMargin
    ensures recs[n].seen.Some? && !recs[n].seen.value.isOnline && LastOnlinePlug(recs, n)
  {
    hide Tick, Trailing, Marks, SendsWake, LastOnlinePlug;
    WakeExactly(cfg, run, events, recs, n);
    PlugIsHistory(cfg, run, events, recs, n);
    PluggedWhenWoken(cfg, run, events, recs, n);
  }

  /** The controller as event `e` starts its tick. */
  function StateBefore(c: Ctl, e: Event): Ctl {
    if e.RefreshEvent? then ClearCooldowns(c) else c
  }

  /** And it is woken exactly when the tick is high, the car offline, the margin
      cleared, the surplus held long enough and the last wake long enough ago. */
  lemma {:induction false} WakeExactly(cfg: Config, run: seq<Ctl>, events: seq<Event>, recs: seq<Record>, n: nat)
    requires IsRun(cfg, run, events, recs) && run[0] == New && n < |events|
    ensures SendsWake(recs[n]) <==>
              WakeCondition(cfg, StateBefore(run[n], events[n]), recs[n], Trailing(Marks(events, recs, n + 1), High))
  {
    hide Tick, Trailing, EventMarks, SendsWake, WakeCondition;
    CountersAreHistory(cfg, run, events, recs, n + 1);
    assert IsStep(cfg, run, events, recs, n);
    match events[n] {
      case TickEvent(inp) => TickCommands(cfg, run[n], inp);
      case RefreshEvent(inp) => TickCommands(cfg, ClearCooldowns(run[n]), inp);
      case ModeEvent(_) =>
        NothingSentWithoutTick(cfg, 0);
        NoWakeWithoutTick(cfg, run[n], Trailing(Marks(events, recs, n + 1), High));
    }
  }

  lemma NoWakeWithoutTick(cfg: Config, c: Ctl, surplus: nat)
    ensures !WakeCondition(cfg, c, NoRecord, surplus)
  {
  }

  lemma PluggedWhenWoken(cfg: Config, run: seq<Ctl>, events: seq<Event>, recs: seq<Record>, n: nat)
    requires IsRun(cfg, run, events, recs) && n < |events| && SendsWake(recs[n])
    ensures run[n].lastKnownPluggedIn
  {
    hide Tick, SendsWake, WakeCondition;
    assert IsStep(cfg, run, events, recs, n);
    match events[n] {
      case TickEvent(inp) => TickCommands(cfg, run[n], inp);
      case RefreshEvent(inp) => TickCommands(cfg, ClearCooldowns(run[n]), inp);
      case ModeEvent(_) => NothingSentWithoutTick(cfg, 0);
    }
  }
}
