/** The feedback law that turns the grid balance into charging amps. */
module ControlLaw {
  import opened Prelude

  datatype ChargeStatus = Charging | Stopped | NoPower | Unknown | Disconnected | Complete | OtherStatus

  /** What the vehicle reports; `Unknown` is the empty status string. */
  datatype ChargeState = ChargeState(
    status: ChargeStatus, ampsActual: int, batteryPct: int, pluggedIn: bool, isOnline: bool)

  const NoChargeState := ChargeState(Unknown, 0, 0, false, false)

  function CalculateAvailableAmps(voltage: int, maxAmps: int, surplusWatts: int, gridWatts: int,
                                  cs: ChargeState): (n: int)
    requires voltage >= 1 && maxAmps >= 0
    ensures 0 <= n <= maxAmps
  {
    var surplusAmps :=
      if cs.status == Charging then -gridWatts / voltage + cs.ampsActual
      else surplusWatts / voltage;
    Min(Max(surplusAmps, 0), maxAmps)
  }

  /** Drawing `amps` instead of `actual` would leave no import from the grid. */
  predicate Affordable(voltage: int, gridWatts: int, actual: int, amps: int) {
    gridWatts + (amps - actual) * voltage <= 0
  }

  /** While charging the law is optimal: the amps it allows are exactly the
      affordable ones. */
  lemma {:induction false} Optimal(voltage: int, maxAmps: int, surplusWatts: int, gridWatts: int,
                                   cs: ChargeState, m: int)
    requires voltage >= 1 && maxAmps >= 0 && cs.status == Charging
    requires 1 <= m <= maxAmps
    ensures Affordable(voltage, gridWatts, cs.ampsActual, m)
       <==> m <= CalculateAvailableAmps(voltage, maxAmps, surplusWatts, gridWatts, cs)
  {
    FloorDivides(-gridWatts, voltage, m - cs.ampsActual);
  }

  lemma FloorDivides(x: int, d: int, k: int)
    requires d >= 1
    ensures k * d <= x <==> k <= x / d
  {
    assert x == d * (x / d) + x % d;
    if k <= x / d {
      assert k * d <= (x / d) * d;
    } else {
      assert k * d >= (x / d + 1) * d;
    }
  }

  /** The branch for an idle car is the same law with nothing drawn. */
  lemma IdleIsChargingAtZero(voltage: int, maxAmps: int, gridWatts: int, idle: ChargeState)
    requires voltage >= 1 && maxAmps >= 0 && idle.status != Charging
    ensures CalculateAvailableAmps(voltage, maxAmps, Max(0, -gridWatts), gridWatts, idle)
         == CalculateAvailableAmps(voltage, maxAmps, Max(0, -gridWatts), gridWatts,
                                   idle.(status := Charging, ampsActual := 0))
  {
    if gridWatts > 0 {
      FloorDivides(-gridWatts, voltage, 0);
      FloorDivides(0, voltage, 1);
      FloorDivides(0, voltage, 0);
    }
  }

  /** What the car draws: nothing unless it charges. */
  function Drawn(cs: ChargeState): int {
    if cs.status == Charging then cs.ampsActual else 0
  }

  /** The law is dead-beat: once the car draws what it allows and nothing else
      changes, it allows the same again. The car may have been charging already, or
      idle with its surplus read off the grid balance and started since. */
  lemma {:induction false} DeadBeat(voltage: int, maxAmps: int, surplus: int, surplus': int, gridWatts: int,
                                    cs: ChargeState, cs': ChargeState)
    requires voltage >= 1 && maxAmps >= 0 && cs'.status == Charging
    requires cs.status == Charging || surplus == Max(0, -gridWatts)
    requires cs'.ampsActual == CalculateAvailableAmps(voltage, maxAmps, surplus, gridWatts, cs)
    ensures var n := CalculateAvailableAmps(voltage, maxAmps, surplus, gridWatts, cs);
            var gridWatts' := gridWatts + (n - Drawn(cs)) * voltage;
            CalculateAvailableAmps(voltage, maxAmps, surplus', gridWatts', cs') == n
  {
    if cs.status != Charging {
      IdleIsChargingAtZero(voltage, maxAmps, gridWatts, cs);
    }
    DeadBeatCharging(voltage, maxAmps, surplus, surplus', gridWatts,
                     cs.(status := Charging, ampsActual := Drawn(cs)), cs');
  }

  lemma {:induction false} DeadBeatCharging(voltage: int, maxAmps: int, surplus: int, surplus': int, gridWatts: int,
                                            cs: ChargeState, cs': ChargeState)
    requires voltage >= 1 && maxAmps >= 0 && cs.status == Charging && cs'.status == Charging
    requires cs'.ampsActual == CalculateAvailableAmps(voltage, maxAmps, surplus, gridWatts, cs)
    ensures var n := CalculateAvailableAmps(voltage, maxAmps, surplus, gridWatts, cs);
            var gridWatts' := gridWatts + (n - cs.ampsActual) * voltage;
            CalculateAvailableAmps(voltage, maxAmps, surplus', gridWatts', cs') == n
  {
    var n := CalculateAvailableAmps(voltage, maxAmps, surplus, gridWatts, cs);
    ShiftFloor(-gridWatts, voltage, cs.ampsActual - n);
    assert -(gridWatts + (n - cs.ampsActual) * voltage) == -gridWatts + (cs.ampsActual - n) * voltage;
  }

  lemma ShiftFloor(x: int, d: int, k: int)
    requires d >= 1
    ensures (x + k * d) / d == x / d + k
  {
    FloorDivides(x + k * d, d, x / d + k);
    FloorDivides(x + k * d, d, x / d + k + 1);
    FloorDivides(x, d, x / d);
    FloorDivides(x, d, x / d + 1);
    assert (x / d + k) * d == (x / d) * d + k * d;
    assert (x / d + k + 1) * d == (x / d + 1) * d + k * d;
  }
}
