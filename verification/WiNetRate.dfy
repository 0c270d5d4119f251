/** How often the WiNet-S client may log in while no poll succeeds. */
module WiNetRate {
  import opened Prelude
  import opened WiNet

  /** `run` lists the states between consecutive polls, `good` their outcomes. */
  ghost predicate IsRun(w: World, run: seq<State>, good: seq<bool>) {
    && |run| == |good| + 1
    && forall i :: 0 <= i < |good| ==> IsPoll(w, run, good, i)
  }

  ghost predicate IsPoll(w: World, run: seq<State>, good: seq<bool>, i: nat)
    requires i < |good| && |run| == |good| + 1
  {
    run[i + 1] == GetPowerData(w, run[i]).0 && good[i] == GetPowerData(w, run[i]).1.Some?
  }

  /** Fields that hold between any two interactions of the client. */
  ghost predicate Valid(w: World, s: State) {
    && (s.token.Some? <==> s.socket)
    && (s.token.Some? ==> s.token.value <= s.newest && s.nextConnect <= w(s.pos).time)
    && s.failedPolls < SESSION_RESET_AFTER
    && (s.token.None? ==> s.failedPolls == 0)
    && s.nextConnect <= w(s.pos).time + BACKOFF_MAX
  }

  // ----- The delays -----

  lemma {:induction false} ShiftedBaseGrows(a: nat, b: nat)
    requires a <= b
    ensures ShiftedBase(a) <= ShiftedBase(b)
  {
    if a < b {
      ShiftedBaseGrows(a, b - 1);
    }
  }

  lemma DelayMonotone(a: nat, b: nat)
    requires a <= b
    ensures Delay(a) <= Delay(b)
  {
    if a > 1 {
      ShiftedBaseGrows(Min(a - 2, 16), Min(b - 2, 16));
    }
  }

  lemma DelayTable()
    ensures Delay(1) == 0 && Delay(2) == 30 * SECOND && Delay(3) == 60 * SECOND
    ensures Delay(4) == 120 * SECOND && Delay(5) == 240 * SECOND
    ensures forall r: nat :: r >= 6 ==> Delay(r) == BACKOFF_MAX
  {
    assert ShiftedBase(1) == 60 * SECOND;
    assert ShiftedBase(2) == 120 * SECOND;
    assert ShiftedBase(3) == 240 * SECOND;
    assert ShiftedBase(4) == 480 * SECOND;
    forall r: nat | r >= 6
      ensures Delay(r) == BACKOFF_MAX
    {
      ShiftedBaseGrows(4, Min(r - 2, 16));
    }
  }

  /** The 64-bit shift of the source never wraps, however many resets there were. */
  lemma DelayFitsInt64(resets: nat)
    requires resets > 1
    ensures ShiftedBase(Min(resets - 2, 16)) < 0x8000_0000_0000_0000
  {
    ShiftedBaseGrows(Min(resets - 2, 16), 16);
    assert ShiftedBase(4) == 16 * BACKOFF_BASE;
    assert ShiftedBase(8) == 256 * BACKOFF_BASE;
    assert ShiftedBase(12) == 4096 * BACKOFF_BASE;
    assert ShiftedBase(16) == 65536 * BACKOFF_BASE;
  }

  /** The least time `k` further logins take after `base` resets. */
  function TotalDelay(base: nat, k: nat): (d: Time)
    ensures d >= 0
  {
    if k == 0 then 0 else TotalDelay(base, k - 1) + Delay(base + k)
  }

  lemma {:induction false} TotalDelayMonotone(base: nat, k: nat)
    ensures TotalDelay(0, k) <= TotalDelay(base, k)
  {
    if k > 0 {
      TotalDelayMonotone(base, k - 1);
      DelayMonotone(k, base + k);
    }
  }

  lemma TotalDelayOfFour()
    ensures TotalDelay(0, 4) == 210 * SECOND
  {
    hide Delay;
    DelayTable();
    assert TotalDelay(0, 4) == TotalDelay(0, 3) + Delay(4);
    assert TotalDelay(0, 3) == TotalDelay(0, 2) + Delay(3);
    assert TotalDelay(0, 2) == TotalDelay(0, 1) + Delay(2);
  }

  lemma {:induction false} TotalDelayLinear(k: nat)
    requires k >= 4
    ensures TotalDelay(0, k) >= (k - 4) * BACKOFF_MAX
  {
    hide Delay;
    DelayTable();
    if k > 4 {
      TotalDelayLinear(k - 1);
      if k == 5 {
        TotalDelayOfFour();
      }
    }
  }

  // ----- A stretch without a successful poll -----

  /** The logins of a stretch that began in `s0`. When it begins unconnected
      its first login is `free`: it owes no reset to the stretch. */
  function Free(s0: State): nat {
    if s0.token.None? then 1 else 0
  }

  function Counted(s0: State, s: State): int {
    |s.logins| - |s0.logins| - Free(s0)
  }

  /** The time from which login `i` was delayed. */
  function Anchor(w: World, s0: State, s: State, i: nat): Time
    requires |s0.logins| <= i <= |s.logins|
  {
    if i > |s0.logins| then s.logins[i - 1] else w(s0.pos).time
  }

  /** Each login of the stretch consumed one reset: their number determines
      `resets` exactly, and each waited for the delay of its reset. */
  ghost predicate Stretch(w: World, s0: State, s: State) {
    && Valid(w, s) && s0.pos <= s.pos
    && s0.logins <= s.logins
    && Counted(s0, s) >= -1
    && s.resets == s0.resets + Counted(s0, s) + (if s.token.Some? then 0 else 1)
    && (s.token.None? && Counted(s0, s) >= 0 ==>
          s.nextConnect >= Anchor(w, s0, s, |s.logins|) + Delay(s.resets))
    && Spaced(w, s0, s)
  }

  ghost predicate Spaced(w: World, s0: State, s: State)
    requires s0.logins <= s.logins
  {
    forall i :: |s0.logins| <= i < |s.logins| ==> SpacedAt(w, s0, s, i)
  }

  ghost predicate SpacedAt(w: World, s0: State, s: State, i: nat)
    requires |s0.logins| <= i < |s.logins|
  {
    && w(s0.pos).time <= s.logins[i] <= w(s.pos).time
    && (i - |s0.logins| >= Free(s0) ==>
          s.logins[i] >= Anchor(w, s0, s, i) + Delay(s0.resets + i + 1 - |s0.logins| - Free(s0)))
  }

  lemma StretchStarts(w: World, s0: State)
    requires IsClock(w) && Valid(w, s0)
    ensures Stretch(w, s0, s0)
  {
  }

  /** `SpacedAt` only looks at the login times up to its own and at how late it is. */
  lemma SpacedAtCarries(w: World, s0: State, s: State, s': State, i: nat)
    requires IsClock(w) && |s0.logins| <= i < |s.logins| && SpacedAt(w, s0, s, i)
    requires s.logins <= s'.logins && s.pos <= s'.pos
    ensures SpacedAt(w, s0, s', i)
  {
    hide Delay;
    assert s'.logins[i] == s.logins[i];
    assert Anchor(w, s0, s', i) == Anchor(w, s0, s, i);
  }

  lemma SpacedCarries(w: World, s0: State, s: State, s': State)
    requires IsClock(w) && s0.logins <= s.logins && Spaced(w, s0, s)
    requires s'.logins == s.logins && s.pos <= s'.pos
    ensures Spaced(w, s0, s')
  {
    hide SpacedAt;
    forall i | |s0.logins| <= i < |s'.logins|
      ensures SpacedAt(w, s0, s', i)
    {
      SpacedAtCarries(w, s0, s, s', i);
    }
  }

  lemma StretchObserve(w: World, s0: State, s: State)
    requires IsClock(w) && Stretch(w, s0, s)
    ensures Stretch(w, s0, s.Step(w(s.pos)))
  {
    StretchReply(w, s0, s, s.replies);
    assert s.Step(w(s.pos)) == s.Step(w(s.pos)).(replies := s.replies);
  }

  lemma StretchReply(w: World, s0: State, s: State, replies: seq<Reply>)
    requires IsClock(w) && Stretch(w, s0, s)
    ensures Stretch(w, s0, s.Step(w(s.pos)).(replies := replies))
  {
    hide Delay, Spaced;
    SpacedCarries(w, s0, s, s.Step(w(s.pos)).(replies := replies));
  }

  /** A connected client that drops its session pays one reset. */
  lemma StretchReset(w: World, s0: State, s: State)
    requires IsClock(w) && Stretch(w, s0, s) && s.token.Some?
    ensures Stretch(w, s0, ScheduleReconnect(w, CloseSession(s)))
    ensures Stretch(w, s0, CloseSession(ScheduleReconnect(w, s)))
  {
    var s' := ScheduleReconnect(w, CloseSession(s));
    assert s' == CloseSession(ScheduleReconnect(w, s));
    SpacedCarries(w, s0, s, s');
    assert |s.logins| > |s0.logins| ==> SpacedAt(w, s0, s, |s.logins| - 1);
  }

  lemma SpacedLogin(w: World, s0: State, s: State)
    requires IsClock(w) && Stretch(w, s0, s) && s.token.None? && s.nextConnect <= w(s.pos).time
    ensures s0.logins <= Connect(w, s).0.logins && Spaced(w, s0, Connect(w, s).0)
  {
    hide SpacedAt, Delay;
    var s1 := Connect(w, s).0;
    forall i | |s0.logins| <= i < |s1.logins|
      ensures SpacedAt(w, s0, s1, i)
    {
      if i < |s.logins| {
        SpacedAtCarries(w, s0, s, s1, i);
      } else {
        LastLoginSpaced(w, s0, s);
      }
    }
  }

  lemma LastLoginSpaced(w: World, s0: State, s: State)
    requires IsClock(w) && Stretch(w, s0, s) && s.token.None? && s.nextConnect <= w(s.pos).time
    ensures SpacedAt(w, s0, Connect(w, s).0, |s.logins|)
  {
    hide Delay, Spaced;
    assert Anchor(w, s0, Connect(w, s).0, |s.logins|) == Anchor(w, s0, s, |s.logins|) by {
      AnchorLate(w, s0, s);
    }
  }

  lemma AnchorLate(w: World, s0: State, s: State)
    requires |s0.logins| <= |s.logins|
    ensures Anchor(w, s0, Connect(w, s).0, |s.logins|) == Anchor(w, s0, s, |s.logins|)
  {
  }

  lemma StretchReconnect(w: World, s0: State, s: State)
    requires IsClock(w) && Stretch(w, s0, s) && s.token.None? && s.nextConnect <= w(s.pos).time
    ensures Stretch(w, s0, Reconnect(w, s).0)
  {
    hide Delay, Spaced;
    SpacedLogin(w, s0, s);
    var s1 := Connect(w, s).0;
    assert Counted(s0, s1) == Counted(s0, s) + 1;
    var s2 := ScheduleReconnect(w, s1);
    SpacedCarries(w, s0, s1, s2);
    assert Anchor(w, s0, s2, |s2.logins|) == w(s.pos).time;
  }

  lemma StretchConnectAfterBackoff(w: World, s0: State, s: State)
    requires IsClock(w) && Stretch(w, s0, s) && s.token.None?
    ensures Stretch(w, s0, ConnectAfterBackoff(w, s).0)
  {
    hide Stretch, Reconnect;
    var (s1, ready) := WaitForBackoff(w, s);
    StretchObserve(w, s0, s);
    if ready {
      StretchReconnect(w, s0, s1);
    }
  }

  lemma StretchReplace(w: World, s0: State, s: State)
    requires IsClock(w) && Stretch(w, s0, s) && s.token.Some?
    ensures Stretch(w, s0, ReplaceSession(w, s).0)
  {
    hide Stretch;
    StretchReset(w, s0, s);
    StretchConnectAfterBackoff(w, s0, ScheduleReconnect(w, CloseSession(s)));
  }

  lemma StretchEnsure(w: World, s0: State, s: State)
    requires IsClock(w) && Stretch(w, s0, s)
    ensures Stretch(w, s0, EnsureSession(w, s).0)
  {
    StretchObserve(w, s0, s);
    if s.token.Some? {
      var (s1, alive) := Ping(w, s);
      if !alive {
        StretchReplace(w, s0, s1);
      }
    } else {
      StretchConnectAfterBackoff(w, s0, s);
    }
  }

  lemma StretchRead(w: World, s0: State, s: State, addr: int)
    requires IsClock(w) && Stretch(w, s0, s)
    ensures Stretch(w, s0, ReadRegisterWithRetry(w, s, addr).0)
  {
    hide Stretch, ReplaceSession;
    var (s1, r) := ReadRegister(w, s, addr);
    StretchReply(w, s0, s, s1.replies);
    if r.TokenExpired? {
      StretchReplace(w, s0, s1);
      var (s2, ok) := ReplaceSession(w, s1);
      StretchReply(w, s0, s2, ReadRegister(w, s2, addr).0.replies);
    }
  }

  lemma StretchPoll(w: World, s0: State, s: State)
    requires IsClock(w) && Stretch(w, s0, s)
    ensures Stretch(w, s0, PollPowerData(w, s).0)
  {
    hide Stretch, EnsureSession, ReadRegisterWithRetry;
    StretchEnsure(w, s0, s);
    var (s1, ok) := EnsureSession(w, s);
    StretchRead(w, s0, s1, PV_POWER);
    var (s2, pv) := ReadRegisterWithRetry(w, s1, PV_POWER);
    StretchRead(w, s0, s2, GRID_POWER);
    var (s3, grid) := ReadRegisterWithRetry(w, s2, GRID_POWER);
    StretchRead(w, s0, s3, LOAD_POWER);
  }

  lemma StretchFailedPoll(w: World, s0: State, s: State)
    requires IsClock(w) && Stretch(w, s0, s) && GetPowerData(w, s).1.None?
    ensures Stretch(w, s0, GetPowerData(w, s).0)
  {
    hide PollPowerData;
    StretchPoll(w, s0, s);
    var s1 := PollPowerData(w, s).0;
    if s1.token.Some? && s1.failedPolls + 1 >= SESSION_RESET_AFTER {
      StretchReset(w, s0, s1);
    } else {
      SpacedCarries(w, s0, s1, GetPowerData(w, s).0);
    }
  }

  lemma {:induction false} StretchRun(w: World, run: seq<State>, good: seq<bool>, n: nat)
    requires IsClock(w) && IsRun(w, run, good) && Valid(w, run[0]) && n <= |good|
    requires forall i :: 0 <= i < n ==> !good[i]
    ensures Stretch(w, run[0], run[n])
  {
    hide Stretch, GetPowerData, IsClock;
    if n == 0 {
      StretchStarts(w, run[0]);
    } else {
      StretchRun(w, run, good, n - 1);
      assert IsPoll(w, run, good, n - 1);
      StretchFailedPoll(w, run[0], run[n - 1]);
    }
  }

  lemma {:induction false} SpacedFromStart(w: World, s0: State, s: State, k: nat)
    requires s0.logins <= s.logins && Spaced(w, s0, s)
    requires 1 <= k <= Counted(s0, s)
    ensures w(s0.pos).time + TotalDelay(s0.resets, k)
         <= s.logins[|s0.logins| + Free(s0) + k - 1] <= w(s.pos).time
  {
    hide Delay;
    var i := |s0.logins| + Free(s0) + k - 1;
    assert SpacedAt(w, s0, s, i) && (i > |s0.logins| ==> SpacedAt(w, s0, s, i - 1));
    assert s.logins[i] >= Anchor(w, s0, s, i) + Delay(s0.resets + k);
    assert TotalDelay(s0.resets, k) == TotalDelay(s0.resets, k - 1) + Delay(s0.resets + k);
    if k > 1 {
      SpacedFromStart(w, s0, s, k - 1);
    } else {
      assert Anchor(w, s0, s, i) >= w(s0.pos).time;
    }
  }

  /** In a run of failing polls the k-th login (after the free one of an
      unconnected start) comes no earlier than d(1) + ... + d(k) after its start. */
  lemma LoginLowerBound(w: World, run: seq<State>, good: seq<bool>, k: nat)
    requires IsClock(w) && IsRun(w, run, good) && Valid(w, run[0])
    requires true !in good
    requires 1 <= k <= Counted(run[0], run[|good|])
    ensures run[0].logins <= run[|good|].logins
    ensures w(run[0].pos).time + TotalDelay(0, k)
         <= run[|good|].logins[|run[0].logins| + Free(run[0]) + k - 1]
         <= w(run[|good|].pos).time
  {
    hide TotalDelay, Delay, IsClock, Valid;
    StretchRun(w, run, good, |good|);
    SpacedFromStart(w, run[0], run[|good|], k);
    TotalDelayMonotone(run[0].resets, k);
  }

  /** A run of failing polls that ends within `T` of its start holds at most
      4 + T / 5min logins, and one more when it starts without a session. */
  lemma LoginRateBound(w: World, run: seq<State>, good: seq<bool>, T: Time)
    requires IsClock(w) && IsRun(w, run, good) && Valid(w, run[0])
    requires true !in good
    requires 0 <= T && w(run[|good|].pos).time <= w(run[0].pos).time + T
    ensures |run[|good|].logins| - |run[0].logins| <= 4 + T / BACKOFF_MAX + Free(run[0])
  {
    hide TotalDelay;
    var k := Counted(run[0], run[|good|]);
    if k > 4 {
      LoginLowerBound(w, run, good, k);
      TotalDelayLinear(k);
      assert T >= (k - 4) * BACKOFF_MAX;
    }
  }
}
