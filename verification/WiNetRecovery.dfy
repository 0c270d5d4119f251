/** How the WiNet-S client recovers once the module answers again. */
module WiNetRecovery {
  import opened Prelude
  import opened WiNet
  import opened WiNetRate

  /** From observation `from` on the module answers and nobody else logs in. */
  ghost predicate Sound(w: World, from: nat) {
    forall i: nat :: i >= from ==> !w(i).faulty && w(i).foreignLogins == 0
  }

  /** The client holds the module's newest, hence only valid, session. */
  predicate Current(s: State) {
    s.token == Some(s.newest)
  }

  /** The client holds no session, or the valid one. */
  predicate Settled(s: State) {
    s.token.None? || Current(s)
  }

  /** A poll that starts now is not held back by the backoff. */
  predicate Eligible(w: World, s: State) {
    s.nextConnect <= w(s.pos).time
  }

  predicate Cleared(s: State) {
    s.failedPolls == 0 && s.resets == 0 && s.nextConnect == 0
  }

  // ----- Invariants of every reachable state -----

  lemma ValidInitially(w: World)
    requires IsClock(w)
    ensures Valid(w, Initial)
  {
    assert 0 <= w(0).time;
  }

  lemma ValidAfterStartupConnect(w: World)
    requires IsClock(w)
    ensures Valid(w, Connect(w, Initial).0)
  {
    assert 0 <= w(1).time;
  }

  lemma ValidAfterPoll(w: World, s: State)
    requires IsClock(w) && Valid(w, s)
    ensures Valid(w, GetPowerData(w, s).0)
    ensures GetPowerData(w, s).1.Some? ==> GetPowerData(w, s).0.token.Some?
    ensures s.pos <= GetPowerData(w, s).0.pos
  {
    hide EnsureSession, ReadRegisterWithRetry;
    StretchStarts(w, s);
    StretchPoll(w, s, s);
    PollKeepsToken(w, s);
    if GetPowerData(w, s).1.None? {
      StretchFailedPoll(w, s, s);
    }
  }

  lemma {:induction false} ValidAlways(w: World, run: seq<State>, good: seq<bool>, n: nat)
    requires IsClock(w) && IsRun(w, run, good) && Valid(w, run[0]) && n <= |good|
    ensures Valid(w, run[n]) && run[0].pos <= run[n].pos
  {
    hide Valid, GetPowerData, IsClock;
    if n > 0 {
      ValidAlways(w, run, good, n - 1);
      assert IsPoll(w, run, good, n - 1);
      ValidAfterPoll(w, run[n - 1]);
    }
  }

  lemma ReadKeepsToken(w: World, s: State, addr: int)
    ensures ReadRegisterWithRetry(w, s, addr).1.Some? ==> ReadRegisterWithRetry(w, s, addr).0.token.Some?
  {
    hide ReplaceSession;
    var (s1, r) := ReadRegister(w, s, addr);
    if r.TokenExpired? {
      var s2 := ReplaceSession(w, s1).0;
      assert ReadRegister(w, s2, addr).1.Reading? ==> s2.token.Some?;
    }
  }

  lemma PollKeepsToken(w: World, s: State)
    ensures PollPowerData(w, s).1.Some? ==> PollPowerData(w, s).0.token.Some?
  {
    hide EnsureSession, ReadRegisterWithRetry;
    var s0 := EnsureSession(w, s).0;
    var s1 := ReadRegisterWithRetry(w, s0, PV_POWER).0;
    var s2 := ReadRegisterWithRetry(w, s1, GRID_POWER).0;
    ReadKeepsToken(w, s2, LOAD_POWER);
  }

  // ----- One poll against a sound module -----

  /** The state after a sound module has served a read. */
  function Served(w: World, s: State, addr: int): State {
    s.(pos := s.pos + 1,
       replies := s.replies + [Reply(addr, Body(if w(s.pos).zeroCode then 0 else 1, Some(w(s.pos).value)))])
  }

  lemma SoundRead(w: World, s: State, addr: int)
    requires Sound(w, s.pos) && Current(s)
    ensures ReadRegisterWithRetry(w, s, addr) == (Served(w, s, addr), Some(w(s.pos).value))
  {
    assert !w(s.pos).faulty;
  }

  /** The values of the three registers, served one after the other from `pos` on. */
  function Serves(w: World, pos: nat): PowerData {
    PowerData(w(pos).value, w(pos + 1).value, w(pos + 2).value, Max(0, -w(pos + 1).value))
  }

  lemma SoundReads(w: World, s: State)
    requires Sound(w, s.pos) && EnsureSession(w, s).1 && Current(EnsureSession(w, s).0)
    requires s.pos <= EnsureSession(w, s).0.pos
    ensures var s0 := EnsureSession(w, s).0;
            PollPowerData(w, s) ==
              (Served(w, Served(w, Served(w, s0, PV_POWER), GRID_POWER), LOAD_POWER), Some(Serves(w, s0.pos)))
  {
    hide EnsureSession, ReadRegisterWithRetry;
    var s0 := EnsureSession(w, s).0;
    SoundRead(w, s0, PV_POWER);
    SoundRead(w, Served(w, s0, PV_POWER), GRID_POWER);
    SoundRead(w, Served(w, Served(w, s0, PV_POWER), GRID_POWER), LOAD_POWER);
  }

  lemma SoundConnect(w: World, s: State)
    requires IsClock(w) && Sound(w, s.pos) && Eligible(w, s)
    ensures var (s1, ok) := ConnectAfterBackoff(w, s);
            ok && Current(s1) && s1.logins == s.logins + [w(s.pos + 1).time] && s1.pos == s.pos + 2
  {
    assert !w(s.pos).faulty && !w(s.pos + 1).faulty;
  }

  /** Without a session a poll succeeds exactly when it is not held back, and
      otherwise changes nothing but the clock. */
  lemma PollUnconnected(w: World, s: State)
    requires IsClock(w) && Sound(w, s.pos) && Valid(w, s) && s.token.None?
    ensures GetPowerData(w, s).1.Some? <==> Eligible(w, s)
    ensures Eligible(w, s) ==>
              && Current(GetPowerData(w, s).0) && Cleared(GetPowerData(w, s).0)
              && |GetPowerData(w, s).0.logins| == |s.logins| + 1
    ensures !Eligible(w, s) ==> GetPowerData(w, s).0 == s.(pos := s.pos + 1)
  {
    if Eligible(w, s) {
      SoundConnect(w, s);
      SoundReads(w, s);
    } else {
      assert w(s.pos).foreignLogins == 0;
    }
  }

  lemma PollCurrent(w: World, s: State)
    requires IsClock(w) && Sound(w, s.pos) && Valid(w, s) && Current(s)
    ensures GetPowerData(w, s).1 == Some(Serves(w, s.pos + 1))
    ensures Current(GetPowerData(w, s).0) && Cleared(GetPowerData(w, s).0)
    ensures GetPowerData(w, s).0.logins == s.logins
  {
    assert !w(s.pos).faulty;
    assert EnsureSession(w, s) == (s.(pos := s.pos + 1), true);
    SoundReads(w, s);
  }

  /** A superseded session is replaced at once when it is the first reset since
      the last good poll; otherwise its client ends up settled. */
  lemma SoundReplace(w: World, s: State)
    requires IsClock(w) && Sound(w, s.pos) && s.token.Some?
    ensures var (s1, ok) := ReplaceSession(w, s);
            && (s.resets == 0 ==> ok)
            && s1.pos > s.pos
            && (ok ==> Current(s1) && |s1.logins| == |s.logins| + 1)
            && (!ok ==> s1.token.None? && s1.logins == s.logins)
  {
    DelayTable();
    var s1 := ScheduleReconnect(w, CloseSession(s));
    if Eligible(w, s1) {
      SoundConnect(w, s1);
    } else {
      assert w(s.pos + 1).foreignLogins == 0;
    }
  }

  lemma PollSuperseded(w: World, s: State)
    requires IsClock(w) && Sound(w, s.pos) && Valid(w, s) && s.token.Some? && !Current(s)
    ensures var (s1, data) := GetPowerData(w, s);
            && (s.resets == 0 ==> data.Some?)
            && (data.Some? ==> Current(s1) && Cleared(s1) && |s1.logins| == |s.logins| + 1)
            && (data.None? ==> s1.token.None? && s1.logins == s.logins)
  {
    assert !w(s.pos).faulty && w(s.pos).foreignLogins == 0;
    var (s1, alive) := Ping(w, s);
    assert s1 == s.(pos := s.pos + 1);
    if alive {
      SupersededRead(w, s1, PV_POWER);
      PollAfterFirstRead(w, s);
    } else {
      SoundReplace(w, s1);
      if EnsureSession(w, s).1 {
        SoundReads(w, s);
      }
    }
  }

  lemma SupersededRead(w: World, s: State, addr: int)
    requires IsClock(w) && Sound(w, s.pos) && s.token.Some? && !Current(s)
    ensures var (s1, watts) := ReadRegisterWithRetry(w, s, addr);
            && (s.resets == 0 ==> watts.Some?)
            && s1.pos > s.pos
            && (watts.Some? ==> Current(s1) && |s1.logins| == |s.logins| + 1)
            && (watts.None? ==> s1.token.None? && s1.logins == s.logins)
  {
    assert !w(s.pos).faulty && w(s.pos).foreignLogins == 0;
    var s1 := ReadRegister(w, s, addr).0;
    assert s1 == s.(pos := s.pos + 1, replies := s1.replies) && ReadRegister(w, s, addr).1.TokenExpired?;
    SoundReplace(w, s1);
    var (s2, ok) := ReplaceSession(w, s1);
    if ok {
      assert !w(s2.pos).faulty && w(s2.pos).foreignLogins == 0;
    }
  }

  /** Once the first register read has left a valid session, the rest of the poll succeeds. */
  lemma PollAfterFirstRead(w: World, s: State)
    requires Sound(w, s.pos) && EnsureSession(w, s).1 && s.pos <= EnsureSession(w, s).0.pos
    requires var (s1, watts) := ReadRegisterWithRetry(w, EnsureSession(w, s).0, PV_POWER);
             s1.pos > s.pos && (watts.Some? ==> Current(s1))
    ensures var (s1, watts) := ReadRegisterWithRetry(w, EnsureSession(w, s).0, PV_POWER);
            PollPowerData(w, s).1.Some? == watts.Some? &&
            PollPowerData(w, s).0 == if watts.Some? then Served(w, Served(w, s1, GRID_POWER), LOAD_POWER) else s1
  {
    hide EnsureSession, ReadRegisterWithRetry;
    var (s1, watts) := ReadRegisterWithRetry(w, EnsureSession(w, s).0, PV_POWER);
    if watts.Some? {
      SoundRead(w, s1, GRID_POWER);
      SoundRead(w, Served(w, s1, GRID_POWER), LOAD_POWER);
    }
  }

  // ----- Recovery over whole runs -----

  /** After at most one poll the client is settled, and stays so. */
  lemma SettledFromFirstPoll(w: World, run: seq<State>, good: seq<bool>, n: nat)
    requires IsClock(w) && IsRun(w, run, good) && Valid(w, run[0]) && Sound(w, run[0].pos)
    requires 1 <= n <= |good|
    ensures Settled(run[n])
  {
    hide GetPowerData, Valid, IsClock;
    ValidAlways(w, run, good, n - 1);
    assert IsPoll(w, run, good, n - 1);
    var p := run[n - 1];
    if p.token.Some? && !Current(p) {
      PollSuperseded(w, p);
    } else if p.token.None? {
      PollUnconnected(w, p);
    } else {
      PollCurrent(w, p);
    }
  }

  /** Once the module is sound, every poll after the first succeeds exactly when
      the backoff lets it start, and then clears the failure history. */
  lemma Recovery(w: World, run: seq<State>, good: seq<bool>, j: nat)
    requires IsClock(w) && IsRun(w, run, good) && Valid(w, run[0]) && Sound(w, run[0].pos)
    requires 1 <= j < |good|
    ensures good[j] <==> Eligible(w, run[j])
    ensures good[j] ==> Cleared(run[j + 1]) && Current(run[j + 1])
  {
    hide GetPowerData, IsClock;
    ValidAlways(w, run, good, j);
    SettledFromFirstPoll(w, run, good, j);
    assert IsPoll(w, run, good, j);
    if run[j].token.None? {
      PollUnconnected(w, run[j]);
    } else {
      PollCurrent(w, run[j]);
    }
  }

  /** At most one poll that starts at or after `nextConnect` fails. */
  lemma AtMostOneEligibleFailure(w: World, run: seq<State>, good: seq<bool>, i: nat, j: nat)
    requires IsClock(w) && IsRun(w, run, good) && Valid(w, run[0]) && Sound(w, run[0].pos)
    requires i < |good| && j < |good| && i != j
    requires Eligible(w, run[i]) && Eligible(w, run[j])
    ensures good[i] || good[j]
  {
    Recovery(w, run, good, if i > j then i else j);
  }

  /** A superseded client with a clean history recovers inside the poll that
      finds out, with exactly one login. */
  lemma SupersededRecoversInOnePoll(w: World, run: seq<State>, good: seq<bool>)
    requires IsClock(w) && IsRun(w, run, good) && Valid(w, run[0]) && Sound(w, run[0].pos)
    requires |good| >= 1 && run[0].token.Some? && !Current(run[0]) && run[0].resets == 0
    ensures good[0] && Cleared(run[1]) && |run[1].logins| == |run[0].logins| + 1
  {
    hide GetPowerData;
    assert IsPoll(w, run, good, 0);
    PollSuperseded(w, run[0]);
  }

  /** Whatever happened before, a poll that starts five minutes after the end of
      the first poll with the sound module succeeds. */
  lemma RecoveredWithinMaximumBackoff(w: World, run: seq<State>, good: seq<bool>, j: nat)
    requires IsClock(w) && IsRun(w, run, good) && Valid(w, run[0]) && Sound(w, run[0].pos)
    requires 1 <= j < |good|
    requires w(run[j].pos).time >= w(run[1].pos).time + BACKOFF_MAX
    ensures good[j]
  {
    NextConnectNeverMoves(w, run, good, j);
    Recovery(w, run, good, j);
  }

  lemma {:induction false} NextConnectNeverMoves(w: World, run: seq<State>, good: seq<bool>, j: nat)
    requires IsClock(w) && IsRun(w, run, good) && Valid(w, run[0]) && Sound(w, run[0].pos)
    requires 1 <= j <= |good|
    ensures run[j].nextConnect <= w(run[1].pos).time + BACKOFF_MAX
  {
    hide GetPowerData;
    ValidAlways(w, run, good, 1);
    if j > 1 {
      NextConnectNeverMoves(w, run, good, j - 1);
      ValidAlways(w, run, good, j - 1);
      SettledFromFirstPoll(w, run, good, j - 1);
      assert IsPoll(w, run, good, j - 1);
      if run[j - 1].token.None? {
        PollUnconnected(w, run[j - 1]);
      } else {
        PollCurrent(w, run[j - 1]);
      }
      assert 0 <= w(run[1].pos).time;
    }
  }

  /** A current client of a sound module reports the values of its next three reads. */
  lemma CurrentPollReports(w: World, s: State)
    requires IsClock(w) && Sound(w, s.pos) && Valid(w, s) && Current(s)
    ensures var data := GetPowerData(w, s).1;
            && data.Some?
            && data.value.pvWatts == w(s.pos + 1).value
            && data.value.gridWatts == w(s.pos + 2).value
            && data.value.loadWatts == w(s.pos + 3).value
  {
    hide GetPowerData;
    PollCurrent(w, s);
  }

  // ----- When a session is given up -----

  /** A reply that turns the session down. */
  predicate Rejects(answer: ReadReply) {
    || answer == HttpStatus(401)
    || (answer.Body? && (answer.code == 106 || answer.code == 120 || answer.code == 401))
  }

  ghost predicate NoneRejects(replies: seq<Reply>) {
    forall r :: r in replies ==> !Rejects(r.answer)
  }

  /** The socket is there and the module's answer to a ping does not end the session. */
  predicate PingHolds(w: World, s: State) {
    var answer := PingAnswer(w(s.pos), s.OnNewest(w(s.pos)));
    s.socket && answer != SocketDead && answer != PingResult(106) && answer != PingResult(401)
  }

  /** `s'` has no session, or one opened since `s`. */
  predicate Replaced(s: State, s': State) {
    s'.newest >= s.newest && (s'.token.None? || s.newest < s'.token.value <= s'.newest)
  }

  predicate Unchanged(s: State, s': State) {
    && s'.newest >= s.newest && s'.token == s.token && s'.socket == s.socket && s'.failedPolls == s.failedPolls
    && s'.resets == s.resets && s'.logins == s.logins
  }

  lemma ReplaceReplaces(w: World, s: State)
    ensures Replaced(s, ReplaceSession(w, s).0)
  {
  }

  lemma ReadGivesUpExactly(w: World, s: State, addr: int)
    ensures var s' := ReadRegisterWithRetry(w, s, addr).0;
            && s.replies <= s'.replies
            && if NoneRejects(Received(s, s')) then Unchanged(s, s') else s.token.Some? && Replaced(s, s')
  {
    hide ReplaceSession;
    var (s1, r) := ReadRegister(w, s, addr);
    var s' := ReadRegisterWithRetry(w, s, addr).0;
    assert s.token.Some? ==> s1.replies[|s.replies|] in s1.replies[|s.replies|..];
    if r.TokenExpired? {
      ReplaceReplaces(w, s1);
      SessionsKeepReplies(w, s1);
      assert s'.replies[|s.replies|] in Received(s, s');
    }
  }

  /** Replies received in two stretches. */
  lemma NoneRejectsTwice(s: State, s1: State, s2: State)
    requires s.replies <= s1.replies <= s2.replies
    ensures NoneRejects(Received(s, s2)) <==> NoneRejects(Received(s, s1)) && NoneRejects(Received(s1, s2))
  {
    assert Received(s, s2) == Received(s, s1) + Received(s1, s2);
  }

  lemma ReplacedLater(s: State, s1: State, s2: State)
    requires Replaced(s, s1) && s1.replies <= s2.replies
    requires if NoneRejects(Received(s1, s2)) then Unchanged(s1, s2) else Replaced(s1, s2)
    ensures Replaced(s, s2)
  {
  }

  lemma EnsureGivesUpExactly(w: World, s: State)
    requires s.token.Some? && s.token.value <= s.newest
    ensures var (s', ok) := EnsureSession(w, s);
            && s'.replies == s.replies
            && if PingHolds(w, s) then ok && Unchanged(s, s') else Replaced(s, s')
  {
    hide ReplaceSession;
    var (s1, alive) := Ping(w, s);
    ReplaceReplaces(w, s1);
    SessionsKeepReplies(w, s1);
  }

  lemma PollGivesUpExactly(w: World, s: State)
    requires s.token.Some? && s.token.value <= s.newest
    ensures var s' := PollPowerData(w, s).0;
            && s.replies <= s'.replies
            && if PingHolds(w, s) && NoneRejects(Received(s, s')) then Unchanged(s, s') else Replaced(s, s')
  {
    hide EnsureSession, ReadRegisterWithRetry, NoneRejects, Received, PingHolds;
    EnsureGivesUpExactly(w, s);
    var (s0, ok) := EnsureSession(w, s);
    NothingReceived(s, s0);
    if ok {
      ReadGivesUpExactly(w, s0, PV_POWER);
      var (s1, pv) := ReadRegisterWithRetry(w, s0, PV_POWER);
      NoneRejectsTwice(s, s0, s1);
      if pv.Some? {
        ReadGivesUpExactly(w, s1, GRID_POWER);
        var (s2, grid) := ReadRegisterWithRetry(w, s1, GRID_POWER);
        NoneRejectsTwice(s, s1, s2);
        if grid.Some? {
          ReadGivesUpExactly(w, s2, LOAD_POWER);
          NoneRejectsTwice(s, s2, ReadRegisterWithRetry(w, s2, LOAD_POWER).0);
        }
      }
    }
  }

  lemma NothingReceived(s: State, s': State)
    requires s'.replies == s.replies
    ensures NoneRejects(Received(s, s'))
  {
  }

  /** A connected client gives its session up exactly when the socket is gone, the ping
      or a register read turns it down, or the poll is the third in a row to fail with
      it; a session given up is never used again. */
  lemma {:induction false} SessionKeptExactly(w: World, s: State)
    requires Valid(w, s) && s.token.Some?
    ensures var (s', data) := GetPowerData(w, s);
            && (s'.token == s.token <==>
                  PingHolds(w, s) && NoneRejects(Received(s, s')) && (data.Some? || s.failedPolls < 2))
            && (s'.token == s.token ==> s'.failedPolls == if data.Some? then 0 else s.failedPolls + 1)
            && (s'.token.None? || s'.token == s.token || s'.token.value > s.newest)
  {
    hide PollPowerData, NoneRejects, PingHolds;
    PollGivesUpExactly(w, s);
  }
}
