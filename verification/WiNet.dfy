/** The WiNet-S session client of internal/inverter/sungrow.go.

    The module is an adversary: it answers the client's interactions from a
    `World`, one observation per clock reading or request. An observation that
    is not `faulty` is constrained to the behaviour of the live module, where
    the newest login is the only valid session. */
module WiNet {
  import opened Prelude

  const SESSION_RESET_AFTER := 3
  const BACKOFF_BASE: Time := 30 * SECOND
  const BACKOFF_MAX: Time := 5 * MINUTE

  datatype PingReply = Pong | PingResult(code: int) | SocketDead

  datatype ReadReply = Body(code: int, value: Option<int>) | HttpStatus(status: int) | TransportError

  /** The ways a module turns down the read of a superseded session. */
  datatype Rejection = Unauthorized | Code106 | Code120 | Code401

  /** `ping` and `read` are what a faulty module replies. A sound one serves `value`,
      under result code 0 or 1, or turns a read down by `rejection`. */
  datatype Observation = Observation(
    time: Time,
    foreignLogins: nat,   // logins by other clients since the last observation
    faulty: bool,
    ping: PingReply,
    loginAccepted: bool,
    read: ReadReply,
    value: int,
    zeroCode: bool,
    rejection: Rejection)

  type World = nat -> Observation

  ghost predicate IsClock(w: World) {
    forall i: nat, j: nat :: i <= j ==> 0 <= w(i).time <= w(j).time
  }

  datatype ReadResult = Reading(watts: int) | TokenExpired | ReadFailed

  /** Classification of a register reply: 401, 106 and 120 reject the session. */
  function Classify(reply: ReadReply): ReadResult {
    match reply
    case TransportError => ReadFailed
    case HttpStatus(status) => if status == 401 then TokenExpired else ReadFailed
    case Body(code, value) =>
      if code == 106 || code == 401 || code == 120 then TokenExpired
      else if code != 0 && code != 1 then ReadFailed
      else if value.None? then ReadFailed
      else Reading(value.value)
  }

  function PingAccepted(reply: PingReply): bool {
    match reply
    case Pong => true
    case PingResult(code) => code != 106 && code != 401
    case SocketDead => false
  }

  /** What the module answers: a sound module serves the newest session and
      rejects reads of a superseded one. */
  function PingAnswer(o: Observation, newest: bool): PingReply {
    if !o.faulty && newest then Pong else o.ping
  }

  function ReadAnswer(o: Observation, newest: bool): ReadReply {
    if o.faulty then o.read
    else if newest then Body(if o.zeroCode then 0 else 1, Some(o.value))
    else
      match o.rejection
      case Unauthorized => HttpStatus(401)
      case Code106 => Body(106, None)
      case Code120 => Body(120, None)
      case Code401 => Body(401, None)
  }

  function LoginAnswer(o: Observation): bool {
    !o.faulty || o.loginAccepted
  }

  /** The input registers the client reads, by address. */
  const PV_POWER := 5031
  const GRID_POWER := 5083
  const LOAD_POWER := 5091

  /** A reply to a register read, as history: the address read and the module's answer. */
  datatype Reply = Reply(addr: int, answer: ReadReply)

  /** The client's fields, followed by the module's side: the serial number of
      the newest login, the position in the world, the client's login times and
      the replies to its register reads. */
  datatype State = State(
    token: Option<nat>,
    socket: bool,
    failedPolls: nat,
    resets: nat,
    nextConnect: Time,
    newest: nat,
    pos: nat,
    logins: seq<Time>,
    replies: seq<Reply>)
  {
    predicate OnNewest(o: Observation) {
      token.Some? && token.value == newest + o.foreignLogins
    }

    function Step(o: Observation): State {
      this.(newest := newest + o.foreignLogins, pos := pos + 1)
    }
  }

  datatype PowerData = PowerData(pvWatts: int, gridWatts: int, loadWatts: int, surplusWatts: int)

  const Initial := State(None, false, 0, 0, 0, 0, 0, [], [])

  /** The delay before login number `resets` of a failing stretch. */
  function Delay(resets: nat): (d: Time)
    ensures 0 <= d <= BACKOFF_MAX
  {
    if resets > 1 then Min(ShiftedBase(Min(resets - 2, 16)), BACKOFF_MAX) else 0
  }

  function ShiftedBase(shift: nat): (d: Time)
    ensures d >= BACKOFF_BASE
  {
    if shift == 0 then BACKOFF_BASE else 2 * ShiftedBase(shift - 1)
  }

  function CloseSession(s: State): State {
    s.(token := None, socket := false)
  }

  function ScheduleReconnect(w: World, s: State): State {
    s.Step(w(s.pos)).(
      resets := s.resets + 1,
      failedPolls := 0,
      nextConnect := w(s.pos).time + Delay(s.resets + 1))
  }

  function WaitForBackoff(w: World, s: State): (State, bool) {
    (s.Step(w(s.pos)), s.nextConnect <= w(s.pos).time)
  }

  function Connect(w: World, s: State): (State, bool) {
    var o := w(s.pos);
    var closed := CloseSession(s).Step(o).(logins := s.logins + [o.time]);
    if LoginAnswer(o)
    then (closed.(newest := closed.newest + 1, token := Some(closed.newest + 1), socket := true), true)
    else (closed, false)
  }

  function Reconnect(w: World, s: State): (State, bool) {
    var (s1, ok) := Connect(w, s);
    if ok then (s1, true) else (ScheduleReconnect(w, s1), false)
  }

  function ConnectAfterBackoff(w: World, s: State): (State, bool) {
    var (s1, ready) := WaitForBackoff(w, s);
    if ready then Reconnect(w, s1) else (s1, false)
  }

  function ReplaceSession(w: World, s: State): (State, bool) {
    ConnectAfterBackoff(w, ScheduleReconnect(w, CloseSession(s)))
  }

  function Ping(w: World, s: State): (State, bool) {
    if !s.socket then (s, false)
    else (s.Step(w(s.pos)), PingAccepted(PingAnswer(w(s.pos), s.OnNewest(w(s.pos)))))
  }

  function EnsureSession(w: World, s: State): (State, bool) {
    if s.token.Some? then
      var (s1, alive) := Ping(w, s);
      if alive then (s1, true) else ReplaceSession(w, s1)
    else
      ConnectAfterBackoff(w, s)
  }

  function ReadRegister(w: World, s: State, addr: int): (State, ReadResult) {
    if s.token.None? then (s, ReadFailed)
    else
      var reply := ReadAnswer(w(s.pos), s.OnNewest(w(s.pos)));
      (s.Step(w(s.pos)).(replies := s.replies + [Reply(addr, reply)]), Classify(reply))
  }

  function Watts(r: ReadResult): Option<int> {
    if r.Reading? then Some(r.watts) else None
  }

  function ReadRegisterWithRetry(w: World, s: State, addr: int): (State, Option<int>) {
    var (s1, r) := ReadRegister(w, s, addr);
    if !r.TokenExpired? then (s1, Watts(r))
    else
      var (s2, ok) := ReplaceSession(w, s1);
      if !ok then (s2, None)
      else
        var (s3, again) := ReadRegister(w, s2, addr);
        (s3, Watts(again))
  }

  function PollPowerData(w: World, s: State): (State, Option<PowerData>) {
    var (s0, ok) := EnsureSession(w, s);
    if !ok then (s0, None) else
    var (s1, pv) := ReadRegisterWithRetry(w, s0, PV_POWER);
    if pv.None? then (s1, None) else
    var (s2, grid) := ReadRegisterWithRetry(w, s1, GRID_POWER);
    if grid.None? then (s2, None) else
    var (s3, load) := ReadRegisterWithRetry(w, s2, LOAD_POWER);
    if load.None? then (s3, None) else
    (s3, Some(PowerData(pv.value, grid.value, load.value, Max(0, -grid.value))))
  }

  function RecordPoll(w: World, s: State, ok: bool): State {
    if ok then s.(failedPolls := 0, resets := 0, nextConnect := 0)
    else if s.token.None? then s
    else if s.failedPolls + 1 < SESSION_RESET_AFTER then s.(failedPolls := s.failedPolls + 1)
    else CloseSession(ScheduleReconnect(w, s))
  }

  function GetPowerData(w: World, s: State): (State, Option<PowerData>) {
    var (s1, data) := PollPowerData(w, s);
    (RecordPoll(w, s1, data.Some?), data)
  }

  // ----- What a poll reports -----

  /** The reply carries a register's value: result code 0 or 1, and a value that parses. */
  predicate Accepted(answer: ReadReply) {
    answer.Body? && (answer.code == 0 || answer.code == 1) && answer.value.Some?
  }

  datatype Value = Value(addr: int, watts: int)

  /** The values among some replies, in order. */
  function Values(replies: seq<Reply>): seq<Value> {
    if replies == [] then []
    else
      var last := replies[|replies| - 1];
      Values(replies[..|replies| - 1])
        + (if Accepted(last.answer) then [Value(last.addr, last.answer.value.value)] else [])
  }

  lemma {:induction false} ValuesOfConcat(a: seq<Reply>, b: seq<Reply>)
    ensures Values(a + b) == Values(a) + Values(b)
  {
    if b == [] {
      assert a + b == a;
    } else {
      ValuesOfConcat(a, b[..|b| - 1]);
      assert (a + b)[..|a + b| - 1] == a + b[..|b| - 1];
    }
  }

  /** The replies that a step from `s` to `s'` received. */
  function Received(s: State, s': State): seq<Reply> {
    if s.replies <= s'.replies then s'.replies[|s.replies|..] else []
  }

  lemma SessionsKeepReplies(w: World, s: State)
    ensures ReplaceSession(w, s).0.replies == s.replies && EnsureSession(w, s).0.replies == s.replies
  {
  }

  lemma OneReply(addr: int, answer: ReadReply)
    ensures Values([Reply(addr, answer)]) == if Accepted(answer) then [Value(addr, answer.value.value)] else []
    ensures Values([]) == []
  {
    assert [Reply(addr, answer)][..0] == [];
  }

  /** A read with its retry returns the one value the module gave it, if any. */
  lemma ReadReportsReplies(w: World, s: State, addr: int)
    ensures var (s', watts) := ReadRegisterWithRetry(w, s, addr);
            && s.replies <= s'.replies
            && Values(Received(s, s')) == if watts.Some? then [Value(addr, watts.value)] else []
  {
    hide ReplaceSession, Values;
    var (s1, r) := ReadRegister(w, s, addr);
    var s' := ReadRegisterWithRetry(w, s, addr).0;
    var first := s1.replies[|s.replies|..];
    assert s.token.Some? ==> first == [Reply(addr, s1.replies[|s.replies|].answer)];
    OneReply(addr, if s.token.Some? then first[0].answer else TransportError);
    if r.TokenExpired? {
      SessionsKeepReplies(w, s1);
      var s2 := ReplaceSession(w, s1).0;
      var second := s'.replies[|s1.replies|..];
      assert second != [] ==> second == [Reply(addr, second[0].answer)];
      OneReply(addr, if second != [] then second[0].answer else TransportError);
      assert Received(s, s') == first + second;
      ValuesOfConcat(first, second);
      assert [] + Values(second) == Values(second);
    }
  }

  /** What a poll reports is what the module gave: it succeeds exactly when three values
      were accepted, those of the three registers in order, and the surplus is the
      power exported to the grid. */
  lemma {:induction false} PollReportsReplies(w: World, s: State)
    ensures var (s', data) := GetPowerData(w, s);
            var values := Values(Received(s, s'));
            && (data.Some? <==> |values| == 3)
            && (data.Some? ==>
                  && values == [Value(PV_POWER, data.value.pvWatts), Value(GRID_POWER, data.value.gridWatts),
                                Value(LOAD_POWER, data.value.loadWatts)]
                  && data.value.surplusWatts == if data.value.gridWatts < 0 then -data.value.gridWatts else 0)
  {
    hide EnsureSession, ReadRegisterWithRetry, Values, Received;
    SessionsKeepReplies(w, s);
    var (s0, ok) := EnsureSession(w, s);
    SameReplies(s, s0);
    if ok {
      var (s1, pv) := ReadRegisterWithRetry(w, s0, PV_POWER);
      ReadReportsReplies(w, s0, PV_POWER);
      ThenReceived(s, s0, s1);
      if pv.Some? {
        var (s2, grid) := ReadRegisterWithRetry(w, s1, GRID_POWER);
        ReadReportsReplies(w, s1, GRID_POWER);
        ThenReceived(s, s1, s2);
        if grid.Some? {
          ReadReportsReplies(w, s2, LOAD_POWER);
          ThenReceived(s, s2, ReadRegisterWithRetry(w, s2, LOAD_POWER).0);
        }
      }
    }
    RecordKeepsReplies(w, s);
  }

  lemma SameReplies(s: State, s': State)
    ensures s'.replies == s.replies ==> Values(Received(s, s')) == []
  {
  }

  lemma ThenReceived(s: State, s1: State, s2: State)
    requires s.replies <= s1.replies <= s2.replies
    ensures Values(Received(s, s2)) == Values(Received(s, s1)) + Values(Received(s1, s2))
  {
    assert Received(s, s2) == Received(s, s1) + Received(s1, s2);
    ValuesOfConcat(Received(s, s1), Received(s1, s2));
  }

  lemma RecordKeepsReplies(w: World, s: State)
    ensures GetPowerData(w, s).0.replies == PollPowerData(w, s).0.replies
    ensures Received(s, GetPowerData(w, s).0) == Received(s, PollPowerData(w, s).0)
  {
    hide PollPowerData;
  }

  /** The client object. `world`, `newest`, `pos`, `logins` and `replies` are the module
      and the history it is judged by; the other fields are the client's own. */
  class SungrowClient {
    const world: World
    var token: Option<nat>
    var wsConn: bool
    var failedPolls: nat
    var resets: nat
    var nextConnect: Time
    var newest: nat
    var pos: nat
    var logins: seq<Time>
    var replies: seq<Reply>

    ghost function Abs(): State
      reads this
    {
      State(token, wsConn, failedPolls, resets, nextConnect, newest, pos, logins, replies)
    }

    constructor (world: World)
      ensures this.world == world && Abs() == Initial
    {
      this.world := world;
      token, wsConn, failedPolls, resets, nextConnect := None, false, 0, 0, 0;
      newest, pos, logins, replies := 0, 0, [], [];
    }

    method Observe() returns (o: Observation)
      modifies this`pos, this`newest
      ensures o == world(old(pos))
      ensures Abs() == old(Abs()).Step(o)
    {
      o := world(pos);
      newest := newest + o.foreignLogins;
      pos := pos + 1;
    }

    method CloseSessionLocked()
      modifies this`token, this`wsConn
      ensures Abs() == CloseSession(old(Abs()))
    {
      token := None;
      wsConn := false;
    }

    method ScheduleReconnectLocked()
      modifies this
      ensures Abs() == ScheduleReconnect(world, old(Abs()))
    {
      resets := resets + 1;
      failedPolls := 0;
      var delay := 0;
      if resets > 1 {
        delay := ShiftedBase(Min(resets - 2, 16));
        delay := Min(delay, BACKOFF_MAX);
      }
      var o := Observe();
      nextConnect := o.time + delay;
    }

    method Wait() returns (ready: bool)
      modifies this
      ensures (Abs(), ready) == WaitForBackoff(world, old(Abs()))
    {
      var o := Observe();
      ready := nextConnect - o.time <= 0;
    }

    method ConnectModule() returns (ok: bool)
      modifies this
      ensures (Abs(), ok) == Connect(world, old(Abs()))
    {
      CloseSessionLocked();
      var o := Observe();
      logins := logins + [o.time];
      ok := LoginAnswer(o);
      if ok {
        newest := newest + 1;
        token := Some(newest);
        wsConn := true;
      }
    }

    method ReconnectModule() returns (ok: bool)
      modifies this
      ensures (Abs(), ok) == Reconnect(world, old(Abs()))
    {
      ok := ConnectModule();
      if !ok {
        ScheduleReconnectLocked();
      }
    }

    method Replace() returns (ok: bool)
      modifies this
      ensures (Abs(), ok) == ReplaceSession(world, old(Abs()))
    {
      CloseSessionLocked();
      ScheduleReconnectLocked();
      ok := Wait();
      if ok {
        ok := ReconnectModule();
      }
    }

    method SendPing() returns (alive: bool)
      modifies this
      ensures (Abs(), alive) == Ping(world, old(Abs()))
    {
      if !wsConn {
        return false;
      }
      var o := Observe();
      alive := PingAccepted(PingAnswer(o, token == Some(newest)));
    }

    method Ensure() returns (ok: bool)
      modifies this
      ensures (Abs(), ok) == EnsureSession(world, old(Abs()))
    {
      if token.Some? {
        ok := SendPing();
        if !ok {
          ok := Replace();
        }
      } else {
        ok := Wait();
        if ok {
          ok := ReconnectModule();
        }
      }
    }

    method ReadRegisterAt(addr: int) returns (r: ReadResult)
      modifies this
      ensures (Abs(), r) == ReadRegister(world, old(Abs()), addr)
    {
      if token.None? {
        return ReadFailed;
      }
      var o := Observe();
      var reply := ReadAnswer(o, token == Some(newest));
      replies := replies + [Reply(addr, reply)];
      r := Classify(reply);
    }

    method ReadWithRetry(addr: int) returns (watts: Option<int>)
      modifies this
      ensures (Abs(), watts) == ReadRegisterWithRetry(world, old(Abs()), addr)
    {
      var r := ReadRegisterAt(addr);
      if r.TokenExpired? {
        var ok := Replace();
        if !ok {
          return None;
        }
        r := ReadRegisterAt(addr);
      }
      watts := Watts(r);
    }

    method PollModule() returns (data: Option<PowerData>)
      modifies this
      ensures (Abs(), data) == PollPowerData(world, old(Abs()))
    {
      hide EnsureSession, ReadRegisterWithRetry;
      var ok := Ensure();
      if !ok {
        return None;
      }
      var pv := ReadWithRetry(PV_POWER);
      if pv.None? {
        return None;
      }
      var grid := ReadWithRetry(GRID_POWER);
      if grid.None? {
        return None;
      }
      var load := ReadWithRetry(LOAD_POWER);
      if load.None? {
        return None;
      }
      data := Some(PowerData(pv.value, grid.value, load.value, Max(0, -grid.value)));
    }

    method Record(ok: bool)
      modifies this
      ensures Abs() == RecordPoll(world, old(Abs()), ok)
    {
      if ok {
        failedPolls, resets, nextConnect := 0, 0, 0;
        return;
      }
      if token.None? {
        return;
      }
      failedPolls := failedPolls + 1;
      if failedPolls < SESSION_RESET_AFTER {
        return;
      }
      ScheduleReconnectLocked();
      CloseSessionLocked();
    }

    method Poll() returns (data: Option<PowerData>)
      modifies this
      ensures (Abs(), data) == GetPowerData(world, old(Abs()))
      ensures data.Some? ==> data.value.surplusWatts == if data.value.gridWatts < 0 then -data.value.gridWatts else 0
      ensures data.Some? ==>
                Values(Received(old(Abs()), Abs())) ==
                  [Value(PV_POWER, data.value.pvWatts), Value(GRID_POWER, data.value.gridWatts),
                   Value(LOAD_POWER, data.value.loadWatts)]
    {
      PollReportsReplies(world, Abs());
      hide Values, Received;
      data := PollModule();
      Record(data.Some?);
    }
  }
}
