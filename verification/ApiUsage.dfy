/** Tesla API usage accounting: the lazily reset monthly tracker of
    internal/tesla/tesla.go and the response accounting of internal/tesla/client.go. */
module ApiUsage {
  import opened Prelude

  datatype Counts = Counts(data: int, command: int, wake: int, stream: int)

  const Zero := Counts(0, 0, 0, 0)

  predicate Leq(a: Counts, b: Counts) {
    a.data <= b.data && a.command <= b.command && a.wake <= b.wake && a.stream <= b.stream
  }

  function MaxUsage(a: Counts, b: Counts): Counts {
    Counts(Max(a.data, b.data), Max(a.command, b.command), Max(a.wake, b.wake), Max(a.stream, b.stream))
  }

  /** The starts of the billing months, in order. */
  type Calendar = seq<Time>

  ghost predicate IsCalendar(cal: Calendar) {
    && (forall i :: 0 <= i < |cal| ==> cal[i] > 0)
    && (forall i, j :: 0 <= i < j < |cal| ==> cal[i] < cal[j])
  }

  /** The start of the billing month containing `t`; 0 before the first. */
  function Month(cal: Calendar, t: Time): Time {
    if cal == [] then 0
    else if cal[|cal| - 1] <= t then cal[|cal| - 1]
    else Month(cal[..|cal| - 1], t)
  }

  lemma {:induction false} MonthBounds(cal: Calendar, t: Time)
    requires IsCalendar(cal) && t >= 0
    ensures 0 <= Month(cal, t) <= t
    ensures cal != [] && cal[0] <= t ==> Month(cal, t) > 0
  {
    if cal != [] {
      MonthBounds(cal[..|cal| - 1], t);
    }
  }

  lemma {:induction false} MonthMonotone(cal: Calendar, s: Time, t: Time)
    requires IsCalendar(cal) && 0 <= s <= t
    ensures Month(cal, s) <= Month(cal, t)
  {
    if cal != [] {
      MonthMonotone(cal[..|cal| - 1], s, t);
      MonthAtMostLast(cal, s);
    }
  }

  lemma {:induction false} MonthAtMostLast(cal: Calendar, t: Time)
    requires IsCalendar(cal) && cal != [] && t >= 0
    ensures Month(cal, t) <= cal[|cal| - 1]
  {
    if |cal| > 1 {
      MonthAtMostLast(cal[..|cal| - 1], t);
    }
  }

  /** A month contains every time from its start to any time in it. */
  lemma {:induction false} MonthInterval(cal: Calendar, s: Time, t: Time)
    requires IsCalendar(cal) && 0 <= Month(cal, t) <= s <= t
    ensures Month(cal, s) == Month(cal, t)
  {
    if cal != [] {
      var init := cal[..|cal| - 1];
      if cal[|cal| - 1] > t {
        MonthInterval(init, s, t);
      }
    }
  }

  datatype Tracker = Tracker(counts: Counts, monthStart: Time)

  function ResetIfNewMonth(cal: Calendar, t: Tracker, now: Time): Tracker {
    if Month(cal, now) > t.monthStart then Tracker(Zero, Month(cal, now)) else t
  }

  datatype Path = VehicleData | CommandPath | WakeUp | Unbilled

  function CountOf(path: Path): Counts {
    match path
    case VehicleData => Counts(1, 0, 0, 0)
    case CommandPath => Counts(0, 1, 0, 0)
    case WakeUp => Counts(0, 0, 1, 0)
    case Unbilled => Zero
  }

  function Add(a: Counts, b: Counts): Counts {
    Counts(a.data + b.data, a.command + b.command, a.wake + b.wake, a.stream + b.stream)
  }

  function RecordBillableResponse(cal: Calendar, t: Tracker, path: Path, status: int, now: Time): Tracker {
    if status >= 500 || path == Unbilled then t
    else
      var t' := ResetIfNewMonth(cal, t, now);
      t'.(counts := Add(t'.counts, CountOf(path)))
  }

  function SetCounts(cal: Calendar, t: Tracker, counts: Counts, monthStart: Time, now: Time): Tracker {
    if monthStart == 0 || Month(cal, monthStart) < Month(cal, now) then t else Tracker(counts, Month(cal, now))
  }

  /** Counters restored from an earlier month, or from no month, change nothing; those of
      the current month are what the next snapshot shows. */
  lemma {:induction false} RestoreExactly(cal: Calendar, t: Tracker, counts: Counts, monthStart: Time, now: Time)
    requires t.monthStart <= Month(cal, now)
    ensures var shown := ResetIfNewMonth(cal, SetCounts(cal, t, counts, monthStart, now), now);
            shown == if monthStart != 0 && Month(cal, monthStart) >= Month(cal, now)
                     then Tracker(counts, Month(cal, now))
                     else ResetIfNewMonth(cal, t, now)
  {
    hide Month;
  }

  class APIUsageTracker {
    const cal: Calendar
    var dataCalls: int
    var commandCalls: int
    var wakeCalls: int
    var streamSignals: int
    var monthStart: Time

    ghost function Abs(): Tracker
      reads this
    {
      Tracker(Counts(dataCalls, commandCalls, wakeCalls, streamSignals), monthStart)
    }

    constructor (cal: Calendar, now: Time)
      ensures this.cal == cal && Abs() == Tracker(Zero, Month(cal, now))
    {
      this.cal := cal;
      dataCalls, commandCalls, wakeCalls, streamSignals := 0, 0, 0, 0;
      monthStart := Month(cal, now);
    }

    method ResetIfRolledOver(now: Time)
      modifies this
      ensures Abs() == ResetIfNewMonth(cal, old(Abs()), now)
    {
      if Month(cal, now) > monthStart {
        dataCalls, commandCalls, wakeCalls, streamSignals := 0, 0, 0, 0;
        monthStart := Month(cal, now);
      }
    }

    method RecordResponse(path: Path, status: int, now: Time)
      modifies this
      ensures Abs() == RecordBillableResponse(cal, old(Abs()), path, status, now)
    {
      hide ResetIfNewMonth;
      if status >= 500 {
        return;
      }
      match path {
        case VehicleData =>
          ResetIfRolledOver(now);
          dataCalls := dataCalls + 1;
        case CommandPath =>
          ResetIfRolledOver(now);
          commandCalls := commandCalls + 1;
        case WakeUp =>
          ResetIfRolledOver(now);
          wakeCalls := wakeCalls + 1;
        case Unbilled =>
      }
    }

    method Snapshot(now: Time) returns (s: Tracker)
      modifies this
      ensures Abs() == s == ResetIfNewMonth(cal, old(Abs()), now)
    {
      ResetIfRolledOver(now);
      s := Tracker(Counts(dataCalls, commandCalls, wakeCalls, streamSignals), monthStart);
    }

    method Restore(counts: Counts, monthStart': Time, now: Time)
      modifies this
      ensures Abs() == SetCounts(cal, old(Abs()), counts, monthStart', now)
    {
      if monthStart' == 0 || Month(cal, monthStart') < Month(cal, now) {
        return;
      }
      dataCalls, commandCalls, wakeCalls, streamSignals := counts.data, counts.command, counts.wake, counts.stream;
      monthStart := Month(cal, now);
    }
  }

  // ----- One API request -----

  /** A reply of the Fleet API: no reply at all is None. */
  datatype Exchange = Exchange(status: Option<int>, at: Time)

  datatype RequestResult = Succeeded | CarOffline | RequestFailed

  /** What happens to one request: whether the access token has expired, whether
      refreshing it works, and the replies to the request and to its retry. */
  datatype Script = Script(tokenExpired: bool, refreshOk: bool, first: Exchange, secondRefreshOk: bool, retry: Exchange)

  /** The responses the server actually sent, with their arrival times. */
  function Responses(s: Script): seq<(int, Time)> {
    if s.tokenExpired && !s.refreshOk then []
    else if s.first.status.None? then []
    else if s.first.status != Some(401) || !s.secondRefreshOk || s.retry.status.None? then
      [(s.first.status.value, s.first.at)]
    else [(s.first.status.value, s.first.at), (s.retry.status.value, s.retry.at)]
  }

  /** The caller learns the outcome of the last response; a 401 whose retry got
      no response is a failure. */
  function ResultOf(responses: seq<(int, Time)>): RequestResult {
    if responses == [] then RequestFailed
    else
      var status := responses[|responses| - 1].0;
      if status == 408 then CarOffline else if status >= 400 then RequestFailed else Succeeded
  }

  function RecordAll(cal: Calendar, t: Tracker, path: Path, responses: seq<(int, Time)>): Tracker {
    if responses == [] then t
    else
      var last := responses[|responses| - 1];
      RecordBillableResponse(cal, RecordAll(cal, t, path, responses[..|responses| - 1]), path, last.0, last.1)
  }

  /** The request with its one retry after 401: every response the server sends is
      accounted exactly once, whichever way the request ends. */
  method DoRequest(usage: APIUsageTracker, path: Path, s: Script) returns (r: RequestResult)
    modifies usage
    ensures usage.Abs() == RecordAll(usage.cal, old(usage.Abs()), path, Responses(s))
    ensures r == ResultOf(Responses(s))
  {
    hide RecordBillableResponse, RecordAll;
    ghost var before := usage.Abs();
    RecordFirst(usage.cal, before, path, s);
    if s.tokenExpired && !s.refreshOk {
      return RequestFailed;
    }
    var reply := s.first;
    if reply.status.None? {
      return RequestFailed;
    }
    if reply.status == Some(401) {
      usage.RecordResponse(path, 401, reply.at);
      if !s.secondRefreshOk {
        return RequestFailed;
      }
      reply := s.retry;
      if reply.status.None? {
        return RequestFailed;
      }
    }
    usage.RecordResponse(path, reply.status.value, reply.at);
    if reply.status.value == 408 {
      return CarOffline;
    }
    r := if reply.status.value >= 400 then RequestFailed else Succeeded;
  }

  /** When the server is asked, and what the caller learns: nothing without an access
      token; one retry, exactly after a 401 and a refresh that works; and the outcome of
      the last response, a missing one counting as a failure. */
  lemma {:induction false} ResponsesExactly(s: Script)
    ensures var r := Responses(s); var result := ResultOf(r);
            && (r == [] <==> (s.tokenExpired && !s.refreshOk) || s.first.status.None?)
            && (|r| >= 1 ==> Some(r[0].0) == s.first.status && r[0].1 == s.first.at)
            && (|r| >= 2 <==> !(s.tokenExpired && !s.refreshOk) && s.first.status == Some(401)
                              && s.secondRefreshOk && s.retry.status.Some?)
            && (|r| >= 2 ==> |r| == 2 && Some(r[1].0) == s.retry.status && r[1].1 == s.retry.at)
            && (result == Succeeded <==> r != [] && r[|r| - 1].0 < 400)
            && (result == CarOffline <==> r != [] && r[|r| - 1].0 == 408)
  {
  }

  lemma RecordFirst(cal: Calendar, t: Tracker, path: Path, s: Script)
    ensures Responses(s) == [] ==> RecordAll(cal, t, path, Responses(s)) == t
    ensures |Responses(s)| == 1 ==>
              RecordAll(cal, t, path, Responses(s)) ==
                RecordBillableResponse(cal, t, path, s.first.status.value, s.first.at)
    ensures |Responses(s)| == 2 ==>
              RecordAll(cal, t, path, Responses(s)) ==
                RecordBillableResponse(cal,
                  RecordBillableResponse(cal, t, path, 401, s.first.at), path, s.retry.status.value, s.retry.at)
  {
    hide RecordBillableResponse;
    RecordOne(cal, t, path, s.first.status.GetOr(0), s.first.at);
    if |Responses(s)| == 2 {
      RecordTwo(cal, t, path, (401, s.first.at), (s.retry.status.value, s.retry.at));
    }
  }

  lemma RecordOne(cal: Calendar, t: Tracker, path: Path, status: int, at: Time)
    ensures RecordAll(cal, t, path, [(status, at)]) == RecordBillableResponse(cal, t, path, status, at)
  {
    assert [(status, at)][..0] == [];
  }

  lemma RecordTwo(cal: Calendar, t: Tracker, path: Path, a: (int, Time), b: (int, Time))
    ensures RecordAll(cal, t, path, [a, b])
         == RecordBillableResponse(cal, RecordBillableResponse(cal, t, path, a.0, a.1), path, b.0, b.1)
  {
    hide RecordBillableResponse;
    assert [a, b][..1] == [a];
    RecordOne(cal, t, path, a.0, a.1);
  }
}
