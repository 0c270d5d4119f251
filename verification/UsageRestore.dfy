/** Usage counters across restarts: what is persisted every minute, restored by
    internal/controller/apiusage.go, and how it relates to the calls made. */
module UsageRestore {
  import opened Prelude
  import opened ApiUsage

  /** A persisted snapshot: its timestamp is the minute it was averaged for. */
  datatype Row = Row(at: Time, counts: Counts)

  /** What happens to the process: a response arrives, a minute's snapshot is
      flushed at `at`, or the process crashes and restores its counters. */
  datatype Event =
    | Response(at: Time, path: Path, status: int)
    | Flush(at: Time, minute: Time)
    | Restart(at: Time)

  datatype World = World(tracker: Tracker, rows: seq<Row>)

  function InRange(rows: seq<Row>, from: Time, to: Time): seq<Row> {
    if rows == [] then []
    else
      var last := rows[|rows| - 1];
      InRange(rows[..|rows| - 1], from, to) + (if from <= last.at <= to then [last] else [])
  }

  function PeakOf(rows: seq<Row>): Counts {
    if rows == [] then Zero else MaxUsage(PeakOf(rows[..|rows| - 1]), rows[|rows| - 1].counts)
  }

  /** The loop of LoadAPIUsage over the month's snapshots. */
  method LoadPeak(rows: seq<Row>) returns (peak: Counts)
    ensures peak == PeakOf(rows)
  {
    peak := Zero;
    for i := 0 to |rows|
      invariant peak == PeakOf(rows[..i])
    {
      assert rows[..i + 1][..i] == rows[..i];
      peak := MaxUsage(peak, rows[i].counts);
    }
    assert rows[..|rows|] == rows;
  }

  /** LoadAPIUsage without a baseline. */
  function LoadAPIUsage(cal: Calendar, rows: seq<Row>, now: Time): Option<Counts> {
    var found := InRange(rows, Month(cal, now), now);
    if found == [] then None else Some(PeakOf(found))
  }

  function Step(cal: Calendar, w: World, e: Event): World {
    match e
    case Response(at, path, status) =>
      w.(tracker := RecordBillableResponse(cal, w.tracker, path, status, at))
    case Flush(at, minute) =>
      var t := ResetIfNewMonth(cal, w.tracker, at);
      World(t, if t.monthStart == 0 then w.rows else w.rows + [Row(minute, t.counts)])
    case Restart(at) =>
      var zeroed := Tracker(Zero, Month(cal, at));
      var loaded := LoadAPIUsage(cal, w.rows, at);
      w.(tracker := if loaded.None? then zeroed else SetCounts(cal, zeroed, loaded.value, Month(cal, at), at))
  }

  /** The state after the first `n` events of a process started at `start`. */
  function After(cal: Calendar, start: Time, events: seq<Event>, n: nat): World
    requires n <= |events|
  {
    if n == 0 then World(Tracker(Zero, Month(cal, start)), [])
    else Step(cal, After(cal, start, events, n - 1), events[n - 1])
  }

  /** The process runs within the calendar, and its clock never runs backwards. */
  ghost predicate Ordered(cal: Calendar, start: Time, events: seq<Event>) {
    && IsCalendar(cal) && cal != [] && cal[0] <= start
    && (forall i :: 0 <= i < |events| ==>
          start <= events[i].at && (events[i].Flush? ==> 0 <= events[i].minute <= events[i].at))
    && (forall i, j :: 0 <= i < j < |events| ==> events[i].at <= events[j].at)
  }

  // ----- The reference: counting calls -----

  function CallCount(cal: Calendar, e: Event, m: Time): Counts {
    if e.Response? && e.status < 500 && Month(cal, e.at) == m then CountOf(e.path) else Zero
  }

  /** The calls of month `m` that happened. */
  function TrueCount(cal: Calendar, events: seq<Event>, n: nat, m: Time): Counts
    requires n <= |events|
  {
    if n == 0 then Zero else Add(TrueCount(cal, events, n - 1, m), CallCount(cal, events[n - 1], m))
  }

  /** The responses below status 500 on `path` in month `m`, counted one by one. */
  function Responses(cal: Calendar, events: seq<Event>, n: nat, m: Time, path: Path): nat
    requires n <= |events|
  {
    if n == 0 then 0
    else
      var e := events[n - 1];
      Responses(cal, events, n - 1, m, path)
        + (if e.Response? && e.path == path && e.status < 500 && Month(cal, e.at) == m then 1 else 0)
  }

  /** Each counter counts the responses on its own path: vehicle data, commands and
      wake-ups; stream signals are never counted. */
  lemma {:induction false} TrueCountByPath(cal: Calendar, events: seq<Event>, n: nat, m: Time)
    requires n <= |events|
    ensures TrueCount(cal, events, n, m) ==
              Counts(Responses(cal, events, n, m, VehicleData), Responses(cal, events, n, m, CommandPath),
                     Responses(cal, events, n, m, WakeUp), 0)
  {
    if n > 0 {
      hide Month;
      TrueCountByPath(cal, events, n - 1, m);
    }
  }

  /** One more than the index of the last flush among the first `n` events that
      is stamped in month `m`; 0 if there is none. */
  function LastFlush(cal: Calendar, events: seq<Event>, n: nat, m: Time): (f: nat)
    requires n <= |events|
    ensures f <= n
  {
    if n == 0 then 0
    else if events[n - 1].Flush? && Month(cal, events[n - 1].minute) == m then n
    else LastFlush(cal, events, n - 1, m)
  }

  /** The calls of month `m` that are still known: a crash forgets those since the
      last snapshot of that month. */
  function Accounted(cal: Calendar, events: seq<Event>, n: nat, m: Time): Counts
    requires n <= |events|
  {
    if n == 0 then Zero
    else if events[n - 1].Restart? then
      var f := LastFlush(cal, events, n - 1, m);
      if f == 0 then Zero else Accounted(cal, events, f - 1, m)
    else Add(Accounted(cal, events, n - 1, m), CallCount(cal, events[n - 1], m))
  }

  lemma AccountedUnfolds(cal: Calendar, events: seq<Event>, n: nat, m: Time)
    requires 0 < n <= |events|
    ensures Accounted(cal, events, n, m) ==
              if events[n - 1].Restart? then
                var f := LastFlush(cal, events, n - 1, m);
                if f == 0 then Zero else Accounted(cal, events, f - 1, m)
              else Add(Accounted(cal, events, n - 1, m), CallCount(cal, events[n - 1], m))
  {
    hide LastFlush, CallCount;
  }

  /** Crashes only ever lose calls. */
  lemma {:induction false} AccountedAtMostTrue(cal: Calendar, events: seq<Event>, n: nat, m: Time)
    requires n <= |events|
    ensures Leq(Accounted(cal, events, n, m), TrueCount(cal, events, n, m))
    decreases n
  {
    if n > 0 {
      if events[n - 1].Restart? {
        var f := LastFlush(cal, events, n - 1, m);
        if f > 0 {
          AccountedAtMostTrue(cal, events, f - 1, m);
          TrueCountGrows(cal, events, f - 1, n, m);
        } else {
          TrueCountGrows(cal, events, 0, n, m);
        }
      } else {
        AccountedAtMostTrue(cal, events, n - 1, m);
      }
    }
  }

  lemma {:induction false} TrueCountGrows(cal: Calendar, events: seq<Event>, i: nat, n: nat, m: Time)
    requires i <= n <= |events|
    ensures Leq(TrueCount(cal, events, i, m), TrueCount(cal, events, n, m))
  {
    if i < n {
      TrueCountGrows(cal, events, i, n - 1, m);
    }
  }

  lemma {:induction false} LastFlushAtLeast(cal: Calendar, events: seq<Event>, f: nat, n: nat, m: Time)
    requires f < n <= |events| && events[f].Flush? && Month(cal, events[f].minute) == m
    ensures var g := LastFlush(cal, events, n, m);
            g > f && events[g - 1].Flush? && Month(cal, events[g - 1].minute) == m
  {
    if n > f + 1 && !(events[n - 1].Flush? && Month(cal, events[n - 1].minute) == m) {
      LastFlushAtLeast(cal, events, f, n - 1, m);
    }
  }

  lemma {:induction false} LastFlushIsFlush(cal: Calendar, events: seq<Event>, n: nat, m: Time)
    requires n <= |events|
    ensures var g := LastFlush(cal, events, n, m);
            g > 0 ==> events[g - 1].Flush? && Month(cal, events[g - 1].minute) == m
  {
    if n > 0 && !(events[n - 1].Flush? && Month(cal, events[n - 1].minute) == m) {
      LastFlushIsFlush(cal, events, n - 1, m);
    }
  }

  /** Nothing known at a snapshot of the month is forgotten later in it. */
  lemma {:induction false} AccountedGrows(cal: Calendar, events: seq<Event>, f: nat, n: nat, m: Time)
    requires f < n <= |events| && events[f].Flush? && Month(cal, events[f].minute) == m
    ensures Leq(Accounted(cal, events, f, m), Accounted(cal, events, n, m))
    decreases n
  {
    if n > f + 1 {
      hide LastFlush, CallCount;
      if events[n - 1].Restart? {
        LastFlushAtLeast(cal, events, f, n - 1, m);
        var g := LastFlush(cal, events, n - 1, m);
        if g - 1 > f {
          AccountedGrows(cal, events, f, g - 1, m);
        }
      } else {
        AccountedGrows(cal, events, f, n - 1, m);
        CallCountNonNegative(cal, events[n - 1], m);
      }
    }
  }

  lemma CallCountNonNegative(cal: Calendar, e: Event, m: Time)
    ensures Leq(Zero, CallCount(cal, e, m))
  {
  }

  lemma {:induction false} AccountedNonNegative(cal: Calendar, events: seq<Event>, n: nat, m: Time)
    requires n <= |events|
    ensures Leq(Zero, Accounted(cal, events, n, m))
    decreases n
  {
    if n > 0 {
      if events[n - 1].Restart? {
        var f := LastFlush(cal, events, n - 1, m);
        if f > 0 {
          AccountedNonNegative(cal, events, f - 1, m);
        }
      } else {
        AccountedNonNegative(cal, events, n - 1, m);
      }
    }
  }

  /** The first `n` events count no call in a month after `m`. */
  predicate NoneAfter(cal: Calendar, events: seq<Event>, n: nat, m: Time)
    requires n <= |events|
  {
    n == 0 || (NoneAfter(cal, events, n - 1, m) && !CountsAfter(cal, events[n - 1], m))
  }

  predicate CountsAfter(cal: Calendar, e: Event, m: Time) {
    e.Response? && e.status < 500 && e.path != Unbilled && Month(cal, e.at) > m
  }

  lemma {:induction false} NoneAfterLater(cal: Calendar, events: seq<Event>, n: nat, m: Time, m': Time)
    requires n <= |events| && m <= m' && NoneAfter(cal, events, n, m)
    ensures NoneAfter(cal, events, n, m')
  {
    if n > 0 {
      NoneAfterLater(cal, events, n - 1, m, m');
    }
  }

  lemma {:induction false} NoneAfterPrefix(cal: Calendar, events: seq<Event>, i: nat, n: nat, m: Time)
    requires i <= n <= |events| && NoneAfter(cal, events, n, m)
    ensures NoneAfter(cal, events, i, m)
  {
    if i < n {
      NoneAfterPrefix(cal, events, i, n - 1, m);
    }
  }

  lemma NothingYet(cal: Calendar, events: seq<Event>, m: Time)
    ensures Accounted(cal, events, 0, m) == Zero && NoneAfter(cal, events, 0, m)
  {
  }

  lemma {:induction false} NothingInFuture(cal: Calendar, events: seq<Event>, n: nat, m: Time, later: Time)
    requires n <= |events| && NoneAfter(cal, events, n, m) && m < later
    ensures Accounted(cal, events, n, later) == Zero
    decreases n
  {
    hide Month, LastFlush, Accounted, NoneAfter, CallCount;
    if n == 0 {
      NothingYet(cal, events, later);
    } else {
      AccountedUnfolds(cal, events, n, later);
      NotCountedLater(cal, events, n, m, later);
      forall i: nat | i < n
        ensures Accounted(cal, events, i, later) == Zero
      {
        NoneAfterPrefix(cal, events, i, n, m);
        NothingInFuture(cal, events, i, m, later);
      }
    }
  }

  lemma NotCountedLater(cal: Calendar, events: seq<Event>, n: nat, m: Time, later: Time)
    requires 0 < n <= |events| && NoneAfter(cal, events, n, m) && m < later
    ensures CallCount(cal, events[n - 1], later) == Zero
  {
    hide Month;
  }

  // ----- Facts about calendars -----

  lemma MonthOfMonth(cal: Calendar, t: Time)
    requires IsCalendar(cal) && t >= 0
    ensures Month(cal, Month(cal, t)) == Month(cal, t) <= t
  {
    MonthBounds(cal, t);
    MonthInterval(cal, Month(cal, t), t);
  }

  lemma SameMonthBetween(cal: Calendar, s: Time, t: Time, u: Time)
    requires IsCalendar(cal) && 0 <= s <= t <= u && Month(cal, s) == Month(cal, u)
    ensures Month(cal, t) == Month(cal, u)
  {
    MonthMonotone(cal, s, t);
    MonthMonotone(cal, t, u);
  }

  // ----- The counters equal the reference -----

  function LastTime(start: Time, events: seq<Event>, n: nat): Time
    requires n <= |events|
  {
    if n == 0 then start else events[n - 1].at
  }

  /** The tracker holds the known calls of its month, which has begun, and no
      call was counted in a later one. */
  ghost predicate TrackerKept(cal: Calendar, start: Time, events: seq<Event>, n: nat, t: Tracker)
    requires n <= |events|
  {
    && t.counts == Accounted(cal, events, n, t.monthStart)
    && 0 < t.monthStart <= Month(cal, LastTime(start, events, n))
    && NoneAfter(cal, events, n, t.monthStart)
  }

  /** Read at `now`, the counters are the known calls of its month. */
  lemma SnapshotOfKept(cal: Calendar, start: Time, events: seq<Event>, n: nat, t: Tracker, now: Time)
    requires Ordered(cal, start, events) && n <= |events| && TrackerKept(cal, start, events, n, t)
    requires now >= LastTime(start, events, n)
    ensures ResetIfNewMonth(cal, t, now) == Tracker(Accounted(cal, events, n, Month(cal, now)), Month(cal, now))
    ensures 0 < Month(cal, now)
  {
    hide Month, Accounted, NoneAfter;
    MonthMonotone(cal, LastTime(start, events, n), now);
    if Month(cal, now) > t.monthStart {
      NothingInFuture(cal, events, n, t.monthStart, Month(cal, now));
    }
  }

  /** What LoadAPIUsage finds at time `at` among `rows`, the snapshots of the first
      `k` events: the month's last snapshot, which is also its maximum. */
  ghost predicate FindsLast(cal: Calendar, events: seq<Event>, k: nat, rows: seq<Row>, at: Time)
    requires k <= |events|
  {
    var m := Month(cal, at);
    var found := InRange(rows, m, at);
    var f := LastFlush(cal, events, k, m);
    && (found == [] <==> f == 0)
    && PeakOf(found) == if f == 0 then Zero else Accounted(cal, events, f - 1, m)
  }

  lemma {:induction false} PeakIsLastPersisted(cal: Calendar, start: Time, events: seq<Event>, k: nat, at: Time)
    requires Ordered(cal, start, events) && k <= |events| && LastTime(start, events, k) <= at
    ensures FindsLast(cal, events, k, After(cal, start, events, k).rows, at)
    decreases k, 0
  {
    hide Month, Accounted, InRange, PeakOf, Step, After, LastFlush, FindsLast;
    if k == 0 {
      NothingPersisted(cal, start, events, at);
    } else {
      assert LastTime(start, events, k - 1) <= LastTime(start, events, k);
      PeakIsLastPersisted(cal, start, events, k - 1, at);
      if events[k - 1].Flush? {
        FlushAppends(cal, start, events, k - 1);
        FlushFound(cal, start, events, k - 1, After(cal, start, events, k - 1).rows, at);
      } else {
        OthersKeepRows(cal, start, events, k, Month(cal, at));
        SameFind(cal, events, k, After(cal, start, events, k - 1).rows, at);
      }
    }
  }

  lemma SameFind(cal: Calendar, events: seq<Event>, k: nat, rows: seq<Row>, at: Time)
    requires 0 < k <= |events| && FindsLast(cal, events, k - 1, rows, at)
    requires LastFlush(cal, events, k, Month(cal, at)) == LastFlush(cal, events, k - 1, Month(cal, at))
    ensures FindsLast(cal, events, k, rows, at)
  {
    hide Month, Accounted, InRange, PeakOf, LastFlush;
  }

  lemma NothingPersisted(cal: Calendar, start: Time, events: seq<Event>, at: Time)
    ensures FindsLast(cal, events, 0, After(cal, start, events, 0).rows, at)
  {
    hide Month;
  }

  lemma OthersKeepRows(cal: Calendar, start: Time, events: seq<Event>, k: nat, m: Time)
    requires 0 < k <= |events| && !events[k - 1].Flush?
    ensures After(cal, start, events, k).rows == After(cal, start, events, k - 1).rows
    ensures LastFlush(cal, events, k, m) == LastFlush(cal, events, k - 1, m)
  {
    hide Month, LoadAPIUsage, RecordBillableResponse;
  }

  /** The row a flush appends: what is known, then, of the month it is taken in. */
  lemma FlushAppends(cal: Calendar, start: Time, events: seq<Event>, f: nat)
    requires Ordered(cal, start, events) && f < |events| && events[f].Flush?
    ensures After(cal, start, events, f + 1).rows ==
              After(cal, start, events, f).rows
                + [Row(events[f].minute, Accounted(cal, events, f, Month(cal, events[f].at)))]
    decreases f, 2
  {
    hide Month, Accounted, TrackerKept;
    TrackerIsKept(cal, start, events, f);
    assert LastTime(start, events, f) <= events[f].at;
    SnapshotOfKept(cal, start, events, f, After(cal, start, events, f).tracker, events[f].at);
  }

  /** One flush later: its row is the month's new last and maximum, or out of range. */
  lemma FlushFound(cal: Calendar, start: Time, events: seq<Event>, f: nat, rows: seq<Row>, at: Time)
    requires Ordered(cal, start, events) && f < |events| && events[f].Flush? && events[f].at <= at
    requires FindsLast(cal, events, f, rows, at)
    ensures var row := Row(events[f].minute, Accounted(cal, events, f, Month(cal, events[f].at)));
            FindsLast(cal, events, f + 1, rows + [row], at)
  {
    hide Month, Accounted, FindsLast;
    if Month(cal, events[f].minute) == Month(cal, at) {
      SameMonthBetween(cal, events[f].minute, events[f].at, at);
      FlushInMonth(cal, events, f, rows, at);
    } else {
      var row := Row(events[f].minute, Accounted(cal, events, f, Month(cal, events[f].at)));
      FlushElsewhere(cal, events, f, rows, row, at);
    }
  }

  lemma FlushInMonth(cal: Calendar, events: seq<Event>, f: nat, rows: seq<Row>, at: Time)
    requires IsCalendar(cal) && f < |events| && events[f].Flush? && 0 <= events[f].minute <= at
    requires Month(cal, events[f].minute) == Month(cal, at)
    requires FindsLast(cal, events, f, rows, at)
    ensures FindsLast(cal, events, f + 1, rows + [Row(events[f].minute, Accounted(cal, events, f, Month(cal, at)))], at)
  {
    hide Month, Accounted, InRange, PeakOf;
    var m := Month(cal, at);
    var row := Row(events[f].minute, Accounted(cal, events, f, m));
    MonthOfMonth(cal, events[f].minute);
    InRangeAppend(rows, row, m, at);
    PeakAppend(InRange(rows, m, at), row);
    assert LastFlush(cal, events, f + 1, m) == f + 1;
    var g := LastFlush(cal, events, f, m);
    if g == 0 {
      AccountedNonNegative(cal, events, f, m);
    } else {
      LastFlushIsFlush(cal, events, f, m);
      AccountedGrows(cal, events, g - 1, f, m);
    }
  }

  lemma FlushElsewhere(cal: Calendar, events: seq<Event>, f: nat, rows: seq<Row>, row: Row, at: Time)
    requires IsCalendar(cal) && f < |events| && events[f].Flush? && 0 <= events[f].minute == row.at <= at
    requires Month(cal, events[f].minute) != Month(cal, at)
    requires FindsLast(cal, events, f, rows, at)
    ensures FindsLast(cal, events, f + 1, rows + [row], at)
  {
    hide Month, Accounted, InRange, PeakOf;
    var m := Month(cal, at);
    MonthOfMonth(cal, at);
    MonthBounds(cal, at);
    if m <= row.at {
      SameMonthBetween(cal, m, row.at, at);
    }
    InRangeAppend(rows, row, m, at);
    assert LastFlush(cal, events, f + 1, m) == LastFlush(cal, events, f, m);
  }

  lemma InRangeAppend(rows: seq<Row>, row: Row, from: Time, to: Time)
    ensures InRange(rows + [row], from, to) == InRange(rows, from, to) + (if from <= row.at <= to then [row] else [])
    ensures !(from <= row.at <= to) ==> InRange(rows + [row], from, to) == InRange(rows, from, to)
  {
    assert (rows + [row])[..|rows|] == rows;
    assert InRange(rows, from, to) + [] == InRange(rows, from, to);
  }

  lemma PeakAppend(rows: seq<Row>, row: Row)
    ensures PeakOf(rows + [row]) == MaxUsage(PeakOf(rows), row.counts)
  {
    assert (rows + [row])[..|rows|] == rows;
  }

  lemma {:induction false} TrackerIsKept(cal: Calendar, start: Time, events: seq<Event>, n: nat)
    requires Ordered(cal, start, events) && n <= |events|
    ensures TrackerKept(cal, start, events, n, After(cal, start, events, n).tracker)
    decreases n, 1
  {
    hide Month, LastFlush, Accounted, Step, InRange, PeakOf, FindsLast;
    WithinCalendar(cal, start);
    if n > 0 {
      hide TrackerKept;
      var e := events[n - 1];
      var w := After(cal, start, events, n - 1);
      TrackerIsKept(cal, start, events, n - 1);
      assert LastTime(start, events, n - 1) <= e.at;
      MonthMonotone(cal, LastTime(start, events, n - 1), e.at);
      if e.Restart? {
        PeakIsLastPersisted(cal, start, events, n - 1, e.at);
        RestartKeeps(cal, start, events, n, w);
      } else {
        SnapshotOfKept(cal, start, events, n - 1, w.tracker, e.at);
        KeptStep(cal, start, events, n, w);
      }
    } else {
      assert Accounted(cal, events, 0, Month(cal, start)) == Zero by { NothingYet(cal, events, Month(cal, start)); }
    }
  }

  lemma WithinCalendar(cal: Calendar, start: Time)
    requires IsCalendar(cal) && cal != [] && 0 <= cal[0] <= start
    ensures Month(cal, start) > 0
  {
    MonthBounds(cal, start);
  }

  lemma KeptStep(cal: Calendar, start: Time, events: seq<Event>, n: nat, w: World)
    requires 0 < n <= |events| && !events[n - 1].Restart? && TrackerKept(cal, start, events, n - 1, w.tracker)
    requires Month(cal, LastTime(start, events, n - 1)) <= Month(cal, events[n - 1].at)
    requires ResetIfNewMonth(cal, w.tracker, events[n - 1].at)
          == Tracker(Accounted(cal, events, n - 1, Month(cal, events[n - 1].at)), Month(cal, events[n - 1].at))
    ensures TrackerKept(cal, start, events, n, Step(cal, w, events[n - 1]).tracker)
  {
    hide Month, LastFlush, Accounted, NoneAfter, LoadAPIUsage, ResetIfNewMonth;
    var e := events[n - 1];
    var m := Month(cal, e.at);
    var t := Step(cal, w, e).tracker;
    AccountedUnfolds(cal, events, n, t.monthStart);
    NoneAfterUnfolds(cal, events, n, t.monthStart);
    if e.Response? && (e.status >= 500 || e.path == Unbilled) {
      assert t == w.tracker;
    } else {
      assert t.monthStart == m;
      NoneAfterLater(cal, events, n - 1, w.tracker.monthStart, m);
    }
  }

  lemma NoneAfterUnfolds(cal: Calendar, events: seq<Event>, n: nat, m: Time)
    requires 0 < n <= |events|
    ensures NoneAfter(cal, events, n, m) <==> NoneAfter(cal, events, n - 1, m) && !CountsAfter(cal, events[n - 1], m)
  {
    hide Month;
  }

  lemma RestartKeeps(cal: Calendar, start: Time, events: seq<Event>, n: nat, w: World)
    requires Ordered(cal, start, events) && 0 < n <= |events| && events[n - 1].Restart?
    requires TrackerKept(cal, start, events, n - 1, w.tracker)
    requires Month(cal, LastTime(start, events, n - 1)) <= Month(cal, events[n - 1].at)
    requires FindsLast(cal, events, n - 1, w.rows, events[n - 1].at)
    ensures TrackerKept(cal, start, events, n, Step(cal, w, events[n - 1]).tracker)
  {
    hide Month, LastFlush, InRange, PeakOf;
    var at := events[n - 1].at;
    MonthOfMonth(cal, at);
    WithinCalendar(cal, at);
    NoneAfterLater(cal, events, n - 1, w.tracker.monthStart, Month(cal, at));
    assert Step(cal, w, events[n - 1]).tracker.monthStart == Month(cal, at);
  }

  /** Over any run of responses, flushes, crashes with restore and month
      rollovers, the counters read at any moment are the month's responses below
      status 500, less those lost since the last snapshot before each crash. */
  lemma {:induction false} CountersAreAccounted(cal: Calendar, start: Time, events: seq<Event>, n: nat, now: Time)
    requires Ordered(cal, start, events) && n <= |events|
    requires now >= LastTime(start, events, n)
    ensures ResetIfNewMonth(cal, After(cal, start, events, n).tracker, now)
         == Tracker(Accounted(cal, events, n, Month(cal, now)), Month(cal, now))
  {
    hide Month, Accounted, After, TrackerKept;
    TrackerIsKept(cal, start, events, n);
    SnapshotOfKept(cal, start, events, n, After(cal, start, events, n).tracker, now);
  }

  /** A restore recovers exactly the last snapshot of the month. */
  lemma {:induction false} RestoreIsLastPersisted(cal: Calendar, start: Time, events: seq<Event>, n: nat, now: Time)
    requires Ordered(cal, start, events) && n <= |events|
    requires now >= LastTime(start, events, n)
    ensures var f := LastFlush(cal, events, n, Month(cal, now));
            LoadAPIUsage(cal, After(cal, start, events, n).rows, now) ==
              if f == 0 then None else Some(Accounted(cal, events, f - 1, Month(cal, now)))
  {
    hide Month, Accounted, After;
    PeakIsLastPersisted(cal, start, events, n, now);
  }

  /** Snapshots stamped with a month and taken in it never decrease, and never
      exceed the calls made. */
  lemma PersistedCountersGrow(cal: Calendar, start: Time, events: seq<Event>, f: nat, g: nat)
    requires Ordered(cal, start, events) && f < g < |events|
    requires events[f].Flush? && events[g].Flush?
    requires Month(cal, events[f].minute) == Month(cal, events[g].minute) == Month(cal, events[g].at)
    ensures var rowF := After(cal, start, events, f + 1).rows; var rowG := After(cal, start, events, g + 1).rows;
            && |rowF| > 0 && |rowG| > 0
            && Leq(rowF[|rowF| - 1].counts, rowG[|rowG| - 1].counts)
            && Leq(rowG[|rowG| - 1].counts, TrueCount(cal, events, g, Month(cal, events[g].minute)))
  {
    hide Month, Accounted, After;
    FlushAppends(cal, start, events, f);
    FlushAppends(cal, start, events, g);
    assert events[f].at <= events[g].at;
    SameMonthBetween(cal, events[f].minute, events[f].at, events[g].at);
    AccountedGrows(cal, events, f, g, Month(cal, events[g].at));
    AccountedAtMostTrue(cal, events, g, Month(cal, events[g].at));
  }

  // ----- Snapshots that straddle the end of a month -----

  /** The row that flush `f` appends is the last of the rows after it. */
  lemma FlushedRow(cal: Calendar, start: Time, events: seq<Event>, f: nat)
    requires Ordered(cal, start, events) && f < |events| && events[f].Flush?
    ensures var rows := After(cal, start, events, f + 1).rows;
            |rows| > 0 && rows[|rows| - 1] == Row(events[f].minute, Accounted(cal, events, f, Month(cal, events[f].at)))
  {
    hide Month, Accounted, After;
    FlushAppends(cal, start, events, f);
  }

  /** Of two snapshots stamped with one month, the first taken in it, the later is at
      least the earlier if and only if it too was taken in it, or the calls known of
      the month it was taken in already reach the earlier one. */
  lemma {:induction false} SnapshotsGrowExactly(cal: Calendar, start: Time, events: seq<Event>, f: nat, g: nat)
    requires Ordered(cal, start, events) && f < g < |events|
    requires events[f].Flush? && events[g].Flush?
    requires Month(cal, events[f].minute) == Month(cal, events[g].minute) == Month(cal, events[f].at)
    ensures var rowF := After(cal, start, events, f + 1).rows; var rowG := After(cal, start, events, g + 1).rows;
            var m := Month(cal, events[f].minute); var taken := Month(cal, events[g].at);
            && |rowF| > 0 && |rowG| > 0
            && (Leq(rowF[|rowF| - 1].counts, rowG[|rowG| - 1].counts) <==>
                  taken == m || Leq(Accounted(cal, events, f, m), Accounted(cal, events, g, taken)))
  {
    hide Month, Accounted, After;
    FlushedRow(cal, start, events, f);
    FlushedRow(cal, start, events, g);
    if Month(cal, events[g].at) == Month(cal, events[f].minute) {
      AccountedGrows(cal, events, f, g, Month(cal, events[g].at));
    }
  }

  /** In particular, when no call of a later month was made before it, the later
      snapshot keeps up exactly when it is taken in its month or nothing was known. */
  lemma {:induction false} QuietRolloverDrops(cal: Calendar, start: Time, events: seq<Event>, f: nat, g: nat)
    requires Ordered(cal, start, events) && f < g < |events|
    requires events[f].Flush? && events[g].Flush?
    requires Month(cal, events[f].minute) == Month(cal, events[g].minute) == Month(cal, events[f].at)
    requires NoneAfter(cal, events, g, Month(cal, events[f].minute))
    ensures var rowF := After(cal, start, events, f + 1).rows; var rowG := After(cal, start, events, g + 1).rows;
            var m := Month(cal, events[f].minute);
            && |rowF| > 0 && |rowG| > 0
            && (Leq(rowF[|rowF| - 1].counts, rowG[|rowG| - 1].counts) <==>
                  Month(cal, events[g].at) == m || Accounted(cal, events, f, m) == Zero)
  {
    hide Month, Accounted, After, NoneAfter;
    var m, taken := Month(cal, events[f].minute), Month(cal, events[g].at);
    SnapshotsGrowExactly(cal, start, events, f, g);
    AccountedNonNegative(cal, events, f, m);
    MonthMonotone(cal, events[g].minute, events[g].at);
    if taken != m {
      NothingInFuture(cal, events, g, m, taken);
    }
  }

  /** What a snapshot counts, for every flush: no more than the calls made in the month
      it is taken in. Its timestamp may name the month before; it exceeds the calls of
      that month unless it was taken in it, or they reach what is known of the new one. */
  lemma {:induction false} SnapshotAtMostTrueExactly(cal: Calendar, start: Time, events: seq<Event>, g: nat)
    requires Ordered(cal, start, events) && g < |events| && events[g].Flush?
    ensures var rows := After(cal, start, events, g + 1).rows;
            var m := Month(cal, events[g].minute); var taken := Month(cal, events[g].at);
            && |rows| > 0
            && Leq(rows[|rows| - 1].counts, TrueCount(cal, events, g, taken))
            && (Leq(rows[|rows| - 1].counts, TrueCount(cal, events, g, m)) <==>
                  taken == m || Leq(Accounted(cal, events, g, taken), TrueCount(cal, events, g, m)))
  {
    hide Month, Accounted, TrueCount, After;
    FlushedRow(cal, start, events, g);
    AccountedAtMostTrue(cal, events, g, Month(cal, events[g].at));
  }

  /** In particular none exceeds the calls of its stamped month when no call of a later
      month was made before it. */
  lemma {:induction false} QuietSnapshotAtMostTrue(cal: Calendar, start: Time, events: seq<Event>, g: nat)
    requires Ordered(cal, start, events) && g < |events| && events[g].Flush?
    requires NoneAfter(cal, events, g, Month(cal, events[g].minute))
    ensures var rows := After(cal, start, events, g + 1).rows;
            |rows| > 0 && Leq(rows[|rows| - 1].counts, TrueCount(cal, events, g, Month(cal, events[g].minute)))
  {
    hide Month, Accounted, TrueCount, After, NoneAfter;
    var m, taken := Month(cal, events[g].minute), Month(cal, events[g].at);
    SnapshotAtMostTrueExactly(cal, start, events, g);
    MonthMonotone(cal, events[g].minute, events[g].at);
    if taken != m {
      NothingInFuture(cal, events, g, m, taken);
      AccountedNonNegative(cal, events, g, m);
      AccountedAtMostTrue(cal, events, g, m);
    }
  }

  /** It does happen: a call of the first tick of a month, a wake-up say, comes before
      that tick flushes the last minute of the month before, and lands in its snapshot. */
  lemma RolloverSnapshotExceeds()
    ensures var cal := [100 * MINUTE, 200 * MINUTE];
            var events := [Response(200 * MINUTE, WakeUp, 200), Flush(200 * MINUTE, 199 * MINUTE)];
            var rows := After(cal, 150 * MINUTE, events, 2).rows;
            && Ordered(cal, 150 * MINUTE, events)
            && |rows| == 1 && Month(cal, rows[0].at) == 100 * MINUTE
            && rows[0].counts == Counts(0, 0, 1, 0)
            && TrueCount(cal, events, 2, 100 * MINUTE) == Zero
  {
    hide Month, After, Step, TrueCount;
    var cal := [100 * MINUTE, 200 * MINUTE];
    var call, flush := Response(200 * MINUTE, WakeUp, 200), Flush(200 * MINUTE, 199 * MINUTE);
    var events := [call, flush];
    TwoMonths(cal);
    AfterUnfolds(cal, 150 * MINUTE, events, 1);
    AfterUnfolds(cal, 150 * MINUTE, events, 2);
    CallThenFlush(cal, call, flush);
    NotCountedIn(cal, events, 100 * MINUTE);
  }

  lemma AfterUnfolds(cal: Calendar, start: Time, events: seq<Event>, n: nat)
    requires 0 < n <= |events|
    ensures After(cal, start, events, n) == Step(cal, After(cal, start, events, n - 1), events[n - 1])
    ensures After(cal, start, events, 0) == World(Tracker(Zero, Month(cal, start)), [])
  {
    hide Month, Step;
  }

  lemma CallThenFlush(cal: Calendar, call: Event, flush: Event)
    requires call == Response(200 * MINUTE, WakeUp, 200) && flush == Flush(200 * MINUTE, 199 * MINUTE)
    requires Month(cal, 200 * MINUTE) == 200 * MINUTE
    ensures Step(cal, Step(cal, World(Tracker(Zero, 100 * MINUTE), []), call), flush)
         == World(Tracker(Counts(0, 0, 1, 0), 200 * MINUTE), [Row(199 * MINUTE, Counts(0, 0, 1, 0))])
  {
    hide Month, LoadAPIUsage;
  }

  lemma TrueCountUnfolds(cal: Calendar, events: seq<Event>, n: nat, m: Time)
    requires 0 < n <= |events|
    ensures TrueCount(cal, events, n, m) == Add(TrueCount(cal, events, n - 1, m), CallCount(cal, events[n - 1], m))
    ensures TrueCount(cal, events, 0, m) == Zero
  {
    hide CallCount;
  }

  lemma {:induction false} NotCountedIn(cal: Calendar, events: seq<Event>, m: Time)
    requires |events| == 2 && events[1].Flush? && Month(cal, events[0].at) != m
    ensures TrueCount(cal, events, 2, m) == Zero
  {
    hide *;
    TrueCountUnfolds(cal, events, 1, m);
    TrueCountUnfolds(cal, events, 2, m);
    CountsNothing(cal, events[0], m);
    CountsNothing(cal, events[1], m);
    AddNothing();
  }

  lemma AddNothing()
    ensures Add(Zero, Zero) == Zero
  {
  }

  lemma CountsNothing(cal: Calendar, e: Event, m: Time)
    requires e.Flush? || Month(cal, e.at) != m
    ensures CallCount(cal, e, m) == Zero
  {
    hide Month;
  }

  lemma TwoMonths(cal: Calendar)
    requires cal == [100 * MINUTE, 200 * MINUTE]
    ensures IsCalendar(cal) && Month(cal, 200 * MINUTE) == 200 * MINUTE
    ensures Month(cal, 150 * MINUTE) == Month(cal, 199 * MINUTE) == 100 * MINUTE
  {
    assert cal[..1] == [100 * MINUTE];
  }

  /** The flush of a month's last minute happens in the first tick of the next
      month, after the counters were reset: its snapshot, stamped with the old
      month, drops below the one before it. */
  lemma RolloverSnapshotDrops()
    ensures var cal := [100 * MINUTE, 200 * MINUTE];
            var events := [Response(150 * MINUTE, VehicleData, 200),
                           Flush(199 * MINUTE, 198 * MINUTE), Flush(200 * MINUTE, 199 * MINUTE)];
            var rows := After(cal, 100 * MINUTE, events, 3).rows;
            && Ordered(cal, 100 * MINUTE, events)
            && |rows| == 2 && Month(cal, rows[0].at) == Month(cal, rows[1].at)
            && rows[0].counts == Counts(1, 0, 0, 0) && rows[1].counts == Zero
  {
    var cal := [100 * MINUTE, 200 * MINUTE];
    var events := [Response(150 * MINUTE, VehicleData, 200),
                   Flush(199 * MINUTE, 198 * MINUTE), Flush(200 * MINUTE, 199 * MINUTE)];
    assert cal[..1] == [100 * MINUTE] && cal[..1][..0] == [];
    assert forall t :: 100 * MINUTE <= t < 200 * MINUTE ==> Month(cal, t) == 100 * MINUTE;
    var first := Row(198 * MINUTE, Counts(1, 0, 0, 0));
    assert After(cal, 100 * MINUTE, events, 0) == World(Tracker(Zero, 100 * MINUTE), []);
    assert After(cal, 100 * MINUTE, events, 1) == World(Tracker(Counts(1, 0, 0, 0), 100 * MINUTE), []);
    assert After(cal, 100 * MINUTE, events, 2) == World(Tracker(Counts(1, 0, 0, 0), 100 * MINUTE), [first]);
    assert After(cal, 100 * MINUTE, events, 3)
        == World(Tracker(Zero, 200 * MINUTE), [first, Row(199 * MINUTE, Zero)]);
  }
}
