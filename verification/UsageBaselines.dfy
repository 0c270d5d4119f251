/** Correcting the usage counters to Tesla's billing figures, once: applyBaseline
    and LoadAPIUsage of internal/controller/apiusage.go. */
module UsageBaselines {
  import opened Prelude
  import opened ApiUsage
  import opened UsageRestore

  datatype UsageBaseline = UsageBaseline(at: Time, data: int, command: int, wake: int)

  function Figures(b: UsageBaseline): Counts {
    Counts(b.data, b.command, b.wake, 0)
  }

  /** What one pass over the month's snapshots gathers: the last at or before the
      baseline, the first after it, and the maximum of those after. */
  datatype Scan = Scan(ref: Option<Row>, refAfter: Option<Row>, peak: Counts)

  function ScanRows(rows: seq<Row>, at: Time): Scan {
    if rows == [] then Scan(None, None, Zero)
    else ScanStep(ScanRows(rows[..|rows| - 1], at), rows[|rows| - 1], at)
  }

  function ScanStep(sc: Scan, row: Row, at: Time): Scan {
    if row.at > at then
      Scan(sc.ref,
           if sc.refAfter.None? || row.at < sc.refAfter.value.at then Some(row) else sc.refAfter,
           MaxUsage(sc.peak, row.counts))
    else if sc.ref.None? || row.at > sc.ref.value.at then sc.(ref := Some(row))
    else sc
  }

  function ReferenceOf(sc: Scan): Counts {
    if sc.ref.Some? then sc.ref.value.counts
    else if sc.refAfter.Some? then sc.refAfter.value.counts
    else Zero
  }

  function Corrected(b: UsageBaseline, rows: seq<Row>): Counts {
    var sc := ScanRows(rows, b.at);
    var ref := ReferenceOf(sc);
    var peak := MaxUsage(sc.peak, ref);
    Counts(b.data + Max(0, peak.data - ref.data),
           b.command + Max(0, peak.command - ref.command),
           b.wake + Max(0, peak.wake - ref.wake),
           peak.stream)
  }

  /** The loop of applyBaseline. */
  method ApplyBaseline(rows: seq<Row>, b: UsageBaseline) returns (c: Counts)
    ensures c == Corrected(b, rows)
  {
    var ref: Option<Row> := None;
    var refAfter: Option<Row> := None;
    var peak := Zero;
    for i := 0 to |rows|
      invariant Scan(ref, refAfter, peak) == ScanRows(rows[..i], b.at)
    {
      assert rows[..i + 1][..i] == rows[..i];
      var s := rows[i];
      if s.at > b.at {
        if refAfter.None? || s.at < refAfter.value.at {
          refAfter := Some(s);
        }
        peak := MaxUsage(peak, s.counts);
      } else if ref.None? || s.at > ref.value.at {
        ref := Some(s);
      }
    }
    assert rows[..|rows|] == rows;
    if ref.None? {
      ref := refAfter;
    }
    var reference := if ref.Some? then ref.value.counts else Zero;
    peak := MaxUsage(peak, reference);
    c := Counts(b.data + Max(0, peak.data - reference.data),
                b.command + Max(0, peak.command - reference.command),
                b.wake + Max(0, peak.wake - reference.wake),
                peak.stream);
  }

  // ----- What the correction means -----

  /** The snapshot calls are counted from: the last at or before `at`, or else
      the first of all. */
  ghost predicate IsReference(rows: seq<Row>, at: Time, ref: Row) {
    && ref in rows
    && (if ref.at <= at then forall r :: r in rows && r.at <= at ==> r.at <= ref.at
        else forall r :: r in rows ==> ref.at <= r.at)
  }

  ghost predicate IsLatest(rows: seq<Row>, latest: Row) {
    latest in rows && forall r :: r in rows ==> r.at <= latest.at
  }

  ghost predicate DistinctTimes(rows: seq<Row>) {
    forall i, j :: 0 <= i < j < |rows| ==> rows[i].at != rows[j].at
  }

  ghost predicate NonDecreasingFrom(rows: seq<Row>, ref: Row) {
    forall r, s :: r in rows && s in rows && ref.at <= r.at <= s.at ==> Leq(r.counts, s.counts)
  }

  ghost predicate ScanMeans(rows: seq<Row>, at: Time, sc: Scan) {
    && (sc.ref.None? ==> forall r :: r in rows ==> r.at > at)
    && (sc.ref.Some? ==> sc.ref.value in rows && sc.ref.value.at <= at
                         && forall r :: r in rows && r.at <= at ==> r.at <= sc.ref.value.at)
    && (sc.refAfter.None? ==> forall r :: r in rows ==> r.at <= at)
    && (sc.refAfter.Some? ==> sc.refAfter.value in rows && sc.refAfter.value.at > at
                              && forall r :: r in rows && r.at > at ==> sc.refAfter.value.at <= r.at)
    && (forall r :: r in rows && r.at > at ==> Leq(r.counts, sc.peak))
  }

  lemma {:induction false} ScanMeaning(rows: seq<Row>, at: Time)
    ensures ScanMeans(rows, at, ScanRows(rows, at))
  {
    if rows != [] {
      var init := rows[..|rows| - 1];
      var last := rows[|rows| - 1];
      ScanMeaning(init, at);
      assert rows == init + [last];
      assert forall r :: r in rows <==> r in init || r == last;
    }
  }

  /** The maximum is no larger than any bound of what it ranges over. */
  lemma {:induction false} ScanPeakLeast(rows: seq<Row>, at: Time, bound: Counts)
    requires Leq(Zero, bound) && forall r :: r in rows && r.at > at ==> Leq(r.counts, bound)
    ensures Leq(ScanRows(rows, at).peak, bound)
  {
    if rows != [] {
      ScanPeakLeast(rows[..|rows| - 1], at, bound);
      assert rows[|rows| - 1] in rows;
    }
  }

  lemma SameTimeSameRow(rows: seq<Row>, r: Row, s: Row)
    requires DistinctTimes(rows) && r in rows && s in rows && r.at == s.at
    ensures r == s
  {
  }

  /** The correction never falls below the billing figures. */
  lemma CorrectedAtLeastBaseline(b: UsageBaseline, rows: seq<Row>)
    requires forall r :: r in rows ==> Leq(Zero, r.counts)
    ensures Leq(Figures(b), Corrected(b, rows))
  {
    ScanMeaning(rows, b.at);
  }

  /** For snapshots in any order, whatever was over-counted before the reference:
      when the counters never decrease from it on, the correction is the billing
      figures plus the calls since. */
  lemma CorrectedExactly(b: UsageBaseline, rows: seq<Row>, ref: Row, latest: Row)
    requires DistinctTimes(rows) && forall r :: r in rows ==> Leq(Zero, r.counts)
    requires IsReference(rows, b.at, ref) && IsLatest(rows, latest) && NonDecreasingFrom(rows, ref)
    ensures Corrected(b, rows).data == b.data + (latest.counts.data - ref.counts.data)
    ensures Corrected(b, rows).command == b.command + (latest.counts.command - ref.counts.command)
    ensures Corrected(b, rows).wake == b.wake + (latest.counts.wake - ref.counts.wake)
    ensures Corrected(b, rows).stream == latest.counts.stream
  {
    var sc := ScanRows(rows, b.at);
    ScanMeaning(rows, b.at);
    assert ReferenceOf(sc) == ref.counts by {
      if sc.ref.Some? {
        SameTimeSameRow(rows, sc.ref.value, ref);
      } else {
        SameTimeSameRow(rows, sc.refAfter.value, ref);
      }
    }
    assert ref.at <= latest.at && Leq(ref.counts, latest.counts);
    ScanPeakLeast(rows, b.at, latest.counts);
    if latest.at <= b.at {
      SameTimeSameRow(rows, latest, ref);
    }
  }

  lemma CorrectedWithoutSnapshots(b: UsageBaseline)
    ensures Corrected(b, []) == Figures(b)
  {
  }

  // ----- Loading, and loading again -----

  /** The snapshot and event tables; an event stands for the baseline its message
      spells out (the text determines the baseline). */
  datatype Tables = Tables(rows: seq<Row>, events: seq<(Time, UsageBaseline)>)

  function AppliedAt(events: seq<(Time, UsageBaseline)>, b: UsageBaseline, from: Time, to: Time): Option<Time> {
    if events == [] then None
    else
      var last := events[|events| - 1];
      if last.1 == b && Unix(from) <= last.0 <= Unix(to) then Some(last.0)
      else AppliedAt(events[..|events| - 1], b, from, to)
  }

  predicate Applicable(cal: Calendar, b: Option<UsageBaseline>, now: Time) {
    b.Some? && Month(cal, b.value.at) == Month(cal, now) && b.value.at <= now
  }

  function Load(cal: Calendar, t: Tables, b: Option<UsageBaseline>, now: Time): (Tables, Option<Counts>) {
    var monthStart := Month(cal, now);
    if Applicable(cal, b, now) then
      match AppliedAt(t.events, b.value, monthStart, now)
      case None =>
        var c := Corrected(b.value, InRange(t.rows, Unix(monthStart), Unix(now)));
        (Tables(t.rows + [Row(Unix(now), c)], t.events + [(Unix(now), b.value)]), Some(c))
      case Some(appliedAt) => (t, PeakSince(t.rows, appliedAt, now))
    else
      (t, PeakSince(t.rows, monthStart, now))
  }

  function PeakSince(rows: seq<Row>, from: Time, now: Time): Option<Counts> {
    var found := InRange(rows, Unix(from), Unix(now));
    if found == [] then None else Some(PeakOf(found))
  }

  /** Without a baseline, loading finds what `UsageRestore` describes, when rows and
      month starts are whole seconds. */
  lemma LoadWithoutBaseline(cal: Calendar, t: Tables, now: Time)
    requires Month(cal, now) % SECOND == 0 && forall r :: r in t.rows ==> r.at % SECOND == 0
    ensures Load(cal, t, None, now) == (t, UsageRestore.LoadAPIUsage(cal, t.rows, now))
  {
    InRangeInSeconds(t.rows, Month(cal, now), now);
  }

  lemma {:induction false} InRangeInSeconds(rows: seq<Row>, from: Time, to: Time)
    requires from % SECOND == 0 && forall r :: r in rows ==> r.at % SECOND == 0
    ensures InRange(rows, Unix(from), Unix(to)) == InRange(rows, from, to)
  {
    if rows != [] {
      InRangeInSeconds(rows[..|rows| - 1], from, to);
      assert rows[|rows| - 1] in rows;
    }
  }

  /** A load writes exactly when a baseline of the current month, not of the future, has
      no event since the month began; it then adds one snapshot and its event. */
  lemma {:induction false} LoadWritesExactly(cal: Calendar, t: Tables, b: Option<UsageBaseline>, now: Time)
    ensures var t' := Load(cal, t, b, now).0;
            && (t' != t <==>
                  && b.Some? && Month(cal, b.value.at) == Month(cal, now) && b.value.at <= now
                  && forall i :: 0 <= i < |t.events| && t.events[i].1 == b.value ==>
                       !(Unix(Month(cal, now)) <= t.events[i].0 <= Unix(now)))
            && (t' != t ==>
                  && |t'.rows| == |t.rows| + 1 && t'.rows[..|t.rows|] == t.rows && t'.rows[|t.rows|].at == Unix(now)
                  && t'.events == t.events + [(Unix(now), b.value)])
  {
    hide Month, Corrected, PeakSince;
    if b.Some? {
      AppliedExactly(t.events, b.value, Month(cal, now), now);
    }
    var t' := Load(cal, t, b, now).0;
    assert t' != t ==> |t'.rows| == |t.rows| + 1;
    assert |t'.rows| == |t.rows| + 1 ==> t' != t;
  }

  lemma {:induction false} AppliedExactly(events: seq<(Time, UsageBaseline)>, b: UsageBaseline, from: Time, to: Time)
    ensures AppliedAt(events, b, from, to).None? <==>
              forall i :: 0 <= i < |events| && events[i].1 == b ==> !(Unix(from) <= events[i].0 <= Unix(to))
  {
    if events != [] {
      AppliedExactly(events[..|events| - 1], b, from, to);
      var last := events[|events| - 1];
      assert forall i :: 0 <= i < |events| - 1 ==> events[..|events| - 1][i] == events[i];
    }
  }

  class UsageStore {
    const cal: Calendar
    var rows: seq<Row>
    var events: seq<(Time, UsageBaseline)>

    ghost function Abs(): Tables
      reads this
    {
      Tables(rows, events)
    }

    constructor (cal: Calendar)
      ensures this.cal == cal && Abs() == Tables([], [])
    {
      this.cal := cal;
      rows, events := [], [];
    }

    method InsertAPIUsage(at: Time, counts: Counts)
      modifies this`rows
      ensures rows == old(rows) + [Row(Unix(at), counts)]
    {
      rows := rows + [Row(Unix(at), counts)];
    }

    method InsertEvent(at: Time, b: UsageBaseline)
      modifies this`events
      ensures events == old(events) + [(Unix(at), b)]
    {
      events := events + [(Unix(at), b)];
    }

    /** Newest first, as the query orders them. */
    method BaselineAppliedAt(b: UsageBaseline, monthStart: Time, now: Time) returns (at: Option<Time>)
      ensures at == AppliedAt(events, b, monthStart, now)
    {
      var i: nat := |events|;
      assert events[..|events|] == events;
      while i > 0
        invariant i <= |events|
        invariant AppliedAt(events, b, monthStart, now) == AppliedAt(events[..i], b, monthStart, now)
      {
        assert events[..i][..i - 1] == events[..i - 1];
        i := i - 1;
        if events[i].1 == b && Unix(monthStart) <= events[i].0 <= Unix(now) {
          return Some(events[i].0);
        }
      }
      at := None;
    }

    method LoadAPIUsage(baseline: Option<UsageBaseline>, now: Time) returns (c: Option<Counts>)
      modifies this
      ensures (Abs(), c) == Load(cal, old(Abs()), baseline, now)
    {
      var monthStart := Month(cal, now);
      var from := monthStart;
      if baseline.Some? && Month(cal, baseline.value.at) == monthStart && baseline.value.at <= now {
        var appliedAt := BaselineAppliedAt(baseline.value, monthStart, now);
        if appliedAt.None? {
          var corrected := ApplyBaseline(InRange(rows, Unix(monthStart), Unix(now)), baseline.value);
          InsertAPIUsage(now, corrected);
          InsertEvent(now, baseline.value);
          return Some(corrected);
        }
        from := appliedAt.value;
      }
      var snaps := InRange(rows, Unix(from), Unix(now));
      if |snaps| == 0 {
        return None;
      }
      var peak := LoadPeak(snaps);
      c := Some(peak);
    }
  }

  /** Baseline `b` was applied at `t0`, with result `c`. */
  ghost predicate IsApplied(t: Tables, b: UsageBaseline, t0: Time, c: Counts) {
    && Row(Unix(t0), c) in t.rows
    && (exists i :: 0 <= i < |t.events| && t.events[i] == (Unix(t0), b))
    && (forall i :: 0 <= i < |t.events| && t.events[i].1 == b ==> t.events[i].0 == Unix(t0))
  }

  lemma {:induction false} AppliedIsFound(events: seq<(Time, UsageBaseline)>, b: UsageBaseline,
                                          t0: Time, from: Time, to: Time, i: nat)
    requires i < |events| && events[i] == (Unix(t0), b) && from <= t0 <= to
    requires forall k :: 0 <= k < |events| && events[k].1 == b ==> events[k].0 == Unix(t0)
    ensures AppliedAt(events, b, from, to) == Some(Unix(t0))
  {
    UnixMonotone(from, t0);
    UnixMonotone(t0, to);
    if i < |events| - 1 {
      AppliedIsFound(events[..|events| - 1], b, t0, from, to, i);
    }
  }

  lemma {:induction false} InRangeKeeps(rows: seq<Row>, from: Time, to: Time, r: Row)
    requires r in rows && from <= r.at <= to
    ensures r in InRange(rows, from, to)
  {
    if r != rows[|rows| - 1] {
      InRangeKeeps(rows[..|rows| - 1], from, to, r);
    }
  }

  lemma {:induction false} PeakCovers(rows: seq<Row>, r: Row)
    requires r in rows
    ensures Leq(r.counts, PeakOf(rows))
  {
    if r != rows[|rows| - 1] {
      PeakCovers(rows[..|rows| - 1], r);
    }
  }

  /** A load that finds the baseline applied inserts nothing and returns at least
      the corrected counts. */
  lemma LoadAfterApplied(cal: Calendar, t: Tables, b: UsageBaseline, t0: Time, c: Counts, now: Time)
    requires IsCalendar(cal) && 0 <= t0 <= now && Month(cal, now) <= t0
    requires Month(cal, b.at) == Month(cal, now) && b.at <= t0
    requires IsApplied(t, b, t0, c)
    ensures var (t', r) := Load(cal, t, Some(b), now); t' == t && r.Some? && Leq(c, r.value)
  {
    hide Month;
    var i :| 0 <= i < |t.events| && t.events[i] == (Unix(t0), b);
    AppliedIsFound(t.events, b, t0, Month(cal, now), now, i);
    UnixMonotone(t0, now);
    assert Unix(Unix(t0)) == Unix(t0);
    var row := Row(Unix(t0), c);
    InRangeKeeps(t.rows, Unix(t0), Unix(now), row);
    PeakCovers(InRange(t.rows, Unix(t0), Unix(now)), row);
  }

  lemma FirstLoadApplies(cal: Calendar, t: Tables, b: UsageBaseline, t0: Time)
    requires Applicable(cal, Some(b), t0)
    requires forall i :: 0 <= i < |t.events| ==> t.events[i].1 != b
    ensures var (t', r) := Load(cal, t, Some(b), t0);
            && r == Some(Corrected(b, InRange(t.rows, Unix(Month(cal, t0)), Unix(t0))))
            && IsApplied(t', b, t0, r.value)
  {
    hide Month;
    NeverApplied(t.events, b, Month(cal, t0), t0);
    var t' := Load(cal, t, Some(b), t0).0;
    assert t'.events[|t.events|] == (Unix(t0), b);
    assert t'.rows[|t.rows|].at == Unix(t0);
  }

  lemma {:induction false} NeverApplied(events: seq<(Time, UsageBaseline)>, b: UsageBaseline, from: Time, to: Time)
    requires forall i :: 0 <= i < |events| ==> events[i].1 != b
    ensures AppliedAt(events, b, from, to) == None
  {
    if events != [] {
      NeverApplied(events[..|events| - 1], b, from, to);
    }
  }

  /** What happens to the tables after the correction: minute snapshots are inserted
      and the counters are loaded again, with the same baseline, another or none. */
  datatype Op = Insert(row: Row) | Reload(now: Time, baseline: Option<UsageBaseline>)

  function Do(cal: Calendar, t: Tables, op: Op): (Tables, Option<Counts>) {
    match op
    case Insert(row) => (t.(rows := t.rows + [row]), None)
    case Reload(now, baseline) => Load(cal, t, baseline, now)
  }

  ghost predicate IsHistory(cal: Calendar, run: seq<Tables>, ops: seq<Op>, loaded: seq<Option<Counts>>) {
    && IsCalendar(cal)
    && |run| == |ops| + 1 && |loaded| == |ops|
    && forall i :: 0 <= i < |ops| ==> IsDo(cal, run, ops, loaded, i)
  }

  ghost predicate IsDo(cal: Calendar, run: seq<Tables>, ops: seq<Op>, loaded: seq<Option<Counts>>, i: nat)
    requires i < |ops| == |loaded| && |run| == |ops| + 1
  {
    (run[i + 1], loaded[i]) == Do(cal, run[i], ops[i])
  }

  /** Load `i`, with the applied baseline `b`, writes nothing, and within the month
      of `b` returns at least the corrected counts. */
  ghost predicate LoadsCorrected(cal: Calendar, run: seq<Tables>, ops: seq<Op>, loaded: seq<Option<Counts>>,
                                 b: UsageBaseline, c: Counts, i: nat)
    requires i < |ops| == |loaded| && |run| == |ops| + 1
  {
    ops[i].Reload? && ops[i].baseline == Some(b) ==>
      && run[i + 1] == run[i]
      && (Month(cal, ops[i].now) == Month(cal, b.at) ==> loaded[i].Some? && Leq(c, loaded[i].value))
  }

  /** Once applied, a baseline is never applied again, whatever the configuration is
      changed to and back: every later load of it leaves the tables alone and, in its
      month, returns at least the corrected counts. */
  lemma {:induction false} BaselineAppliedOnce(cal: Calendar, b: UsageBaseline, run: seq<Tables>, ops: seq<Op>,
                                               loaded: seq<Option<Counts>>, t0: Time, c: Counts, n: nat)
    requires IsHistory(cal, run, ops, loaded) && n <= |ops|
    requires IsApplied(run[0], b, t0, c) && 0 <= b.at <= t0 && Month(cal, b.at) == Month(cal, t0)
    requires forall i :: 0 <= i < |ops| && ops[i].Reload? ==> t0 <= ops[i].now
    ensures IsApplied(run[n], b, t0, c)
    ensures forall i :: 0 <= i < n ==> LoadsCorrected(cal, run, ops, loaded, b, c, i)
  {
    hide Month, Load, IsApplied;
    if n > 0 {
      BaselineAppliedOnce(cal, b, run, ops, loaded, t0, c, n - 1);
      assert IsDo(cal, run, ops, loaded, n - 1);
      match ops[n - 1] {
        case Insert(row) => InsertKeepsApplied(run[n - 1], row, b, t0, c);
        case Reload(now, baseline) =>
          if baseline == Some(b) {
            ReloadOfApplied(cal, run[n - 1], b, t0, c, now);
          } else {
            OtherLoadKeepsApplied(cal, run[n - 1], baseline, b, t0, c, now);
          }
      }
    }
  }

  lemma InsertKeepsApplied(t: Tables, row: Row, b: UsageBaseline, t0: Time, c: Counts)
    requires IsApplied(t, b, t0, c)
    ensures IsApplied(t.(rows := t.rows + [row]), b, t0, c)
  {
  }

  lemma ReloadOfApplied(cal: Calendar, t: Tables, b: UsageBaseline, t0: Time, c: Counts, now: Time)
    requires IsCalendar(cal) && IsApplied(t, b, t0, c)
    requires 0 <= b.at <= t0 <= now && Month(cal, b.at) == Month(cal, t0)
    ensures var (t', r) := Load(cal, t, Some(b), now);
            t' == t && (Month(cal, now) == Month(cal, b.at) ==> r.Some? && Leq(c, r.value))
  {
    hide Month;
    if Month(cal, now) == Month(cal, b.at) {
      MonthBounds(cal, t0);
      LoadAfterApplied(cal, t, b, t0, c, now);
    }
  }

  /** Another configuration only ever appends its own rows and events. */
  lemma OtherLoadKeepsApplied(cal: Calendar, t: Tables, other: Option<UsageBaseline>, b: UsageBaseline,
                              t0: Time, c: Counts, now: Time)
    requires IsApplied(t, b, t0, c) && other != Some(b)
    ensures IsApplied(Load(cal, t, other, now).0, b, t0, c)
  {
    hide Month;
    var t' := Load(cal, t, other, now).0;
    var i :| 0 <= i < |t.events| && t.events[i] == (Unix(t0), b);
    assert t'.events[i] == (Unix(t0), b);
  }
}
