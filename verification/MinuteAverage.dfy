/** Minute averaging of internal/controller/controller.go: samples are gathered
    per clock minute and persisted as one reading when the minute has passed. */
module MinuteAverage {
  import opened Prelude

  datatype Sample = Sample(
    at: Time,
    pvWatts: int, gridWatts: int, loadWatts: int, surplusWatts: int,
    chargeAmps: int,
    batteryPct: int)

  datatype Reading = Reading(
    minute: Time,
    pvWatts: real, gridWatts: real, loadWatts: real, surplusWatts: real,
    chargeAmps: int,
    batteryPct: int)

  /** One InsertReading call and, as history, the samples behind it. */
  datatype Flush = Flush(reading: Reading, batch: seq<Sample>)

  /** The accumulator fields; `flushed` is the history of InsertReading calls. */
  datatype Averager = Averager(accumulator: seq<Sample>, currentMinute: Time, flushed: seq<Flush>)

  const Empty := Averager([], 0, [])

  function TruncateToMinute(t: Time): (m: Time)
    ensures m <= t < m + MINUTE && m % MINUTE == 0
  {
    t - t % MINUTE
  }

  datatype Totals = Totals(pv: int, grid: int, load: int, surplus: int)

  function TotalsOf(s: seq<Sample>): Totals {
    if s == [] then Totals(0, 0, 0, 0)
    else
      var t := TotalsOf(s[..|s| - 1]);
      var x := s[|s| - 1];
      Totals(t.pv + x.pvWatts, t.grid + x.gridWatts, t.load + x.loadWatts, t.surplus + x.surplusWatts)
  }

  function Average(s: seq<Sample>, minute: Time): Reading
    requires s != []
  {
    var t := TotalsOf(s);
    var n := |s| as real;
    var last := s[|s| - 1];
    Reading(minute,
            t.pv as real / n, t.grid as real / n, t.load as real / n, t.surplus as real / n,
            last.chargeAmps, last.batteryPct)
  }

  function FlushMinute(a: Averager): Averager {
    if a.accumulator == [] then a
    else a.(flushed := a.flushed + [Flush(Average(a.accumulator, a.currentMinute), a.accumulator)])
  }

  function Accumulate(a: Averager, x: Sample): Averager {
    var thisMinute := TruncateToMinute(x.at);
    var current := if a.currentMinute == 0 then a.(currentMinute := thisMinute) else a;
    var ready :=
      if thisMinute != current.currentMinute
      then FlushMinute(current).(currentMinute := thisMinute, accumulator := [])
      else current;
    ready.(accumulator := ready.accumulator + [x])
  }

  /** The loop of flushMinuteAverage over a batch. */
  method AverageOf(batch: seq<Sample>, minute: Time) returns (r: Reading)
    requires batch != []
    ensures r == Average(batch, minute)
  {
    var sumPV, sumGrid, sumLoad, sumSurplus := 0, 0, 0, 0;
    for i := 0 to |batch|
      invariant Totals(sumPV, sumGrid, sumLoad, sumSurplus) == TotalsOf(batch[..i])
    {
      assert batch[..i + 1][..i] == batch[..i];
      sumPV := sumPV + batch[i].pvWatts;
      sumGrid := sumGrid + batch[i].gridWatts;
      sumLoad := sumLoad + batch[i].loadWatts;
      sumSurplus := sumSurplus + batch[i].surplusWatts;
    }
    assert batch[..|batch|] == batch;
    var n := |batch| as real;
    var last := batch[|batch| - 1];
    r := Reading(minute,
                 sumPV as real / n, sumGrid as real / n, sumLoad as real / n, sumSurplus as real / n,
                 last.chargeAmps, last.batteryPct);
  }

  /** The averager after a run of samples. */
  function Feed(samples: seq<Sample>): Averager {
    if samples == [] then Empty
    else Accumulate(Feed(samples[..|samples| - 1]), samples[|samples| - 1])
  }

  function Batches(flushed: seq<Flush>): seq<Sample> {
    if flushed == [] then []
    else Batches(flushed[..|flushed| - 1]) + flushed[|flushed| - 1].batch
  }

  /** Samples are taken in clock order, none in the very first minute of time. */
  predicate InOrder(samples: seq<Sample>) {
    && (forall i :: 0 <= i < |samples| ==> samples[i].at >= MINUTE)
    && (forall i, j :: 0 <= i < j < |samples| ==> samples[i].at <= samples[j].at)
  }

  /** The accumulator holds samples of its minute, and only that minute. */
  ghost predicate Wellformed(a: Averager) {
    && (a.accumulator == [] <==> a.currentMinute == 0)
    && (a.currentMinute == 0 ==> a.flushed == [])
    && (forall x :: x in a.accumulator ==> TruncateToMinute(x.at) == a.currentMinute)
    && (forall i :: 0 <= i < |a.flushed| ==> OneMinute(a.flushed[i]) && a.flushed[i].reading.minute < a.currentMinute)
    && (forall i, j :: 0 <= i < j < |a.flushed| ==> a.flushed[i].reading.minute < a.flushed[j].reading.minute)
  }

  ghost predicate OneMinute(f: Flush) {
    && f.batch != []
    && f.reading == Average(f.batch, f.reading.minute)
    && forall x :: x in f.batch ==> TruncateToMinute(x.at) == f.reading.minute
  }

  lemma AccumulateKeeps(a: Averager, x: Sample)
    requires Wellformed(a) && x.at >= MINUTE && TruncateToMinute(x.at) >= a.currentMinute
    ensures Wellformed(Accumulate(a, x))
    ensures Accumulate(a, x).currentMinute == TruncateToMinute(x.at)
    ensures Batches(Accumulate(a, x).flushed) + Accumulate(a, x).accumulator
         == Batches(a.flushed) + a.accumulator + [x]
  {
    hide Average;
    var b := Accumulate(a, x);
    var thisMinute := TruncateToMinute(x.at);
    if a.accumulator != [] && thisMinute != a.currentMinute {
      var f := Flush(Average(a.accumulator, a.currentMinute), a.accumulator);
      AverageKeepsMinute(a.accumulator, a.currentMinute);
      assert b.flushed == a.flushed + [f];
      assert b.flushed[..|a.flushed|] == a.flushed;
      assert Batches(b.flushed) == Batches(a.flushed) + a.accumulator;
    }
  }

  lemma AverageKeepsMinute(s: seq<Sample>, minute: Time)
    requires s != []
    ensures Average(s, minute).minute == minute
  {
  }

  lemma FeedAppend(samples: seq<Sample>, x: Sample)
    ensures Feed(samples + [x]) == Accumulate(Feed(samples), x)
  {
    assert (samples + [x])[..|samples|] == samples;
  }

  lemma {:induction false} FeedInvariant(samples: seq<Sample>)
    requires InOrder(samples)
    ensures Wellformed(Feed(samples))
    ensures Batches(Feed(samples).flushed) + Feed(samples).accumulator == samples
    ensures samples != [] ==> Feed(samples).currentMinute == TruncateToMinute(samples[|samples| - 1].at)
  {
    if samples != [] {
      hide Wellformed, Accumulate, Feed, Batches, TruncateToMinute;
      var init := samples[..|samples| - 1];
      var x := samples[|samples| - 1];
      FeedInvariant(init);
      assert samples == init + [x];
      FeedAppend(init, x);
      if init == [] {
        NothingFed(x);
      } else {
        assert init[|init| - 1] == samples[|init| - 1];
        assert samples[|init| - 1].at <= x.at;
        TruncateMonotone(init[|init| - 1].at, x.at);
      }
      AccumulateKeeps(Feed(init), x);
    }
  }

  lemma NothingFed(x: Sample)
    requires x.at >= MINUTE
    ensures TruncateToMinute(x.at) >= Feed([]).currentMinute
  {
  }

  lemma TruncateMonotone(a: Time, b: Time)
    requires a <= b
    ensures TruncateToMinute(a) <= TruncateToMinute(b)
  {
  }

  /** No sample is lost, doubled or reordered: the batches persisted so far,
      followed by the accumulator, are the samples. */
  lemma {:induction false} SamplesConserved(samples: seq<Sample>)
    requires InOrder(samples)
    ensures Batches(Feed(samples).flushed) + Feed(samples).accumulator == samples
  {
    FeedInvariant(samples);
  }

  /** Each batch is exactly one minute's average, and minutes strictly increase. */
  lemma {:induction false} MinutesIncrease(samples: seq<Sample>, i: nat, j: nat)
    requires InOrder(samples) && i < j < |Feed(samples).flushed|
    ensures OneMinute(Feed(samples).flushed[i]) && OneMinute(Feed(samples).flushed[j])
    ensures Feed(samples).flushed[i].reading.minute < Feed(samples).flushed[j].reading.minute
  {
    FeedInvariant(samples);
  }

  lemma AverageTimesCount(s: seq<Sample>, minute: Time)
    requires s != []
    ensures var r := Average(s, minute); var n := |s| as real; var t := TotalsOf(s);
            && r.pvWatts * n == t.pv as real && r.gridWatts * n == t.grid as real
            && r.loadWatts * n == t.load as real && r.surplusWatts * n == t.surplus as real
  {
    var t := TotalsOf(s);
    Divide(t.pv as real, |s| as real);
    Divide(t.grid as real, |s| as real);
    Divide(t.load as real, |s| as real);
    Divide(t.surplus as real, |s| as real);
  }

  lemma Divide(x: real, n: real)
    requires n != 0.0
    ensures (x / n) * n == x
  {
  }

  // ----- Sums over a run -----

  datatype Sums = Sums(pv: real, grid: real, load: real, surplus: real)

  function Plus(a: Sums, b: Sums): Sums {
    Sums(a.pv + b.pv, a.grid + b.grid, a.load + b.load, a.surplus + b.surplus)
  }

  function ExactTotals(s: seq<Sample>): Sums {
    var t := TotalsOf(s);
    Sums(t.pv as real, t.grid as real, t.load as real, t.surplus as real)
  }

  function Weighted(r: Reading, n: nat): Sums {
    Sums(r.pvWatts * n as real, r.gridWatts * n as real, r.loadWatts * n as real, r.surplusWatts * n as real)
  }

  /** Averages times counts, summed over the persisted readings. */
  function Persisted(flushed: seq<Flush>): Sums {
    if flushed == [] then Sums(0.0, 0.0, 0.0, 0.0)
    else
      var last := flushed[|flushed| - 1];
      Plus(Persisted(flushed[..|flushed| - 1]), Weighted(last.reading, |last.batch|))
  }

  lemma {:induction false} TotalsAppend(s: seq<Sample>, t: seq<Sample>)
    ensures ExactTotals(s + t) == Plus(ExactTotals(s), ExactTotals(t))
  {
    if t == [] {
      assert s + t == s;
    } else {
      TotalsAppend(s, t[..|t| - 1]);
      assert (s + t)[..|s + t| - 1] == s + t[..|t| - 1];
    }
  }

  lemma {:induction false} PersistedTotals(flushed: seq<Flush>)
    requires forall i :: 0 <= i < |flushed| ==> OneMinute(flushed[i])
    ensures Persisted(flushed) == ExactTotals(Batches(flushed))
  {
    if flushed != [] {
      hide OneMinute, ExactTotals;
      var init, last := flushed[..|flushed| - 1], flushed[|flushed| - 1];
      PersistedTotals(init);
      WeightedIsTotal(last);
      TotalsAppend(Batches(init), last.batch);
    } else {
      assert ExactTotals([]) == Sums(0.0, 0.0, 0.0, 0.0);
    }
  }

  lemma WeightedIsTotal(f: Flush)
    requires OneMinute(f)
    ensures Weighted(f.reading, |f.batch|) == ExactTotals(f.batch)
  {
    AverageTimesCount(f.batch, f.reading.minute);
  }

  /** No quantity is lost either: the persisted averages times their counts, with
      what is still gathered, sum to the samples. */
  lemma {:induction false} TotalsConserved(samples: seq<Sample>)
    requires InOrder(samples)
    ensures Plus(Persisted(Feed(samples).flushed), ExactTotals(Feed(samples).accumulator)) == ExactTotals(samples)
  {
    hide ExactTotals, Feed, OneMinute, Persisted;
    FeedInvariant(samples);
    PersistedTotals(Feed(samples).flushed);
    TotalsAppend(Batches(Feed(samples).flushed), Feed(samples).accumulator);
  }

  /** As PollPowerData computes it: what is exported is surplus. */
  predicate SurplusOfGrid(s: seq<Sample>) {
    forall x :: x in s ==> x.surplusWatts == Max(0, -x.gridWatts)
  }

  lemma {:induction false} SurplusTotal(s: seq<Sample>)
    requires SurplusOfGrid(s)
    ensures TotalsOf(s).surplus >= Max(0, -TotalsOf(s).grid)
  {
    if s != [] {
      var init := s[..|s| - 1];
      assert forall x :: x in init ==> x in s;
      SurplusTotal(init);
      assert s[|s| - 1] in s;
    }
  }

  /** Averaging is convex: the persisted surplus never understates the surplus
      of the persisted grid balance. */
  lemma SurplusAverageConvex(s: seq<Sample>, minute: Time)
    requires s != [] && SurplusOfGrid(s)
    ensures Average(s, minute).surplusWatts >= 0.0
    ensures Average(s, minute).surplusWatts >= -Average(s, minute).gridWatts
  {
    SurplusTotal(s);
    AverageTimesCount(s, minute);
    var r := Average(s, minute);
    var n := |s| as real;
    Scale(r.surplusWatts, 0.0, n);
    assert (-r.gridWatts) * n == -(r.gridWatts * n);
    Scale(r.surplusWatts, -r.gridWatts, n);
  }

  lemma Scale(x: real, y: real, n: real)
    requires n > 0.0 && x * n >= y * n
    ensures x >= y
  {
  }
}
