/** Downsampling of usage snapshots: SampleAPIUsage of internal/storage/sqlite.go,
    with its query as a pass over the rows in (timestamp, id) order. */
module UsageSampling {
  import opened Prelude
  import opened ApiUsage

  /** A stored snapshot; timestamps are in seconds. */
  datatype Snapshot = Snapshot(id: int, at: int, counts: Counts)

  predicate Before(a: Snapshot, b: Snapshot) {
    a.at < b.at || (a.at == b.at && a.id < b.id)
  }

  predicate Ascending(rows: seq<Snapshot>) {
    forall i, j :: 0 <= i < j < |rows| ==> Before(rows[i], rows[j])
  }

  /** The rows of a time range, as a filter. */
  function Within(rows: seq<Snapshot>, from: int, to: int): seq<Snapshot> {
    if rows == [] then []
    else
      var last := rows[|rows| - 1];
      Within(rows[..|rows| - 1], from, to) + (if from <= last.at <= to then [last] else [])
  }

  /** How the rows are partitioned: from which second on, into buckets of how many. */
  datatype Buckets = Buckets(first: int, secs: int) {
    predicate Valid() {
      secs >= 1
    }

    function Of(r: Snapshot): int
      requires Valid()
    {
      (r.at - first) / secs
    }
  }

  function BucketsFor(rows: seq<Snapshot>, points: int): Buckets
    requires rows != [] && points >= 1
  {
    Buckets(rows[0].at, (rows[|rows| - 1].at - rows[0].at) / points + 1)
  }

  /** `r` is the newest row of its bucket. */
  ghost predicate IsNewest(rows: seq<Snapshot>, bs: Buckets, r: Snapshot)
    requires bs.Valid()
  {
    r in rows && forall s :: s in rows && bs.Of(s) == bs.Of(r) ==> s == r || Before(s, r)
  }

  /** What the query selects: the newest row of every bucket, in order. */
  ghost predicate IsSelection(rows: seq<Snapshot>, bs: Buckets, out: seq<Snapshot>)
    requires bs.Valid()
  {
    Ascending(out) && forall r :: r in out <==> IsNewest(rows, bs, r)
  }

  // ----- Integer division -----

  lemma PositiveFactor(a: int, d: int)
    requires d >= 1 && a * d > 0
    ensures a > 0
  {
  }

  lemma DivMonotone(x: int, y: int, d: int)
    requires d >= 1 && x <= y
    ensures x / d <= y / d
  {
    assert (y / d + 1 - x / d) * d == (y / d) * d + d - (x / d) * d;
    PositiveFactor(y / d + 1 - x / d, d);
  }

  lemma Division(x: int, d: int)
    requires d >= 1
    ensures (x / d) * d <= x < (x / d) * d + d
  {
  }

  /** An offset within the span falls into one of `points` buckets. */
  lemma BucketsFit(span: int, points: int, offset: int)
    requires points >= 1 && 0 <= offset <= span
    ensures span / points + 1 >= 1
    ensures 0 <= offset / (span / points + 1) < points
  {
    DivMonotone(0, span, points);
    var secs := span / points + 1;
    DivMonotone(0, offset, secs);
    Division(span, points);
    Division(offset, secs);
    FewerBuckets(span, points, secs, offset / secs);
  }

  lemma FewerBuckets(span: int, points: int, secs: int, k: int)
    requires secs >= 1 && span < (secs - 1) * points + points && k * secs <= span
    ensures k < points
  {
    assert (points - k) * secs == (secs - 1) * points + points - k * secs;
    PositiveFactor(points - k, secs);
  }

  lemma BucketsMonotone(bs: Buckets, a: Snapshot, b: Snapshot)
    requires bs.Valid() && a.at <= b.at
    ensures bs.Of(a) <= bs.Of(b)
  {
    DivMonotone(a.at - bs.first, b.at - bs.first, bs.secs);
  }

  lemma SameBucketNear(bs: Buckets, a: Snapshot, b: Snapshot)
    requires bs.Valid() && bs.Of(a) == bs.Of(b)
    ensures b.at < a.at + bs.secs
  {
    var k := bs.Of(a);
    assert k * bs.secs <= a.at - bs.first;
    assert b.at - bs.first < k * bs.secs + bs.secs;
  }

  // ----- The pass over the rows -----

  method SampleAPIUsage(stored: seq<Snapshot>, from: int, to: int, maxPoints: int) returns (out: seq<Snapshot>)
    requires Ascending(stored)
    ensures var rows := Within(stored, from, to);
            if rows == [] then out == [] else Samples(rows, Max(maxPoints, 1), out)
  {
    hide IsSelection, Within, Ascending, Buckets.Of;
    var points := if maxPoints < 1 then 1 else maxPoints;
    var rows := Within(stored, from, to);
    WithinAscending(stored, from, to);
    out := [];
    if |rows| == 0 {
      return;
    }
    InOrder(rows, 0);
    BucketsFit(rows[|rows| - 1].at - rows[0].at, points, 0);
    var bs := BucketsFor(rows, points);
    NothingSelected(bs);
    for i := 0 to |rows|
      invariant IsSelection(rows[..i], bs, out)
      invariant i > 0 ==> |out| > 0 && out[|out| - 1] == rows[i - 1]
    {
      assert rows[..i + 1] == rows[..i] + [rows[i]];
      Passed(rows, i);
      SelectNext(rows[..i], bs, out, rows[i]);
      if |out| > 0 && bs.Of(out[|out| - 1]) == bs.Of(rows[i]) {
        out := out[..|out| - 1] + [rows[i]];
      } else {
        out := out + [rows[i]];
      }
    }
    assert rows[..|rows|] == rows;
  }

  lemma NothingSelected(bs: Buckets)
    requires bs.Valid()
    ensures IsSelection([], bs, [])
  {
  }

  lemma Passed(rows: seq<Snapshot>, i: nat)
    requires Ascending(rows) && i < |rows|
    ensures forall r :: r in rows[..i] ==> Before(r, rows[i])
  {
  }

  function Extended(bs: Buckets, out: seq<Snapshot>, row: Snapshot): seq<Snapshot>
    requires bs.Valid()
  {
    if |out| > 0 && bs.Of(out[|out| - 1]) == bs.Of(row) then out[..|out| - 1] + [row] else out + [row]
  }

  /** One row more: it replaces the selected row of its bucket, if there is one. */
  lemma SelectNext(rows: seq<Snapshot>, bs: Buckets, out: seq<Snapshot>, row: Snapshot)
    requires bs.Valid() && IsSelection(rows, bs, out)
    requires forall r :: r in rows ==> Before(r, row)
    ensures IsSelection(rows + [row], bs, Extended(bs, out, row))
  {
    var out' := Extended(bs, out, row);
    forall r
      ensures r in out' <==> IsNewest(rows + [row], bs, r)
    {
      NewestNext(rows, bs, row, r);
      ExtendedContents(rows, bs, out, row, r);
    }
    ExtendedAscending(rows, bs, out, row);
  }

  lemma NewestNext(rows: seq<Snapshot>, bs: Buckets, row: Snapshot, r: Snapshot)
    requires bs.Valid() && forall s :: s in rows ==> Before(s, row)
    ensures IsNewest(rows + [row], bs, r) <==> r == row || (IsNewest(rows, bs, r) && bs.Of(r) != bs.Of(row))
  {
    assert row in rows + [row];
    assert forall s :: s in rows + [row] <==> s in rows || s == row;
  }

  lemma ExtendedContents(rows: seq<Snapshot>, bs: Buckets, out: seq<Snapshot>, row: Snapshot, r: Snapshot)
    requires bs.Valid() && IsSelection(rows, bs, out)
    requires forall s :: s in rows ==> Before(s, row)
    ensures r in Extended(bs, out, row) <==> r == row || (r in out && bs.Of(r) != bs.Of(row))
  {
    if out != [] {
      var init, last := out[..|out| - 1], out[|out| - 1];
      assert last in out && IsNewest(rows, bs, last);
      assert r in out <==> r in init || r == last;
      if r in init {
        assert r in out && IsNewest(rows, bs, r);
        assert Before(r, last);
        BucketsMonotone(bs, r, last);
        BucketsMonotone(bs, last, row);
        assert bs.Of(r) != bs.Of(last);
      }
    }
  }

  lemma ExtendedAscending(rows: seq<Snapshot>, bs: Buckets, out: seq<Snapshot>, row: Snapshot)
    requires bs.Valid() && IsSelection(rows, bs, out)
    requires forall s :: s in rows ==> Before(s, row)
    ensures Ascending(Extended(bs, out, row))
  {
    forall k | 0 <= k < |out|
      ensures Before(out[k], row)
    {
      assert out[k] in out && IsNewest(rows, bs, out[k]);
    }
  }

  lemma {:induction false} WithinAscending(rows: seq<Snapshot>, from: int, to: int)
    requires Ascending(rows)
    ensures Ascending(Within(rows, from, to))
    ensures forall r :: r in Within(rows, from, to) <==> r in rows && from <= r.at <= to
  {
    if rows != [] {
      var init := rows[..|rows| - 1];
      WithinAscending(init, from, to);
      assert forall r :: r in rows <==> r in init || r == rows[|rows| - 1];
      assert forall r :: r in init ==> Before(r, rows[|rows| - 1]);
    }
  }

  // ----- What the sample guarantees -----

  /** `out` samples the ascending `rows` with a budget of `points`. */
  ghost predicate Samples(rows: seq<Snapshot>, points: int, out: seq<Snapshot>) {
    && rows != [] && points >= 1 && Ascending(rows)
    && BucketsFor(rows, points).Valid()
    && IsSelection(rows, BucketsFor(rows, points), out)
  }

  lemma InOrder(rows: seq<Snapshot>, i: nat)
    requires Ascending(rows) && i < |rows|
    ensures rows[0].at <= rows[i].at <= rows[|rows| - 1].at
  {
    if i > 0 {
      assert Before(rows[0], rows[i]);
    }
    if i < |rows| - 1 {
      assert Before(rows[i], rows[|rows| - 1]);
    }
  }

  lemma BucketInRange(rows: seq<Snapshot>, points: int, r: Snapshot)
    requires rows != [] && points >= 1 && Ascending(rows) && r in rows
    ensures BucketsFor(rows, points).Valid() && 0 <= BucketsFor(rows, points).Of(r) < points
  {
    var i: nat :| i < |rows| && rows[i] == r;
    InOrder(rows, i);
    BucketsFit(rows[|rows| - 1].at - rows[0].at, points, r.at - rows[0].at);
  }

  /** At most `points` rows come back. */
  lemma SampleBounded(rows: seq<Snapshot>, points: int, out: seq<Snapshot>)
    requires Samples(rows, points, out)
    ensures |out| <= points
  {
    if |out| > 0 {
      var bs := BucketsFor(rows, points);
      assert forall k :: 0 <= k < |out| ==> IsNewest(rows, bs, out[k]);
      BucketInRange(rows, points, out[0]);
      BucketInRange(rows, points, out[|out| - 1]);
      BucketsCount(rows, bs, out, |out| - 1);
    }
  }

  /** The k-th selected row lies at least k buckets in. */
  lemma {:induction false} BucketsCount(rows: seq<Snapshot>, bs: Buckets, out: seq<Snapshot>, k: nat)
    requires bs.Valid() && IsSelection(rows, bs, out) && k < |out| && bs.Of(out[0]) >= 0
    ensures bs.Of(out[k]) >= k
  {
    if k > 0 {
      BucketsCount(rows, bs, out, k - 1);
      assert Before(out[k - 1], out[k]);
      BucketsMonotone(bs, out[k - 1], out[k]);
      assert IsNewest(rows, bs, out[k - 1]) && IsNewest(rows, bs, out[k]);
    }
  }

  /** The last of them is the overall latest. */
  lemma SampleEndsWithLatest(rows: seq<Snapshot>, points: int, out: seq<Snapshot>)
    requires Samples(rows, points, out)
    ensures out != [] && out[|out| - 1] == rows[|rows| - 1]
  {
    var latest := rows[|rows| - 1];
    LatestIsLast(rows);
    assert IsNewest(rows, BucketsFor(rows, points), latest);
    assert latest in out;
    var last := out[|out| - 1];
    assert last in out && last in rows;
    var k :| 0 <= k < |out| && out[k] == latest;
  }

  lemma LatestIsLast(rows: seq<Snapshot>)
    requires Ascending(rows) && rows != []
    ensures forall s :: s in rows ==> s == rows[|rows| - 1] || Before(s, rows[|rows| - 1])
  {
  }

  /** Every stored row in range is followed by a returned one less than a bucket of
      floor(span/points) + 1 seconds later. */
  lemma {:induction false} SampleDense(rows: seq<Snapshot>, points: int, out: seq<Snapshot>, i: nat)
    requires Samples(rows, points, out) && i < |rows|
    ensures exists s :: s in out && (s == rows[i] || Before(rows[i], s))
                        && s.at < rows[i].at + (rows[|rows| - 1].at - rows[0].at) / points + 1
  {
    var bs := BucketsFor(rows, points);
    var j := NewestFrom(rows, bs, i);
    SameBucketNear(bs, rows[i], rows[j]);
    assert rows[j] in out;
  }

  lemma NewestFrom(rows: seq<Snapshot>, bs: Buckets, i: nat) returns (j: nat)
    requires Ascending(rows) && bs.Valid() && i < |rows|
    ensures i <= j < |rows| && bs.Of(rows[j]) == bs.Of(rows[i]) && IsNewest(rows, bs, rows[j])
    decreases |rows| - i
  {
    if i + 1 < |rows| && bs.Of(rows[i + 1]) == bs.Of(rows[i]) {
      j := NewestFrom(rows, bs, i + 1);
    } else {
      j := i;
      forall s | s in rows && bs.Of(s) == bs.Of(rows[i])
        ensures s == rows[i] || Before(s, rows[i])
      {
        var k :| 0 <= k < |rows| && rows[k] == s;
        if k > i {
          BucketsMonotone(bs, rows[i], rows[i + 1]);
          if k > i + 1 {
            BucketsMonotone(bs, rows[i + 1], rows[k]);
          }
        }
      }
    }
  }

  /** Counters that never decrease in the store never decrease in the sample. */
  lemma SampleMonotone(rows: seq<Snapshot>, points: int, out: seq<Snapshot>, i: nat, j: nat)
    requires Samples(rows, points, out) && i < j < |out|
    requires forall k, l :: 0 <= k < l < |rows| ==> Leq(rows[k].counts, rows[l].counts)
    ensures Leq(out[i].counts, out[j].counts)
  {
    assert out[i] in out && out[j] in out && Before(out[i], out[j]);
    var k :| 0 <= k < |rows| && rows[k] == out[i];
    var l :| 0 <= l < |rows| && rows[l] == out[j];
  }

  /** The selection is determined by what it must contain. */
  lemma {:induction false} SampleUnique(rows: seq<Snapshot>, bs: Buckets, a: seq<Snapshot>, b: seq<Snapshot>)
    requires bs.Valid() && IsSelection(rows, bs, a) && IsSelection(rows, bs, b)
    ensures a == b
  {
    AscendingUnique(a, b);
  }

  lemma Inhabited(b: seq<Snapshot>)
    ensures b != [] ==> exists r :: r in b
  {
    if b != [] {
      assert b[0] in b;
    }
  }

  lemma {:induction false} AscendingUnique(a: seq<Snapshot>, b: seq<Snapshot>)
    requires Ascending(a) && Ascending(b) && forall r :: r in a <==> r in b
    ensures a == b
  {
    if a != [] {
      assert a[|a| - 1] in b;
      var x, y := a[|a| - 1], b[|b| - 1];
      assert y in a;
      assert x == y;
      var a', b' := a[..|a| - 1], b[..|b| - 1];
      forall r
        ensures r in a' <==> r in b'
      {
        assert r in a <==> r in a' || r == x;
        assert r in b <==> r in b' || r == y;
      }
      AscendingUnique(a', b');
    } else {
      Inhabited(b);
    }
  }
}
