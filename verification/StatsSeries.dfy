/**
 * What the series and the headline of a statistics answer mean, said over the checks and their
 * instants.
 */
module StatsSeries {
  import opened Types
  import opened Stats
  import opened StatsReads

  // ---------- Buckets by instant ----------

  /** The instants of bucket i of 48: its stretch of the window, open-ended at both ends of the series. */
  predicate InBucket(at: int, since: int, width: nat, i: nat) {
    (i == 0 || since + i * width <= at) && (i == 47 || at < since + (i + 1) * width)
  }

  lemma Scales(a: int, b: int, width: nat)
    requires a <= b
    ensures a * width <= b * width
  {
    assert b * width - a * width == (b - a) * width;
  }

  lemma QuotientOrder(x: int, q: int, width: nat, i: int)
    requires width > 0 && q * width <= x < q * width + width
    ensures q >= i <==> x >= i * width
  {
    if q >= i {
      Scales(i, q, width);
    } else {
      Scales(q + 1, i, width);
      assert (q + 1) * width == q * width + width;
    }
  }

  lemma QuotientAtLeast(x: nat, width: nat, i: nat)
    requires width > 0
    ensures x / width >= i <==> x >= i * width
  {
    QuotientOrder(x, x / width, width, i);
  }

  lemma SlotLate(at: int, since: int, width: nat, i: nat)
    requires width > 0 && i < 48 && at >= since
    ensures Slot(at, since, width) == i <==> InBucket(at, since, width, i)
  {
    QuotientAtLeast(at - since, width, i);
    QuotientAtLeast(at - since, width, i + 1);
    QuotientAtLeast(at - since, width, 48);
  }

  lemma SlotEarly(at: int, since: int, width: nat, i: nat)
    requires width > 0 && i < 48 && at < since
    ensures Slot(at, since, width) == i <==> InBucket(at, since, width, i)
  {
    if i > 0 { Scales(1, i, width); }
    Scales(1, i + 1, width);
  }

  /** A sample goes to the bucket its instant falls in. */
  lemma SlotExact(at: int, since: int, width: nat, i: nat)
    requires width > 0 && i < 48
    ensures Slot(at, since, width) == i <==> InBucket(at, since, width, i)
  {
    if at >= since { SlotLate(at, since, width, i); } else { SlotEarly(at, since, width, i); }
  }

  // ---------- What a bucket collects ----------

  /** The instants of bucket i as a selection. */
  function Stretch(since: int, width: nat, i: nat): int -> bool { at => InBucket(at, since, width, i) }

  /** Sum and count of the samples taken at selected instants. */
  function PooledAt(samples: seq<Sample>, sel: int -> bool): Acc {
    if samples == [] then Acc(0, 0) else
    var last, acc := samples[|samples| - 1], PooledAt(samples[..|samples| - 1], sel);
    if sel(last.at) then Acc(acc.sum + last.sum, acc.count + last.count) else acc
  }

  lemma PooledAtSnoc(samples: seq<Sample>, s: Sample, sel: int -> bool)
    ensures var acc := PooledAt(samples, sel);
      PooledAt(samples + [s], sel) == if sel(s.at) then Acc(acc.sum + s.sum, acc.count + s.count) else acc
  {
    assert (samples + [s])[..|samples|] == samples;
  }

  lemma {:induction false} CollectedExact(samples: seq<Sample>, since: int, width: nat, i: nat)
    requires width > 0 && i < 48
    ensures Collected(samples, since, width, i) == PooledAt(samples, Stretch(since, width, i))
  {
    if samples != [] {
      CollectedExact(samples[..|samples| - 1], since, width, i);
      SlotExact(samples[|samples| - 1].at, since, width, i);
    }
  }

  /** A point at some instant with the mean of a non-empty accumulator. */
  predicate MeanAt(p: Point, acc: Acc, at: int) {
    acc.count > 0 && p.timestamp == at && p.avg * acc.count as real == acc.sum as real
  }

  /** The point of bucket i: at its middle, with the mean of what falls in it. */
  predicate IsPoint(p: Point, acc: Acc, since: int, width: nat, i: nat) {
    MeanAt(p, acc, since + i * width + width / 2)
  }

  lemma MeanExact(avg: real, acc: Acc)
    requires acc.count > 0
    ensures avg == acc.sum as real / acc.count as real <==> avg * acc.count as real == acc.sum as real
  {
  }

  lemma PointAdded(points: seq<Point>, acc: Acc, at: int, p: Point)
    ensures p in points + (if acc.count == 0 then [] else [Point(at, acc.sum as real / acc.count as real)]) <==>
            p in points || MeanAt(p, acc, at)
  {
    if acc.count > 0 { MeanExact(p.avg, acc); }
  }

  /** p is the point of what falls in bucket i. */
  predicate PointOf(samples: seq<Sample>, since: int, width: nat, i: nat, p: Point) {
    IsPoint(p, PooledAt(samples, Stretch(since, width, i)), since, width, i)
  }

  /** The points are those of the buckets that something falls in, and no others. */
  lemma {:induction false} PointsExact(samples: seq<Sample>, since: int, width: nat, n: nat, p: Point)
    requires width > 0 && n <= 48
    ensures p in PointsUpTo(samples, since, width, n) <==>
            exists i :: 0 <= i < n && PointOf(samples, since, width, i, p)
  {
    if n > 0 {
      PointsExact(samples, since, width, n - 1, p);
      LastPoint(samples, since, width, n, p);
      assert (exists i :: 0 <= i < n && PointOf(samples, since, width, i, p)) <==>
             (exists i :: 0 <= i < n - 1 && PointOf(samples, since, width, i, p))
             || PointOf(samples, since, width, n - 1, p);
    }
  }

  lemma LastPoint(samples: seq<Sample>, since: int, width: nat, n: nat, p: Point)
    requires width > 0 && 0 < n <= 48
    ensures p in PointsUpTo(samples, since, width, n) <==>
            p in PointsUpTo(samples, since, width, n - 1) || PointOf(samples, since, width, n - 1, p)
  {
    CollectedExact(samples, since, width, n - 1);
    PointsStep(samples, since, width, n, p);
  }

  lemma PointsStep(samples: seq<Sample>, since: int, width: nat, n: nat, p: Point)
    requires width > 0 && n > 0
    ensures p in PointsUpTo(samples, since, width, n) <==>
            || p in PointsUpTo(samples, since, width, n - 1)
            || IsPoint(p, Collected(samples, since, width, n - 1), since, width, n - 1)
  {
    PointAdded(PointsUpTo(samples, since, width, n - 1), Collected(samples, since, width, n - 1),
               since + (n - 1) * width + width / 2, p);
  }

  // ---------- The raw series ----------

  /** Sum and count of the latencies of checks at selected instants that did not find the target down. */
  function LatencyAt(rs: seq<CheckRow>, sel: int -> bool): Acc {
    if rs == [] then Acc(0, 0) else
    var last, acc := rs[|rs| - 1], LatencyAt(rs[..|rs| - 1], sel);
    if sel(last.at) && last.status != DOWN then Acc(acc.sum + last.latency, acc.count + 1) else acc
  }

  lemma {:induction false} RawPooled(rs: seq<CheckRow>, sel: int -> bool)
    ensures PooledAt(RawSamples(rs), sel) == LatencyAt(rs, sel)
  {
    if rs != [] {
      var init, last := rs[..|rs| - 1], rs[|rs| - 1];
      RawPooled(init, sel);
      if last.status != DOWN {
        PooledAtSnoc(RawSamples(init), Sample(last.at, last.latency, 1), sel);
      } else {
        assert RawSamples(rs) == RawSamples(init);
      }
    }
  }

  /** The width of the 48 buckets of a window, one second for an empty one. */
  function Width48(since: int, until: int): int { (if until <= since then 1_000_000_000 else until - since) / 48 }

  /** p is the mean latency of the measured checks in stretch i of the window, at its middle. */
  predicate CheckPoint(rs: seq<CheckRow>, since: int, width: nat, i: nat, p: Point) {
    IsPoint(p, LatencyAt(rs, Stretch(since, width, i)), since, width, i)
  }

  lemma WidthExact(since: int, until: int)
    ensures BucketWidth(since, until) == Width48(since, until)
    ensures until <= since || until >= since + 48 ==> Width48(since, until) > 0
  {
  }

  lemma CheckPointExact(rs: seq<CheckRow>, since: int, width: nat, i: nat, p: Point)
    ensures PointOf(RawSamples(rs), since, width, i, p) <==> CheckPoint(rs, since, width, i, p)
  {
    RawPooled(rs, Stretch(since, width, i));
  }

  /** The points of the raw series are exactly the means over stretches in which a check was measured. */
  lemma RawSeriesExact(rs: seq<CheckRow>, since: int, until: int, p: Point)
    requires until <= since || until >= since + 48
    ensures p in SeriesOf(RawSamples(rs), since, until) <==>
            exists i :: 0 <= i < 48 && CheckPoint(rs, since, Width48(since, until), i, p)
  {
    WidthExact(since, until);
    var width := BucketWidth(since, until);
    PointsExact(RawSamples(rs), since, width, 48, p);
    forall i: nat ensures PointOf(RawSamples(rs), since, width, i, p) <==> CheckPoint(rs, since, width, i, p) {
      CheckPointExact(rs, since, width, i, p);
    }
  }

  // ---------- The rollup series ----------

  /** The measured checks of the rows whose hour starts at a selected instant. */
  function RowsLatency(rows: seq<RollupRow>, sel: int -> bool): Acc {
    if rows == [] then Acc(0, 0) else
    var last, acc := rows[|rows| - 1], RowsLatency(rows[..|rows| - 1], sel);
    if last.latencyChecks == 0 || !sel(last.bucket) then acc
    else Acc(acc.sum + last.sumLatency, acc.count + last.latencyChecks)
  }

  lemma {:induction false} RollupPooled(rows: seq<RollupRow>, sel: int -> bool)
    ensures PooledAt(RollupSamples(rows), sel) == RowsLatency(rows, sel)
  {
    if rows != [] {
      var init, last := rows[..|rows| - 1], rows[|rows| - 1];
      RollupPooled(init, sel);
      if last.latencyChecks > 0 {
        PooledAtSnoc(RollupSamples(init), Sample(last.bucket, last.sumLatency, last.latencyChecks), sel);
      } else {
        assert RollupSamples(rows) == RollupSamples(init);
      }
    }
  }

  /** p is the mean latency of the rows whose hour starts in stretch i of the window, at its middle. */
  predicate RowPoint(rows: seq<RollupRow>, since: int, width: nat, i: nat, p: Point) {
    IsPoint(p, RowsLatency(rows, Stretch(since, width, i)), since, width, i)
  }

  lemma RowPointExact(rows: seq<RollupRow>, since: int, width: nat, i: nat, p: Point)
    ensures PointOf(RollupSamples(rows), since, width, i, p) <==> RowPoint(rows, since, width, i, p)
  {
    RollupPooled(rows, Stretch(since, width, i));
  }

  /** The points of the rollup series are exactly the means over stretches in which a measured hour starts. */
  lemma RollupSeriesExact(rows: seq<RollupRow>, since: int, until: int, p: Point)
    requires until <= since || until >= since + 48
    ensures p in SeriesOf(RollupSamples(rows), since, until) <==>
            exists i :: 0 <= i < 48 && RowPoint(rows, since, Width48(since, until), i, p)
  {
    WidthExact(since, until);
    var width := BucketWidth(since, until);
    PointsExact(RollupSamples(rows), since, width, 48, p);
    forall i: nat ensures PointOf(RollupSamples(rows), since, width, i, p) <==> RowPoint(rows, since, width, i, p) {
      RowPointExact(rows, since, width, i, p);
    }
  }

  // ---------- The headline ----------

  /** Least, greatest and mean of some latencies, zeros when there are none. */
  predicate Describes(h: Headline, xs: seq<int>) {
    if xs == [] then h.min == 0 && h.max == 0 && h.avg == 0.0
    else IsLeast(h.min, xs) && IsGreatest(h.max, xs) && h.avg * |xs| as real == Sum(xs) as real
  }

  lemma SummaryDescribes(s: Summary, xs: seq<int>)
    requires Means(s, xs) && Proper(s)
    ensures Describes(HeadlineOf(s), xs)
  {
    if s.count > 0 { MeanExact(HeadlineOf(s).avg, Acc(s.sum, s.count)); }
  }

  /** The headline counts all checks and describes the measured latencies. */
  lemma HeadlineExact(rs: seq<CheckRow>)
    ensures HeadlineOf(RawSummary(rs)).total == |rs| && Describes(HeadlineOf(RawSummary(rs)), Latencies(rs))
  {
    RawSummaryMeans(rs);
    SummaryDescribes(RawSummary(rs), Latencies(rs));
  }

  /** The measured latencies are those of all checks that did not find the target down. */
  lemma {:induction false} LatenciesExact(rs: seq<CheckRow>)
    ensures LatencyAt(rs, _ => true) == Acc(Sum(Latencies(rs)), |Latencies(rs)|)
  {
    if rs != [] {
      var init, last := rs[..|rs| - 1], rs[|rs| - 1];
      LatenciesExact(init);
      var xs := Latencies(rs);
      if last.status != DOWN { assert xs[..|xs| - 1] == Latencies(init); } else { assert xs == Latencies(init); }
    }
  }
}
