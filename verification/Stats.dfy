/**
 * Latency statistics of a monitor (internal/database/bun/store.go): the read over raw checks and
 * the read over hourly rollups, as loops over accumulators, and why the two agree.
 * Times are nanoseconds, averages are exact.
 */
module Stats {
  import opened Types

  datatype CheckRow = CheckRow(region: Region, status: Status, latency: int, at: int)

  datatype RollupRow = RollupRow(
    region: Region, bucket: int, checks: nat, latencyChecks: nat, sumLatency: int, minLatency: int, maxLatency: int)

  /** Only a check that got an answer timed a round trip. */
  predicate Measured(s: Status) { s != DOWN }

  // ---------- Summaries ----------

  datatype Summary = Summary(total: nat, count: nat, sum: int, min: int, max: int)

  const NO_CHECKS := Summary(0, 0, 0, 0, 0)

  predicate Proper(s: Summary) {
    s.count <= s.total && (s.count == 0 ==> s.sum == 0 && s.min == 0 && s.max == 0) && s.min <= s.max
  }

  function Lesser(a: int, b: int): int { if a < b then a else b }
  function Greater(a: int, b: int): int { if a > b then a else b }

  /** Two samples pooled. */
  function Merge(a: Summary, b: Summary): Summary {
    Summary(a.total + b.total, a.count + b.count, a.sum + b.sum,
            if a.count == 0 then b.min else if b.count == 0 then a.min else Lesser(a.min, b.min),
            if a.count == 0 then b.max else if b.count == 0 then a.max else Greater(a.max, b.max))
  }

  function One(row: CheckRow): Summary {
    if Measured(row.status) then Summary(1, 1, row.latency, row.latency, row.latency) else Summary(1, 0, 0, 0, 0)
  }

  function RawSummary(rs: seq<CheckRow>): (s: Summary)
    ensures Proper(s) && s.total == |rs|
  {
    if rs == [] then NO_CHECKS else Merge(RawSummary(rs[..|rs| - 1]), One(rs[|rs| - 1]))
  }

  function OneRollup(row: RollupRow): Summary {
    if row.latencyChecks == 0 then Summary(row.checks, 0, 0, 0, 0)
    else Summary(row.checks, row.latencyChecks, row.sumLatency, row.minLatency, row.maxLatency)
  }

  function RollupSummary(rows: seq<RollupRow>): Summary {
    if rows == [] then NO_CHECKS else Merge(RollupSummary(rows[..|rows| - 1]), OneRollup(rows[|rows| - 1]))
  }

  // ---------- What a summary means ----------

  function Latencies(rs: seq<CheckRow>): seq<int> {
    if rs == [] then [] else
    Latencies(rs[..|rs| - 1]) + (if Measured(rs[|rs| - 1].status) then [rs[|rs| - 1].latency] else [])
  }

  function Sum(xs: seq<int>): int {
    if xs == [] then 0 else Sum(xs[..|xs| - 1]) + xs[|xs| - 1]
  }

  predicate IsLeast(x: int, xs: seq<int>) { x in xs && forall y :: y in xs ==> x <= y }
  predicate IsGreatest(x: int, xs: seq<int>) { x in xs && forall y :: y in xs ==> y <= x }

  predicate Means(s: Summary, xs: seq<int>) {
    && s.count == |xs| && s.sum == Sum(xs)
    && (xs != [] ==> IsLeast(s.min, xs) && IsGreatest(s.max, xs))
  }

  lemma MeansSnoc(s: Summary, xs: seq<int>, x: int)
    requires Means(s, xs)
    ensures Means(Merge(s, Summary(1, 1, x, x, x)), xs + [x])
  {
    assert (xs + [x])[..|xs|] == xs;
    assert forall y :: y in xs + [x] <==> y in xs || y == x;
  }

  /** A raw summary is the count, sum, least and greatest of the measured latencies. */
  lemma {:induction false} RawSummaryMeans(rs: seq<CheckRow>)
    ensures Means(RawSummary(rs), Latencies(rs))
  {
    if rs != [] {
      var init, last := rs[..|rs| - 1], rs[|rs| - 1];
      RawSummaryMeans(init);
      if Measured(last.status) {
        MeansSnoc(RawSummary(init), Latencies(init), last.latency);
      } else {
        assert Latencies(rs) == Latencies(init);
      }
    }
  }

  // ---------- Grouping and order do not matter ----------

  lemma MergeAssociative(a: Summary, b: Summary, c: Summary)
    ensures Merge(Merge(a, b), c) == Merge(a, Merge(b, c))
  {
  }

  lemma {:induction false} RawSummaryAppends(a: seq<CheckRow>, b: seq<CheckRow>)
    ensures RawSummary(a + b) == Merge(RawSummary(a), RawSummary(b))
    decreases |b|
  {
    if b == [] {
      assert a + b == a;
    } else {
      var init, last := b[..|b| - 1], b[|b| - 1];
      assert (a + b)[..|a + b| - 1] == a + init;
      RawSummaryAppends(a, init);
      MergeAssociative(RawSummary(a), RawSummary(init), One(last));
    }
  }

  lemma RawSummarySingle(row: CheckRow)
    ensures RawSummary([row]) == One(row)
  {
    assert [row][..0] == [];
  }

  /** An element of a permutation can be taken out of both sides. */
  lemma TakeOut(a: seq<CheckRow>, b: seq<CheckRow>) returns (i: nat)
    requires a != [] && multiset(a) == multiset(b)
    ensures i < |b| && b[i] == a[|a| - 1] && multiset(a[..|a| - 1]) == multiset(b[..i] + b[i + 1..])
  {
    var last := a[|a| - 1];
    assert a == a[..|a| - 1] + [last];
    assert last in multiset(b);
    i :| 0 <= i < |b| && b[i] == last;
    assert b == b[..i] + [last] + b[i + 1..];
    assert multiset(a[..|a| - 1]) == multiset(a) - multiset{last};
    assert multiset(b[..i] + b[i + 1..]) == multiset(b) - multiset{last};
  }

  lemma MergeSwaps(a: Summary, x: Summary, b: Summary)
    requires Proper(a) && Proper(x) && Proper(b)
    ensures Merge(Merge(a, x), b) == Merge(Merge(a, b), x)
  {
  }

  /** The order in which checks are read does not matter. */
  lemma {:induction false} RawSummaryPermutes(a: seq<CheckRow>, b: seq<CheckRow>)
    requires multiset(a) == multiset(b)
    ensures RawSummary(a) == RawSummary(b)
    decreases |a|
  {
    if a == [] {
      assert |multiset(b)| == 0;
    } else {
      var i := TakeOut(a, b);
      var last, front, back := b[i], b[..i], b[i + 1..];
      RawSummaryPermutes(a[..|a| - 1], front + back);
      assert b == front + [last] + back;
      RawSummaryAppends(front, back);
      RawSummaryAppends(front, [last]);
      RawSummaryAppends(front + [last], back);
      RawSummarySingle(last);
      MergeSwaps(RawSummary(front), One(last), RawSummary(back));
    }
  }

  // ---------- Rollups ----------

  function CountOf(group: seq<CheckRow>, status: Status): nat {
    if group == [] then 0 else
    CountOf(group[..|group| - 1], status) + if group[|group| - 1].status == status then 1 else 0
  }

  /**
   * The aggregates of maintenance.refresh_rollups: every check counted, the UP and DEGRADED ones
   * measured, sum, least and greatest of the measured latencies, zeros when there are none.
   */
  predicate Aggregates(row: RollupRow, g: Group) {
    var xs := Latencies(g.checks);
    && row.region == g.region && row.bucket == g.bucket
    && row.checks == |g.checks| && row.latencyChecks == CountOf(g.checks, UP) + CountOf(g.checks, DEGRADED)
    && row.sumLatency == Sum(xs)
    && (if xs == [] then row.minLatency == 0 && row.maxLatency == 0
        else IsLeast(row.minLatency, xs) && IsGreatest(row.maxLatency, xs))
  }

  lemma {:induction false} MeasuredCount(group: seq<CheckRow>)
    ensures |Latencies(group)| == CountOf(group, UP) + CountOf(group, DEGRADED)
  {
    if group != [] { MeasuredCount(group[..|group| - 1]); }
  }

  lemma FiguresUnique(s: Summary, xs: seq<int>, sum: int, least: int, greatest: int)
    requires Means(s, xs) && Proper(s)
    ensures (sum == Sum(xs) && (if xs == [] then least == 0 && greatest == 0
                                else IsLeast(least, xs) && IsGreatest(greatest, xs))) <==>
            sum == s.sum && least == s.min && greatest == s.max
  {
  }

  /** The SQL aggregates of a group are exactly the fold that the raw path computes. */
  lemma AggregatesExact(row: RollupRow, g: Group)
    ensures Aggregates(row, g) <==> row == RollupOf(g.region, g.bucket, g.checks)
  {
    MeasuredCount(g.checks);
    RawSummaryMeans(g.checks);
    FiguresUnique(RawSummary(g.checks), Latencies(g.checks), row.sumLatency, row.minLatency, row.maxLatency);
  }

  predicate AllAggregate(rows: seq<RollupRow>, groups: seq<Group>) {
    |rows| == |groups| && forall i :: 0 <= i < |rows| ==> Aggregates(rows[i], groups[i])
  }

  lemma {:induction false} AllAggregateIsFold(rows: seq<RollupRow>, groups: seq<Group>)
    requires AllAggregate(rows, groups)
    ensures rows == Rollups(groups)
    decreases |rows|
  {
    if rows != [] {
      var n := |rows| - 1;
      AllAggregateIsFold(rows[..n], groups[..n]);
      AggregatesExact(rows[n], groups[n]);
      assert rows == rows[..n] + [rows[n]];
    }
  }

  /** The row that the fold of a group amounts to. */
  function RollupOf(region: Region, bucket: int, group: seq<CheckRow>): RollupRow {
    var s := RawSummary(group);
    RollupRow(region, bucket, s.total, s.count, s.sum, s.min, s.max)
  }

  datatype Group = Group(region: Region, bucket: int, checks: seq<CheckRow>)

  function Rollups(groups: seq<Group>): seq<RollupRow> {
    if groups == [] then [] else
    var g := groups[|groups| - 1];
    Rollups(groups[..|groups| - 1]) + [RollupOf(g.region, g.bucket, g.checks)]
  }

  function Flatten(groups: seq<Group>): seq<CheckRow> {
    if groups == [] then [] else Flatten(groups[..|groups| - 1]) + groups[|groups| - 1].checks
  }

  lemma {:induction false} RollupSummaryIsRaw(groups: seq<Group>)
    ensures RollupSummary(Rollups(groups)) == RawSummary(Flatten(groups))
  {
    if groups != [] {
      var init, g := groups[..|groups| - 1], groups[|groups| - 1];
      RollupSummaryIsRaw(init);
      RawSummaryAppends(Flatten(init), g.checks);
      var rows := Rollups(groups);
      assert rows[..|rows| - 1] == Rollups(init);
    }
  }

  /** The figures at the head of a statistics answer. */
  datatype Headline = Headline(total: nat, min: int, max: int, avg: real)

  function HeadlineOf(s: Summary): Headline {
    Headline(s.total, s.min, s.max, if s.count == 0 then 0.0 else s.sum as real / s.count as real)
  }

  /** Any grouping of the checks into rollup rows, in any order, gives the figures of the raw checks. */
  lemma RollupsAgreeWithRaw(rows: seq<RollupRow>, groups: seq<Group>, rs: seq<CheckRow>)
    requires AllAggregate(rows, groups) && multiset(rs) == multiset(Flatten(groups))
    ensures HeadlineOf(RollupSummary(rows)) == HeadlineOf(RawSummary(rs))
  {
    AllAggregateIsFold(rows, groups);
    RollupSummaryIsRaw(groups);
    RawSummaryPermutes(rs, Flatten(groups));
  }

  // ---------- The 48-bucket series ----------

  const STAT_BUCKETS: nat := 48
  const NANOS_PER_SECOND: int := 1_000_000_000

  /** A weighted latency sample: one measured check, or one rollup row with measured checks. */
  datatype Sample = Sample(at: int, sum: int, count: nat)

  datatype Acc = Acc(sum: int, count: nat)

  datatype Point = Point(timestamp: int, avg: real)

  function RawSamples(rs: seq<CheckRow>): seq<Sample> {
    if rs == [] then [] else
    var last := rs[|rs| - 1];
    RawSamples(rs[..|rs| - 1]) + (if Measured(last.status) then [Sample(last.at, last.latency, 1)] else [])
  }

  function RollupSamples(rows: seq<RollupRow>): seq<Sample> {
    if rows == [] then [] else
    var last := rows[|rows| - 1];
    RollupSamples(rows[..|rows| - 1]) +
      (if last.latencyChecks > 0 then [Sample(last.bucket, last.sumLatency, last.latencyChecks)] else [])
  }

  function BucketWidth(since: int, until: int): nat {
    (if until - since <= 0 then NANOS_PER_SECOND else until - since) / STAT_BUCKETS
  }

  function Slot(at: int, since: int, width: nat): nat
    requires width > 0
    ensures Slot(at, since, width) < STAT_BUCKETS
  {
    var idx := TruncDiv(at - since, width);
    if idx < 0 then 0 else if idx >= STAT_BUCKETS then STAT_BUCKETS - 1 else idx
  }

  /** What bucket i collects. */
  function Collected(samples: seq<Sample>, since: int, width: nat, i: nat): Acc
    requires width > 0
  {
    if samples == [] then Acc(0, 0) else
    var last := samples[|samples| - 1];
    var acc := Collected(samples[..|samples| - 1], since, width, i);
    if Slot(last.at, since, width) == i then Acc(acc.sum + last.sum, acc.count + last.count) else acc
  }

  /** The points of the first n buckets; empty buckets have none. */
  function PointsUpTo(samples: seq<Sample>, since: int, width: nat, n: nat): seq<Point>
    requires width > 0
  {
    if n == 0 then [] else
    var acc := Collected(samples, since, width, n - 1);
    PointsUpTo(samples, since, width, n - 1) +
      (if acc.count == 0 then [] else [Point(since + (n - 1) * width + width / 2, acc.sum as real / acc.count as real)])
  }

  function Pooled(samples: seq<Sample>): Acc {
    if samples == [] then Acc(0, 0) else
    var last := samples[|samples| - 1];
    var acc := Pooled(samples[..|samples| - 1]);
    Acc(acc.sum + last.sum, acc.count + last.count)
  }

  function CollectedUpTo(samples: seq<Sample>, since: int, width: nat, n: nat): Acc
    requires width > 0
  {
    if n == 0 then Acc(0, 0) else
    var acc, rest := Collected(samples, since, width, n - 1), CollectedUpTo(samples, since, width, n - 1);
    Acc(rest.sum + acc.sum, rest.count + acc.count)
  }

  lemma {:induction false} CollectedUpToAppends(samples: seq<Sample>, since: int, width: nat, n: nat)
    requires width > 0 && samples != []
    ensures var init, last := samples[..|samples| - 1], samples[|samples| - 1];
      var rest := CollectedUpTo(init, since, width, n);
      CollectedUpTo(samples, since, width, n) ==
        if Slot(last.at, since, width) < n then Acc(rest.sum + last.sum, rest.count + last.count) else rest
  {
    if n > 0 { CollectedUpToAppends(samples, since, width, n - 1); }
  }

  lemma {:induction false} CollectedNothing(since: int, width: nat, n: nat)
    requires width > 0
    ensures CollectedUpTo([], since, width, n) == Acc(0, 0)
  {
    if n > 0 { CollectedNothing(since, width, n - 1); }
  }

  /** The 48 buckets together hold every sample exactly once. */
  lemma {:induction false} BucketsConserve(samples: seq<Sample>, since: int, width: nat)
    requires width > 0
    ensures CollectedUpTo(samples, since, width, STAT_BUCKETS) == Pooled(samples)
  {
    if samples == [] {
      CollectedNothing(since, width, STAT_BUCKETS);
    } else {
      BucketsConserve(samples[..|samples| - 1], since, width);
      CollectedUpToAppends(samples, since, width, STAT_BUCKETS);
    }
  }

  /** Timestamps strictly increase and stay inside the bucket they summarise. */
  lemma {:induction false} PointsIncrease(samples: seq<Sample>, since: int, width: nat, n: nat)
    requires width > 0
    ensures var points := PointsUpTo(samples, since, width, n);
      |points| <= n && IncreasingWithin(points, since, since + n * width)
  {
    if n > 0 {
      PointsIncrease(samples, since, width, n - 1);
      var start, points := since + (n - 1) * width, PointsUpTo(samples, since, width, n - 1);
      assert start + width == since + n * width;
      var acc := Collected(samples, since, width, n - 1);
      if acc.count > 0 {
        PointAppended(points, since, start, width, acc.sum as real / acc.count as real);
      }
    }
  }

  /** Strictly increasing timestamps from lo up to but not including hi. */
  predicate IncreasingWithin(points: seq<Point>, lo: int, hi: int) {
    && (forall i :: 0 <= i < |points| ==> lo <= points[i].timestamp < hi)
    && (forall i, j :: 0 <= i < j < |points| ==> points[i].timestamp < points[j].timestamp)
  }

  lemma PointAppended(points: seq<Point>, lo: int, start: int, width: nat, avg: real)
    requires IncreasingWithin(points, lo, start) && lo <= start && width > 0
    ensures IncreasingWithin(points + [Point(start + width / 2, avg)], lo, start + width)
  {
    assert 0 <= width / 2 < width;
  }

  ghost predicate Within(a: Acc, lo: int, hi: int) {
    lo * a.count <= a.sum <= hi * a.count
  }

  lemma WithinAdds(a: Acc, b: Acc, lo: int, hi: int)
    requires Within(a, lo, hi) && Within(b, lo, hi)
    ensures Within(Acc(a.sum + b.sum, a.count + b.count), lo, hi)
  {
    assert lo * (a.count + b.count) == lo * a.count + lo * b.count;
    assert hi * (a.count + b.count) == hi * a.count + hi * b.count;
  }

  lemma {:induction false} CollectedWithin(samples: seq<Sample>, since: int, width: nat, i: nat, lo: int, hi: int)
    requires width > 0
    requires forall s :: s in samples ==> Within(Acc(s.sum, s.count), lo, hi)
    ensures Within(Collected(samples, since, width, i), lo, hi)
  {
    if samples != [] {
      var init, last := samples[..|samples| - 1], samples[|samples| - 1];
      CollectedWithin(init, since, width, i, lo, hi);
      WithinAdds(Collected(init, since, width, i), Acc(last.sum, last.count), lo, hi);
    }
  }

  lemma AverageWithin(a: Acc, lo: int, hi: int)
    requires Within(a, lo, hi) && a.count > 0
    ensures lo as real <= a.sum as real / a.count as real <= hi as real
  {
    assert (lo * a.count) as real == lo as real * a.count as real;
    assert (hi * a.count) as real == hi as real * a.count as real;
    QuotientWithin(a.sum as real, a.count as real, lo as real, hi as real);
  }

  lemma QuotientWithin(s: real, n: real, lo: real, hi: real)
    requires n > 0.0 && lo * n <= s <= hi * n
    ensures lo <= s / n <= hi
  {
    assert (s / n) * n == s;
    if s / n < lo { ScaleUp(s / n, lo, n); }
    if s / n > hi { ScaleUp(hi, s / n, n); }
  }

  lemma ScaleUp(x: real, y: real, n: real)
    requires n > 0.0 && x < y
    ensures x * n < y * n
  {
  }

  lemma {:induction false} PointsWithin(samples: seq<Sample>, since: int, width: nat, n: nat, lo: int, hi: int)
    requires width > 0
    requires forall s :: s in samples ==> Within(Acc(s.sum, s.count), lo, hi)
    ensures forall p :: p in PointsUpTo(samples, since, width, n) ==> lo as real <= p.avg <= hi as real
  {
    if n > 0 {
      PointsWithin(samples, since, width, n - 1, lo, hi);
      var acc := Collected(samples, since, width, n - 1);
      CollectedWithin(samples, since, width, n - 1, lo, hi);
      if acc.count > 0 { AverageWithin(acc, lo, hi); }
    }
  }

  // ---------- Samples and summaries ----------

  lemma {:induction false} RawSamplesPool(rs: seq<CheckRow>)
    ensures var s := RawSummary(rs); Pooled(RawSamples(rs)) == Acc(s.sum, s.count)
  {
    if rs != [] {
      var init, last := rs[..|rs| - 1], rs[|rs| - 1];
      RawSamplesPool(init);
      if Measured(last.status) { PoolAppends(RawSamples(init), Sample(last.at, last.latency, 1)); }
      else { assert RawSamples(rs) == RawSamples(init); }
    }
  }

  lemma PoolAppends(samples: seq<Sample>, s: Sample)
    ensures Pooled(samples + [s]) == Acc(Pooled(samples).sum + s.sum, Pooled(samples).count + s.count)
  {
    assert (samples + [s])[..|samples|] == samples;
  }

  lemma {:induction false} RollupSamplesPool(rows: seq<RollupRow>)
    ensures var s := RollupSummary(rows); Pooled(RollupSamples(rows)) == Acc(s.sum, s.count)
  {
    if rows != [] {
      var init, last := rows[..|rows| - 1], rows[|rows| - 1];
      RollupSamplesPool(init);
      if last.latencyChecks > 0 {
        PoolAppends(RollupSamples(init), Sample(last.bucket, last.sumLatency, last.latencyChecks));
      } else {
        assert RollupSamples(rows) == RollupSamples(init);
      }
    }
  }

  lemma {:induction false} RawSamplesWithin(rs: seq<CheckRow>, lo: int, hi: int)
    requires forall x :: x in Latencies(rs) ==> lo <= x <= hi
    ensures forall s :: s in RawSamples(rs) ==> Within(Acc(s.sum, s.count), lo, hi)
    ensures (RawSamples(rs) == []) <==> (Latencies(rs) == [])
  {
    if rs != [] {
      var init, last := rs[..|rs| - 1], rs[|rs| - 1];
      assert forall x :: x in Latencies(init) ==> x in Latencies(rs);
      RawSamplesWithin(init, lo, hi);
      if Measured(last.status) {
        assert Latencies(rs) == Latencies(init) + [last.latency];
        assert last.latency in Latencies(rs);
      }
    }
  }

  /** Rows as refresh_rollups writes them: the sum lies between count times least and greatest. */
  predicate ConsistentRow(row: RollupRow) {
    row.minLatency * row.latencyChecks <= row.sumLatency <= row.maxLatency * row.latencyChecks
  }

  lemma {:induction false} RollupSamplesWithin(rows: seq<RollupRow>, lo: int, hi: int)
    requires forall r :: r in rows ==> ConsistentRow(r)
    requires forall r :: r in rows && r.latencyChecks > 0 ==> lo <= r.minLatency && r.maxLatency <= hi
    ensures forall s :: s in RollupSamples(rows) ==> Within(Acc(s.sum, s.count), lo, hi)
  {
    if rows != [] {
      var init, last := rows[..|rows| - 1], rows[|rows| - 1];
      RollupSamplesWithin(init, lo, hi);
      if last.latencyChecks > 0 {
        assert last in rows;
        Widen(last.minLatency, lo, last.maxLatency, hi, last.latencyChecks);
      }
    }
  }

  lemma Widen(min: int, lo: int, max: int, hi: int, n: nat)
    requires lo <= min && max <= hi
    ensures lo * n <= min * n && max * n <= hi * n
  {
    assert min * n - lo * n == (min - lo) * n;
    assert hi * n - max * n == (hi - max) * n;
  }

  lemma {:induction false} RollupBounds(rows: seq<RollupRow>)
    requires forall r :: r in rows ==> r.minLatency <= r.maxLatency
    ensures var s := RollupSummary(rows);
      forall r :: r in rows && r.latencyChecks > 0 ==> s.count > 0 && s.min <= r.minLatency && r.maxLatency <= s.max
  {
    if rows != [] {
      var init, last := rows[..|rows| - 1], rows[|rows| - 1];
      RollupBounds(init);
      assert rows == init + [last];
    }
  }

  /** Rows written for a group of checks are consistent. */
  lemma {:induction false} RollupsAreConsistent(region: Region, bucket: int, group: seq<CheckRow>)
    ensures ConsistentRow(RollupOf(region, bucket, group))
  {
    var s := RawSummary(group);
    RawSummaryMeans(group);
    if Latencies(group) != [] {
      RawSamplesWithin(group, s.min, s.max);
      RawSamplesPool(group);
      PooledWithin(RawSamples(group), s.min, s.max);
    }
  }

  lemma {:induction false} PooledWithin(samples: seq<Sample>, lo: int, hi: int)
    requires forall s :: s in samples ==> Within(Acc(s.sum, s.count), lo, hi)
    ensures Within(Pooled(samples), lo, hi)
  {
    if samples != [] {
      var init, last := samples[..|samples| - 1], samples[|samples| - 1];
      PooledWithin(init, lo, hi);
      WithinAdds(Pooled(init), Acc(last.sum, last.count), lo, hi);
    }
  }
}
