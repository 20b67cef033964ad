/** The two statistics reads, loop by loop, and the guarantees of their answers. */
module StatsReads {
  import opened Types
  import opened Stats

  /** A statistics answer, or the division by zero of a window narrower than 48 nanoseconds. */
  datatype Answer = Answer(headline: Headline, points: seq<Point>) | Panics

  // ---------- Raw checks ----------

  method Aggregate(rs: seq<CheckRow>) returns (min: int, max: int, sum: int, count: nat)
    ensures Summary(|rs|, count, sum, min, max) == RawSummary(rs)
  {
    min, max, sum, count := 0, 0, 0, 0;
    for i := 0 to |rs|
      invariant Summary(i, count, sum, min, max) == RawSummary(rs[..i])
    {
      assert rs[..i + 1][..i] == rs[..i];
      if Measured(rs[i].status) {
        var l := rs[i].latency;
        if count == 0 || l < min { min := l; }
        if count == 0 || l > max { max := l; }
        sum := sum + l;
        count := count + 1;
      }
    }
    assert rs[..|rs|] == rs;
  }

  /** Go's bucket index, clamped into the series. */
  method Index(at: int, since: int, width: nat) returns (idx: int)
    requires width > 0
    ensures idx == Slot(at, since, width)
  {
    idx := TruncDiv(at - since, width);
    if idx < 0 { idx := 0; }
    if idx >= STAT_BUCKETS { idx := STAT_BUCKETS - 1; }
  }

  method FillBuckets(rs: seq<CheckRow>, since: int, width: nat, buckets: array<Acc>) returns (ok: bool)
    requires buckets.Length == STAT_BUCKETS && forall j :: 0 <= j < STAT_BUCKETS ==> buckets[j] == Acc(0, 0)
    modifies buckets
    ensures ok <==> width > 0 || RawSamples(rs) == []
    ensures ok && width > 0 ==>
      forall j :: 0 <= j < STAT_BUCKETS ==> buckets[j] == Collected(RawSamples(rs), since, width, j)
    ensures ok && width == 0 ==> forall j :: 0 <= j < STAT_BUCKETS ==> buckets[j] == Acc(0, 0)
  {
    for i := 0 to |rs|
      invariant width > 0 ==>
        forall j :: 0 <= j < STAT_BUCKETS ==> buckets[j] == Collected(RawSamples(rs[..i]), since, width, j)
      invariant width == 0 ==> RawSamples(rs[..i]) == []
      invariant width == 0 ==> forall j :: 0 <= j < STAT_BUCKETS ==> buckets[j] == Acc(0, 0)
    {
      ghost var before := RawSamples(rs[..i]);
      assert rs[..i + 1][..i] == rs[..i];
      if Measured(rs[i].status) {
        if width == 0 {
          RawSamplesGrow(rs, i + 1);
          return false;
        }
        var idx := Index(rs[i].at, since, width);
        ghost var s := Sample(rs[i].at, rs[i].latency, 1);
        assert (before + [s])[..|before|] == before;
        buckets[idx] := Acc(buckets[idx].sum + rs[i].latency, buckets[idx].count + 1);
      } else {
        assert RawSamples(rs[..i + 1]) == before;
      }
    }
    assert rs[..|rs|] == rs;
    ok := true;
  }

  method Points(buckets: array<Acc>, since: int, width: nat, ghost samples: seq<Sample>) returns (points: seq<Point>)
    requires buckets.Length == STAT_BUCKETS
    requires width > 0 ==> forall j :: 0 <= j < STAT_BUCKETS ==> buckets[j] == Collected(samples, since, width, j)
    requires width == 0 ==> forall j :: 0 <= j < STAT_BUCKETS ==> buckets[j] == Acc(0, 0)
    ensures points == if width == 0 then [] else PointsUpTo(samples, since, width, STAT_BUCKETS)
  {
    points := [];
    for i := 0 to STAT_BUCKETS
      invariant points == if width == 0 then [] else PointsUpTo(samples, since, width, i)
    {
      if buckets[i].count != 0 {
        points := points + [Point(since + i * width + width / 2, buckets[i].sum as real / buckets[i].count as real)];
      }
    }
  }

  function SeriesOf(samples: seq<Sample>, since: int, until: int): seq<Point> {
    var width := BucketWidth(since, until);
    if width == 0 then [] else PointsUpTo(samples, since, width, STAT_BUCKETS)
  }

  method Width(since: int, until: int) returns (width: nat)
    ensures width == BucketWidth(since, until) && (width == 0 <==> 0 < until - since < STAT_BUCKETS)
  {
    var span := until - since;
    if span <= 0 { span := NANOS_PER_SECOND; }
    width := span / STAT_BUCKETS;
  }

  /** computeStats: it panics exactly when the window is narrower than 48 ns and a check was measured. */
  method ComputeStats(rs: seq<CheckRow>, since: int, until: int) returns (r: Answer)
    ensures r.Panics? <==> 0 < until - since < STAT_BUCKETS && RawSamples(rs) != []
    ensures r.Answer? ==> r == Answer(HeadlineOf(RawSummary(rs)), SeriesOf(RawSamples(rs), since, until))
  {
    if |rs| == 0 {
      if BucketWidth(since, until) > 0 { NoPoints(since, BucketWidth(since, until), STAT_BUCKETS); }
      return Answer(Headline(0, 0, 0, 0.0), []);
    }
    var min, max, sum, count := Aggregate(rs);
    var headline := Headline(|rs|, 0, 0, 0.0);
    if count > 0 {
      headline := Headline(|rs|, min, max, sum as real / count as real);
    }
    var width := Width(since, until);
    var buckets := new Acc[STAT_BUCKETS](_ => Acc(0, 0));
    var ok := FillBuckets(rs, since, width, buckets);
    if !ok { return Panics; }
    var points := Points(buckets, since, width, RawSamples(rs));
    r := Answer(headline, points);
  }

  // ---------- Rollups ----------

  method AggregateRollups(rows: seq<RollupRow>)
    returns (min: int, max: int, totalSum: int, latencyCount: nat, totalCount: nat)
    ensures Summary(totalCount, latencyCount, totalSum, min, max) == RollupSummary(rows)
    ensures latencyCount == 0 ==> min == max == totalSum == 0
  {
    min, max, totalSum, latencyCount, totalCount := 0, 0, 0, 0, 0;
    for i := 0 to |rows|
      invariant Summary(totalCount, latencyCount, totalSum, min, max) == RollupSummary(rows[..i])
      invariant latencyCount == 0 ==> min == max == totalSum == 0
    {
      assert rows[..i + 1][..i] == rows[..i];
      totalCount := totalCount + rows[i].checks;
      if rows[i].latencyChecks != 0 {
        if latencyCount == 0 || rows[i].minLatency < min { min := rows[i].minLatency; }
        if latencyCount == 0 || rows[i].maxLatency > max { max := rows[i].maxLatency; }
        totalSum := totalSum + rows[i].sumLatency;
        latencyCount := latencyCount + rows[i].latencyChecks;
      }
    }
    assert rows[..|rows|] == rows;
  }

  method FillBucketsFromRollups(rows: seq<RollupRow>, since: int, width: nat, buckets: array<Acc>) returns (ok: bool)
    requires buckets.Length == STAT_BUCKETS && forall j :: 0 <= j < STAT_BUCKETS ==> buckets[j] == Acc(0, 0)
    modifies buckets
    ensures ok <==> width > 0 || RollupSamples(rows) == []
    ensures ok && width > 0 ==>
      forall j :: 0 <= j < STAT_BUCKETS ==> buckets[j] == Collected(RollupSamples(rows), since, width, j)
    ensures ok && width == 0 ==> forall j :: 0 <= j < STAT_BUCKETS ==> buckets[j] == Acc(0, 0)
  {
    for i := 0 to |rows|
      invariant width > 0 ==> forall j :: 0 <= j < STAT_BUCKETS ==>
        buckets[j] == Collected(RollupSamples(rows[..i]), since, width, j)
      invariant width == 0 ==> RollupSamples(rows[..i]) == []
      invariant width == 0 ==> forall j :: 0 <= j < STAT_BUCKETS ==> buckets[j] == Acc(0, 0)
    {
      ghost var before := RollupSamples(rows[..i]);
      assert rows[..i + 1][..i] == rows[..i];
      if rows[i].latencyChecks != 0 {
        if width == 0 {
          RollupSamplesGrow(rows, i + 1);
          return false;
        }
        var idx := Index(rows[i].bucket, since, width);
        ghost var s := Sample(rows[i].bucket, rows[i].sumLatency, rows[i].latencyChecks);
        assert (before + [s])[..|before|] == before;
        buckets[idx] := Acc(buckets[idx].sum + rows[i].sumLatency, buckets[idx].count + rows[i].latencyChecks);
      } else {
        assert RollupSamples(rows[..i + 1]) == before;
      }
    }
    assert rows[..|rows|] == rows;
    ok := true;
  }

  /** computeStatsFromRollups: rows that hold no check at all give the empty answer. */
  method ComputeStatsFromRollups(rows: seq<RollupRow>, since: int, until: int) returns (r: Answer)
    ensures var s := RollupSummary(rows);
      && (s.total == 0 ==> r == Answer(Headline(0, 0, 0, 0.0), []))
      && (s.total > 0 ==> (r.Panics? <==> 0 < until - since < STAT_BUCKETS && RollupSamples(rows) != []))
      && (s.total > 0 && r.Answer? ==> r == Answer(HeadlineOf(s), SeriesOf(RollupSamples(rows), since, until)))
  {
    if |rows| == 0 { return Answer(Headline(0, 0, 0, 0.0), []); }
    var min, max, totalSum, latencyCount, totalCount := AggregateRollups(rows);
    if totalCount == 0 { return Answer(Headline(0, 0, 0, 0.0), []); }
    var headline := Headline(totalCount, 0, 0, 0.0);
    if latencyCount > 0 {
      headline := Headline(totalCount, min, max, totalSum as real / latencyCount as real);
    }
    var width := Width(since, until);
    var buckets := new Acc[STAT_BUCKETS](_ => Acc(0, 0));
    var ok := FillBucketsFromRollups(rows, since, width, buckets);
    if !ok { return Panics; }
    var points := Points(buckets, since, width, RollupSamples(rows));
    r := Answer(headline, points);
  }

  lemma {:induction false} NoPoints(since: int, width: nat, n: nat)
    requires width > 0
    ensures PointsUpTo([], since, width, n) == []
  {
    if n > 0 { NoPoints(since, width, n - 1); }
  }

  lemma {:induction false} RawSamplesGrow(rs: seq<CheckRow>, i: nat)
    requires i <= |rs| && RawSamples(rs[..i]) != []
    ensures RawSamples(rs) != []
    decreases |rs| - i
  {
    if i < |rs| {
      assert rs[..i + 1][..i] == rs[..i];
      RawSamplesGrow(rs, i + 1);
    } else {
      assert rs[..i] == rs;
    }
  }

  lemma {:induction false} RollupSamplesGrow(rows: seq<RollupRow>, i: nat)
    requires i <= |rows| && RollupSamples(rows[..i]) != []
    ensures RollupSamples(rows) != []
    decreases |rows| - i
  {
    if i < |rows| {
      assert rows[..i + 1][..i] == rows[..i];
      RollupSamplesGrow(rows, i + 1);
    } else {
      assert rows[..i] == rows;
    }
  }

  // ---------- Guarantees of the answers ----------

  ghost predicate GoodSeries(points: seq<Point>, h: Headline) {
    && |points| <= STAT_BUCKETS
    && (forall i, j :: 0 <= i < j < |points| ==> points[i].timestamp < points[j].timestamp)
    && (forall p :: p in points ==> h.min as real <= p.avg <= h.max as real)
  }

  /**
   * The raw series: at most 48 points, strictly increasing timestamps, every average between the
   * overall least and greatest latency, and buckets that hold every measured check exactly once.
   */
  lemma RawSeriesIsGood(rs: seq<CheckRow>, since: int, width: nat)
    requires width > 0
    ensures GoodSeries(PointsUpTo(RawSamples(rs), since, width, STAT_BUCKETS), HeadlineOf(RawSummary(rs)))
    ensures var s := RawSummary(rs); CollectedUpTo(RawSamples(rs), since, width, STAT_BUCKETS) == Acc(s.sum, s.count)
  {
    var s := RawSummary(rs);
    RawSummaryMeans(rs);
    RawSamplesWithin(rs, s.min, s.max);
    PointsIncrease(RawSamples(rs), since, width, STAT_BUCKETS);
    PointsWithin(RawSamples(rs), since, width, STAT_BUCKETS, s.min, s.max);
    BucketsConserve(RawSamples(rs), since, width);
    RawSamplesPool(rs);
  }

  /** The rollup series, for rows as the refresh writes them. */
  lemma RollupSeriesIsGood(groups: seq<Group>, since: int, width: nat)
    requires width > 0
    ensures var rows := Rollups(groups); var s := RollupSummary(rows);
      && GoodSeries(PointsUpTo(RollupSamples(rows), since, width, STAT_BUCKETS), HeadlineOf(s))
      && CollectedUpTo(RollupSamples(rows), since, width, STAT_BUCKETS) == Acc(s.sum, s.count)
  {
    var rows := Rollups(groups);
    var s := RollupSummary(rows);
    RollupsWellFormed(groups);
    RollupBounds(rows);
    RollupSamplesWithin(rows, s.min, s.max);
    PointsIncrease(RollupSamples(rows), since, width, STAT_BUCKETS);
    PointsWithin(RollupSamples(rows), since, width, STAT_BUCKETS, s.min, s.max);
    BucketsConserve(RollupSamples(rows), since, width);
    RollupSamplesPool(rows);
  }

  lemma {:induction false} RollupsWellFormed(groups: seq<Group>)
    ensures forall r :: r in Rollups(groups) ==> ConsistentRow(r) && r.minLatency <= r.maxLatency
  {
    if groups != [] {
      var g := groups[|groups| - 1];
      RollupsWellFormed(groups[..|groups| - 1]);
      RollupsAreConsistent(g.region, g.bucket, g.checks);
    }
  }
}
